/**
 * NullExpression: constrains a property to be null. Each column gets ` is null`,
 * the tests are joined with ` and `, and the whole is parenthesised when the
 * property spans more than one column.
 */
module NullExpressions {
  import opened Strings
  import opened Builders
  import opened TypedValues

  /** The SQL of `property is null` over the property's columns. */
  function NullSql(columns: seq<string>): string
  {
    Parenthesized(Join(" and ", Suffix(columns, " is null")), |columns| > 1)
  }

  class NullExpression {
    const propertyName: string

    constructor (propertyName: string)
      ensures this.propertyName == propertyName
    {
      this.propertyName := propertyName;
    }

    /** toSqlString(criteria, criteriaQuery, builder): appends the SQL for the
        property's columns to `builder`. */
    method ToSqlString(columns: seq<string>, builder: Builder)
      modifies builder
      ensures builder.contents == old(builder.contents) + NullSql(columns)
    {
      if |columns| > 1 {
        builder.Append("(");
      }
      builder.AppendJoin(" and ", Suffix(columns, " is null"));
      if |columns| > 1 {
        builder.Append(")");
      }
    }

    /** toSqlString(criteria, criteriaQuery): the SQL as a fresh string. */
    method ToSql(columns: seq<string>) returns (r: string)
      ensures r == NullSql(columns)
    {
      var sb := new Builder();
      ToSqlString(columns, sb);
      r := sb.ToString();
    }

    /** getTypedValues: a null test binds no parameters. */
    function GetTypedValues(): (r: seq<TypedValue>)
      ensures |r| == 0
    {
      []
    }

    /** toString: the property name followed by ` is null`. */
    function ToString(): (r: string)
      ensures |r| == |propertyName| + 8
      ensures r[..|propertyName|] == propertyName && r[|propertyName|..] == " is null"
    {
      propertyName + " is null"
    }
  }

  // ---------------------------------------------------------------------------
  // Properties.

  /** One column: exactly `column is null`, with no parentheses. */
  lemma SingleColumn(column: string)
    ensures NullSql([column]) == column + " is null"
  {
  }

  /** The text closes with `)` exactly when there is more than one column (a single
      test ends in `null`). */
  lemma ParenthesisedIffSeveralColumns(columns: seq<string>)
    requires |columns| >= 1
    ensures var s := NullSql(columns); s[|s| - 1] == ')' <==> |columns| > 1
  {
    var tests := Suffix(columns, " is null");
    JoinLast(" and ", tests);
    var body := Join(" and ", tests);
    var z := tests[|tests| - 1];
    assert body[|body| - 1] == z[|z| - 1] == 'l';
    ParenthesizedCloses(body, |columns| > 1);
  }

  /** The text opens with `(` exactly when there is more than one column, provided the
      first column name does not itself open with `(`. */
  lemma OpensIffSeveralColumns(columns: seq<string>)
    requires |columns| >= 1 && (|columns[0]| == 0 || columns[0][0] != '(')
    ensures NullSql(columns)[0] == '(' <==> |columns| > 1
  {
    var tests := Suffix(columns, " is null");
    JoinHead(" and ", tests);
    var body := Join(" and ", tests);
    assert body[0] == tests[0][0];
    ParenthesizedOpens(body, |columns| > 1);
  }

  /** The text has as many `?` marks as there are bound values: none. */
  lemma ParameterCountMatches(e: NullExpression, columns: seq<string>)
    requires NoMarksIn(columns)
    ensures CountChar(NullSql(columns), '?') == |e.GetTypedValues()|
  {
    var tests := Suffix(columns, " is null");
    forall i | 0 <= i < |tests| ensures '?' !in tests[i] {
      assert tests[i] == columns[i] + " is null";
    }
    JoinCountAbsent(" and ", tests, '?');
    ParenthesizedCount(Join(" and ", tests), |columns| > 1, '?');
  }
}
