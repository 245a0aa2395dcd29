/**
 * PropertyExpression: compares two properties with a SQL binary operator. Column
 * `i` of the left property is paired with column `i` of the right one, the pairs
 * are joined with ` and `, and the whole is parenthesised when the left property
 * spans more than one column.
 */
module PropertyExpressions {
  import opened Strings
  import opened Builders
  import opened TypedValues

  /** The SQL comparing `xcols` with `ycols` under `op`. StringHelper.add indexes the
      right columns by the positions of the left ones, so there must be at least as
      many. */
  function PropertySql(xcols: seq<string>, op: string, ycols: seq<string>): string
    requires |xcols| <= |ycols|
  {
    Parenthesized(Join(" and ", Add(xcols, op, ycols)), |xcols| > 1)
  }

  class PropertyExpression {
    const propertyName: string
    const otherPropertyName: string
    const op: string

    constructor (propertyName: string, otherPropertyName: string, op: string)
      ensures this.propertyName == propertyName
      ensures this.otherPropertyName == otherPropertyName && this.op == op
    {
      this.propertyName := propertyName;
      this.otherPropertyName := otherPropertyName;
      this.op := op;
    }

    /** getOp: the operator given at construction. */
    function GetOp(): (r: string)
      ensures r == op
    {
      op
    }

    /** toSqlString(criteria, criteriaQuery, sb): appends the comparison of the two
        properties' columns to `builder`. */
    method ToSqlString(xcols: seq<string>, ycols: seq<string>, builder: Builder)
      requires |xcols| <= |ycols|
      modifies builder
      ensures builder.contents == old(builder.contents) + PropertySql(xcols, op, ycols)
    {
      if |xcols| > 1 {
        builder.Append("(");
      }
      builder.AppendJoin(" and ", Add(xcols, GetOp(), ycols));
      if |xcols| > 1 {
        builder.Append(")");
      }
    }

    /** toSqlString(criteria, criteriaQuery): the SQL as a fresh string. */
    method ToSql(xcols: seq<string>, ycols: seq<string>) returns (r: string)
      requires |xcols| <= |ycols|
      ensures r == PropertySql(xcols, op, ycols)
    {
      var sb := new Builder();
      ToSqlString(xcols, ycols, sb);
      r := sb.ToString();
    }

    /** getTypedValues: a comparison of two properties binds no parameters. */
    function GetTypedValues(): (r: seq<TypedValue>)
      ensures |r| == 0
    {
      []
    }

    /** toString: the two property names with the operator between them and no
        spaces inserted. */
    function ToString(): (r: string)
      ensures |r| == |propertyName| + |op| + |otherPropertyName|
      ensures r[..|propertyName|] == propertyName
      ensures r[|propertyName|..|propertyName| + |op|] == op
      ensures r[|propertyName| + |op|..] == otherPropertyName
    {
      propertyName + GetOp() + otherPropertyName
    }
  }

  // ---------------------------------------------------------------------------
  // Properties.

  /** Right-hand columns beyond the left-hand count take no part in the text. */
  lemma ExtraRightColumnsIgnored(xcols: seq<string>, op: string, ycols: seq<string>)
    requires |xcols| <= |ycols|
    ensures PropertySql(xcols, op, ycols) == PropertySql(xcols, op, ycols[..|xcols|])
  {
    assert Add(xcols, op, ycols) == Add(xcols, op, ycols[..|xcols|]);
  }

  /** One pair of columns: exactly `x op y`, with no parentheses. */
  lemma SinglePair(x: string, op: string, ycols: seq<string>)
    requires |ycols| >= 1
    ensures PropertySql([x], op, ycols) == x + op + ycols[0]
  {
  }

  /** The text opens with `(` exactly when the left property has more than one
      column, provided its first column name does not itself open with `(`. */
  lemma OpensIffSeveralLeftColumns(xcols: seq<string>, op: string, ycols: seq<string>)
    requires 1 <= |xcols| <= |ycols|
    requires |xcols[0]| >= 1 && xcols[0][0] != '('
    ensures PropertySql(xcols, op, ycols)[0] == '(' <==> |xcols| > 1
  {
    var pairs := Add(xcols, op, ycols);
    JoinHead(" and ", pairs);
    var body := Join(" and ", pairs);
    assert body[0] == pairs[0][0] == xcols[0][0];
    ParenthesizedOpens(body, |xcols| > 1);
  }

  /** The text has as many `?` marks as there are bound values: none, when neither
      the columns nor the operator hold one. */
  lemma ParameterCountMatches(e: PropertyExpression, xcols: seq<string>, ycols: seq<string>)
    requires |xcols| <= |ycols|
    requires NoMarksIn(xcols) && NoMarksIn(ycols) && '?' !in e.op
    ensures CountChar(PropertySql(xcols, e.op, ycols), '?') == |e.GetTypedValues()|
  {
    var pairs := Add(xcols, e.op, ycols);
    forall i | 0 <= i < |pairs| ensures '?' !in pairs[i] {
      assert pairs[i] == xcols[i] + e.op + ycols[i];
    }
    JoinCountAbsent(" and ", pairs, '?');
    ParenthesizedCount(Join(" and ", pairs), |xcols| > 1, '?');
  }
}
