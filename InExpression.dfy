/**
 * InExpression: constrains a property to a list of values. The SQL takes either the
 * row-value form `(c1, c2) in ((?, ?), (?, ?))` or, for a multi-column property on a
 * dialect without row-value constructors in IN lists, the expanded form
 * ` (  ( c1 = ? and c2= ? ) or  ( c1 = ? and c2= ? )  ) `.
 */
module InExpressions {
  import opened Strings
  import opened Builders
  import opened TypedValues

  // ---------------------------------------------------------------------------
  // The rendered text, stated independently of the Java append sequence.

  /** The placeholder group of one value: `?` for one column, `(?, …, ?)` otherwise. */
  function Marks(m: nat): string
    requires m >= 1
  {
    if m == 1 then "?" else "(" + Join(", ", Copies("?", m)) + ")"
  }

  /** The column list, parenthesised when there is more than one column. */
  function ColumnList(columns: seq<string>): string
  {
    Parenthesized(Join(", ", columns), |columns| > 1)
  }

  /** `(c1, …, cm) in (g, …, g)` with `n` groups. */
  function RowValueForm(columns: seq<string>, n: nat): string
    requires |columns| >= 1
  {
    ColumnList(columns) + " in (" + Join(", ", Copies(Marks(|columns|), n)) + ")"
  }

  /** The equalities of one value: `c1 = ?`, …, `cm= ?` (the last column has no
      space before its `=`, exactly as the Java text builds it). */
  function ColumnEqualities(columns: seq<string>): seq<string>
    requires |columns| >= 1
  {
    Suffix(columns[..|columns| - 1], " = ?") + [columns[|columns| - 1] + "= ?"]
  }

  /** ` ( c1 = ? and … and cm= ? ) `: the conjunction matching one value. */
  function Conjunction(columns: seq<string>): string
    requires |columns| >= 1
  {
    " ( " + Join(" and ", ColumnEqualities(columns)) + " ) "
  }

  /** `n` conjunctions joined by `or `, inside ` ( ` … ` ) `. */
  function ExpandedForm(columns: seq<string>, n: nat): string
    requires |columns| >= 1
  {
    " ( " + Join("or ", Copies(Conjunction(columns), n)) + " ) "
  }

  /** The SQL of an IN list over `columns` with `n` values. The row-value form is
      taken when the dialect supports it or there is only one column. */
  function InSql(columns: seq<string>, n: nat, rowValueSupported: bool): string
    requires |columns| >= 1
  {
    if rowValueSupported || |columns| <= 1 then RowValueForm(columns, n)
    else ExpandedForm(columns, n)
  }

  // ---------------------------------------------------------------------------
  // The bound parameters.

  /** The entries one value contributes: one per subtype for a component type,
      else the value itself with the property type. */
  function Entries(t: Type, v: Value, parts: Value -> seq<Value>): (r: seq<TypedValue>)
    requires t.Component? && v != Null ==> |parts(v)| >= |t.subtypes|
    ensures |r| == Width(t)
  {
    if t.Component? then
      seq(|t.subtypes|, i requires 0 <= i < |t.subtypes| => TypedValue(t.subtypes[i], SubValue(v, parts, i)))
    else
      [TypedValue(t, v)]
  }

  /** The typed values of `values`, value after value. */
  function TypedValuesOf(t: Type, values: seq<Value>, parts: Value -> seq<Value>): seq<TypedValue>
    requires Decomposable(t, values, parts)
    decreases |values|
  {
    if |values| == 0 then []
    else
      var init := values[..|values| - 1];
      assert forall j :: 0 <= j < |init| ==> init[j] == values[j];
      TypedValuesOf(t, init, parts) + Entries(t, values[|values| - 1], parts)
  }

  // ---------------------------------------------------------------------------
  // The criterion.

  /** What both branches of toSqlString do with the values: when there is at least
      one, `n - 1` copies of `g + sep` and then `g`; that is, `n` copies of `g`
      joined by `sep`. */
  method AppendCopies(g: string, sep: string, n: nat, builder: Builder)
    modifies builder
    ensures builder.contents == old(builder.contents) + Join(sep, Copies(g, n))
  {
    if n > 0 {
      builder.AppendRepeat(g + sep, n - 1);
      builder.Append(g);
      JoinCopiesByRepeat(g, sep, n);
    } else {
      assert Copies(g, n) == [];
    }
  }

  class InExpression {
    const propertyName: string
    const values: seq<Value>

    constructor (propertyName: string, values: seq<Value>)
      ensures this.propertyName == propertyName && this.values == values
    {
      this.propertyName := propertyName;
      this.values := values;
    }

    /** toSqlString(criteria, criteriaQuery, builder): appends the SQL to `builder`,
        given the property's columns and the dialect's row-value capability. */
    method ToSqlString(columns: seq<string>, rowValueSupported: bool, builder: Builder)
      requires |columns| >= 1
      modifies builder
      ensures builder.contents == old(builder.contents) + InSql(columns, |values|, rowValueSupported)
    {
      if rowValueSupported || |columns| <= 1 {
        AppendRowValueForm(columns, builder);
      } else {
        AppendExpandedForm(columns, builder);
      }
    }

    /** The first branch of toSqlString: `(c1, …, cm) in (g, …, g)`. */
    method AppendRowValueForm(columns: seq<string>, builder: Builder)
      requires |columns| >= 1
      modifies builder
      ensures builder.contents == old(builder.contents) + RowValueForm(columns, |values|)
    {
      var m := |columns|;
      var n := |values|;
      var singleValueParam := Repeat("?, ", m - 1) + "?";
      if m > 1 {
        singleValueParam := "(" + singleValueParam + ")";
      }
      assert singleValueParam == Marks(m) by {
        MarksByRepeat(m);
      }
      ghost var start := builder.contents;
      if m > 1 {
        builder.Append("(");
      }
      builder.AppendJoin(", ", columns);
      if m > 1 {
        builder.Append(")");
      }
      ghost var list := builder.contents;
      assert list == start + ColumnList(columns);
      builder.Append(" in (");
      AppendCopies(singleValueParam, ", ", n, builder);
      builder.Append(")");
      Regroup4(start, ColumnList(columns), " in (", Join(", ", Copies(singleValueParam, n)), ")");
    }

    /** The second branch of toSqlString: ` ( conj or … or conj ) `. */
    method AppendExpandedForm(columns: seq<string>, builder: Builder)
      requires |columns| >= 1
      modifies builder
      ensures builder.contents == old(builder.contents) + ExpandedForm(columns, |values|)
    {
      var n := |values|;
      var cols := " ( " + Join(" = ? and ", columns) + "= ? ) ";
      assert cols == Conjunction(columns) by {
        ConjunctionByJoin(columns);
      }
      ghost var start := builder.contents;
      builder.Append(" ( ");
      AppendCopies(cols, "or ", n, builder);
      builder.Append(" ) ");
      Regroup3(start, " ( ", Join("or ", Copies(cols, n)), " ) ");
    }

    /** toSqlString(criteria, criteriaQuery): the SQL as a fresh string. */
    method ToSql(columns: seq<string>, rowValueSupported: bool) returns (r: string)
      requires |columns| >= 1
      ensures r == InSql(columns, |values|, rowValueSupported)
    {
      var sb := new Builder();
      ToSqlString(columns, rowValueSupported, sb);
      r := sb.ToString();
    }

    /** getTypedValues: the parameters to bind, given the resolved property type and
        the component decomposition `parts`. */
    method GetTypedValues(t: Type, parts: Value -> seq<Value>) returns (r: seq<TypedValue>)
      requires Decomposable(t, values, parts)
      ensures r == TypedValuesOf(t, values, parts)
    {
      var list: seq<TypedValue> := [];
      if t.Component? {
        var types := t.subtypes;
        for j := 0 to |values|
          invariant list == TypedValuesOf(t, values[..j], parts)
        {
          for i := 0 to |types|
            invariant list == TypedValuesOf(t, values[..j], parts) + Entries(t, values[j], parts)[..i]
          {
            var subval := if values[j] == Null then Null else parts(values[j])[i];
            list := list + [TypedValue(types[i], subval)];
          }
          assert values[..j + 1][..j] == values[..j];
          assert Entries(t, values[j], parts)[..|types|] == Entries(t, values[j], parts);
        }
      } else {
        for j := 0 to |values|
          invariant list == TypedValuesOf(t, values[..j], parts)
        {
          list := list + [TypedValue(t, values[j])];
          assert values[..j + 1][..j] == values[..j];
        }
      }
      assert values[..|values|] == values;
      r := list;
    }

    /** toString: `propertyName in (…)`, with StringHelper.toString(values) given as
        `valuesText` (that helper is not part of this model). */
    function ToString(valuesText: string): (r: string)
      ensures |r| >= |propertyName| + 5
      ensures r[..|propertyName| + 5] == propertyName + " in ("
      ensures r[|r| - 1] == ')'
    {
      propertyName + " in (" + valuesText + ")"
    }
  }

  // ---------------------------------------------------------------------------
  // Properties.

  lemma Regroup4(a: string, b: string, c: string, d: string, e: string)
    ensures a + b + c + d + e == a + (b + c + d + e)
  {
  }

  lemma Regroup3(a: string, b: string, c: string, d: string)
    ensures a + b + c + d == a + (b + c + d)
  {
  }

  /** The Java text of the one-value group, `(?, ?, …, ?)`, is `Marks`. */
  lemma MarksByRepeat(m: nat)
    requires m >= 1
    ensures Parenthesized(Repeat("?, ", m - 1) + "?", m > 1) == Marks(m)
  {
    assert "?" + ", " == "?, ";
    JoinCopiesByRepeat("?", ", ", m);
  }

  lemma ColumnEqualitiesByJoin(columns: seq<string>)
    requires |columns| >= 1
    ensures Join(" = ? and ", columns) + "= ?" == Join(" and ", ColumnEqualities(columns))
  {
    JoinWithTrailing(columns, " = ?", " and ", " = ? and ", "= ?");
  }

  /** The Java text of one conjunction is the conjunction of the column equalities. */
  lemma ConjunctionByJoin(columns: seq<string>)
    requires |columns| >= 1
    ensures " ( " + Join(" = ? and ", columns) + "= ? ) " == Conjunction(columns)
  {
    ColumnEqualitiesByJoin(columns);
    Regroup(Join(" = ? and ", columns), Join(" and ", ColumnEqualities(columns)));
  }

  lemma Regroup(j: string, e: string)
    requires j + "= ?" == e
    ensures " ( " + j + "= ? ) " == " ( " + e + " ) "
  {
    assert "= ? ) " == "= ?" + " ) ";
  }

  /** The form is chosen by the dialect exactly when there are several columns: the
      row-value form opens with `(`, the expanded form with a space. */
  lemma {:induction false} FormFollowsDialect(columns: seq<string>, n: nat, rowValueSupported: bool)
    requires |columns| > 1
    ensures InSql(columns, n, rowValueSupported)[0] == '(' <==> rowValueSupported
  {
  }

  /** A single column gets ` in (` whatever the dialect: `c in (?, …, ?)`. */
  lemma SingleColumnIgnoresDialect(column: string, n: nat)
    ensures InSql([column], n, true) == InSql([column], n, false)
         == column + " in (" + Join(", ", Copies("?", n)) + ")"
  {
  }

  /** With no values the IN list is empty: `… in ()`, or ` (  ) ` in expanded form. */
  lemma EmptyValueList(columns: seq<string>, rowValueSupported: bool)
    requires |columns| >= 1
    ensures rowValueSupported || |columns| == 1 ==>
      InSql(columns, 0, rowValueSupported) == ColumnList(columns) + " in ()"
    ensures !rowValueSupported && |columns| > 1 ==> InSql(columns, 0, rowValueSupported) == " (  ) "
  {
    assert Join(", ", Copies(Marks(|columns|), 0)) == "";
    assert Join("or ", Copies(Conjunction(columns), 0)) == "";
  }

  lemma MarksCount(m: nat)
    requires m >= 1
    ensures CountChar(Marks(m), '?') == m
  {
    if m > 1 {
      CountCharJoin(", ", Copies("?", m), '?', 1);
      CountCharAbsent(", ", '?');
      CountCharConcat("(" + Join(", ", Copies("?", m)), ")", '?');
      CountCharConcat("(", Join(", ", Copies("?", m)), '?');
    }
  }

  lemma ColumnListCount(columns: seq<string>)
    requires |columns| >= 1 && NoMarksIn(columns)
    ensures CountChar(ColumnList(columns), '?') == 0
  {
    forall i | 0 <= i < |columns| ensures CountChar(columns[i], '?') == 0 {
      CountCharAbsent(columns[i], '?');
    }
    CountCharJoin(", ", columns, '?', 0);
    CountCharAbsent(", ", '?');
    if |columns| > 1 {
      CountCharConcat("(" + Join(", ", columns), ")", '?');
      CountCharConcat("(", Join(", ", columns), '?');
    }
  }

  lemma ConjunctionCount(columns: seq<string>)
    requires |columns| >= 1 && NoMarksIn(columns)
    ensures CountChar(Conjunction(columns), '?') == |columns|
  {
    var eqs := ColumnEqualities(columns);
    var m := |columns|;
    forall i | 0 <= i < m ensures CountChar(eqs[i], '?') == 1 {
      CountCharAbsent(columns[i], '?');
      if i < m - 1 {
        assert eqs[i] == columns[i] + " = ?";
        CountCharConcat(columns[i], " = ?", '?');
      } else {
        CountCharConcat(columns[i], "= ?", '?');
      }
    }
    CountCharJoin(" and ", eqs, '?', 1);
    CountCharAbsent(" and ", '?');
    CountCharConcat(" ( " + Join(" and ", eqs), " ) ", '?');
    CountCharConcat(" ( ", Join(" and ", eqs), '?');
  }

  /** `n` copies of a group holding `k` marks, joined by a mark-free separator,
      hold `n * k` marks. */
  lemma JoinedGroupsCount(g: string, sep: string, n: nat)
    requires '?' !in sep
    ensures CountChar(Join(sep, Copies(g, n)), '?') == n * CountChar(g, '?')
  {
    if n > 0 {
      CountCharJoin(sep, Copies(g, n), '?', CountChar(g, '?'));
      CountCharAbsent(sep, '?');
    }
  }

  /** The rendered text holds exactly one `?` per bound column value: `n * m`. */
  lemma PlaceholderCount(columns: seq<string>, n: nat, rowValueSupported: bool)
    requires |columns| >= 1 && NoMarksIn(columns)
    ensures CountChar(InSql(columns, n, rowValueSupported), '?') == n * |columns|
  {
    var m := |columns|;
    if rowValueSupported || m <= 1 {
      MarksCount(m);
      ColumnListCount(columns);
      JoinedGroupsCount(Marks(m), ", ", n);
      var groups := Join(", ", Copies(Marks(m), n));
      CountCharConcat(ColumnList(columns) + " in (" + groups, ")", '?');
      CountCharConcat(ColumnList(columns) + " in (", groups, '?');
      CountCharConcat(ColumnList(columns), " in (", '?');
      CountCharAbsent(" in (", '?');
    } else {
      ConjunctionCount(columns);
      JoinedGroupsCount(Conjunction(columns), "or ", n);
      var blocks := Join("or ", Copies(Conjunction(columns), n));
      CountCharConcat(" ( " + blocks, " ) ", '?');
      CountCharConcat(" ( ", blocks, '?');
    }
  }

  /** Each value contributes `Width(t)` entries. */
  lemma {:induction false} TypedValuesLength(t: Type, values: seq<Value>, parts: Value -> seq<Value>)
    requires Decomposable(t, values, parts)
    ensures |TypedValuesOf(t, values, parts)| == |values| * Width(t)
    decreases |values|
  {
    if |values| > 0 {
      var init := values[..|values| - 1];
      TypedValuesLength(t, init, parts);
      assert (|values| - 1) * Width(t) + Width(t) == |values| * Width(t);
    }
  }

  /** Entry `j * Width(t) + i` is entry `i` of value `j`: the parameters are laid out
      row-major, value by value. */
  lemma {:induction false} TypedValueAt(t: Type, values: seq<Value>, parts: Value -> seq<Value>, j: nat, i: nat)
    requires Decomposable(t, values, parts)
    requires j < |values| && i < Width(t)
    ensures |TypedValuesOf(t, values, parts)| == |values| * Width(t)
    ensures j * Width(t) + i < |values| * Width(t)
    ensures TypedValuesOf(t, values, parts)[j * Width(t) + i] == Entries(t, values[j], parts)[i]
    decreases |values|
  {
    TypedValuesLength(t, values, parts);
    var n, w := |values|, Width(t);
    MulStep(j, n, w, i);
    var init := values[..n - 1];
    var front, last := TypedValuesOf(t, init, parts), Entries(t, values[n - 1], parts);
    assert TypedValuesOf(t, values, parts) == front + last;
    TypedValuesLength(t, init, parts);
    if j < n - 1 {
      TypedValueAt(t, init, parts, j, i);
      assert init[j] == values[j];
      MulStep(j, n - 1, w, i);
      IndexLeft(front, last, j * w + i);
    } else {
      IndexRight(front, last, i);
    }
  }

  lemma IndexLeft<T>(a: seq<T>, b: seq<T>, k: nat)
    requires k < |a|
    ensures (a + b)[k] == a[k]
  {
  }

  lemma IndexRight<T>(a: seq<T>, b: seq<T>, k: nat)
    requires k < |b|
    ensures (a + b)[|a| + k] == b[k]
  {
  }

  lemma MulStep(j: nat, k: nat, w: nat, i: nat)
    requires j < k && i < w
    ensures j * w + i < k * w
  {
    assert (j + 1) * w <= k * w;
  }

  /** A basic-typed property binds each value once, in value order, with the
      property type. */
  lemma ScalarTypedValues(t: Type, values: seq<Value>, parts: Value -> seq<Value>)
    requires t.Basic?
    ensures |TypedValuesOf(t, values, parts)| == |values|
    ensures forall j :: 0 <= j < |values| ==> TypedValuesOf(t, values, parts)[j] == TypedValue(t, values[j])
  {
    TypedValuesLength(t, values, parts);
    forall j | 0 <= j < |values|
      ensures TypedValuesOf(t, values, parts)[j] == TypedValue(t, values[j])
    {
      TypedValueAt(t, values, parts, j, 0);
    }
  }

  /** A component-typed property with `s` subtypes binds `n * s` values; entry
      `j * s + i` is subtype `i` with sub-value `i` of value `j`, and a null value
      yields `s` nulls. */
  lemma CompositeTypedValue(t: Type, values: seq<Value>, parts: Value -> seq<Value>, j: nat, i: nat)
    requires t.Component? && Decomposable(t, values, parts)
    requires j < |values| && i < |t.subtypes|
    ensures |TypedValuesOf(t, values, parts)| == |values| * |t.subtypes|
    ensures j * |t.subtypes| + i < |values| * |t.subtypes|
    ensures TypedValuesOf(t, values, parts)[j * |t.subtypes| + i]
         == TypedValue(t.subtypes[i], if values[j] == Null then Null else parts(values[j])[i])
  {
    TypedValueAt(t, values, parts, j, i);
  }

  /** Binding order matches the text: when the type binds one parameter per column,
      there are as many typed values as `?` marks. */
  lemma ParameterCountMatches(columns: seq<string>, rowValueSupported: bool,
                              t: Type, values: seq<Value>, parts: Value -> seq<Value>)
    requires |columns| >= 1 && NoMarksIn(columns)
    requires Decomposable(t, values, parts) && Width(t) == |columns|
    ensures |TypedValuesOf(t, values, parts)| == CountChar(InSql(columns, |values|, rowValueSupported), '?')
  {
    TypedValuesLength(t, values, parts);
    PlaceholderCount(columns, |values|, rowValueSupported);
  }
}
