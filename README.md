# Hibernate criteria rendering, a char-array view and scan options, in Dafny

This project models six small pieces of Hibernate ORM and proves properties of the
model.

- **InExpression** renders `property in (…)` as SQL. It uses either the row-value form
  `(c1, c2) in ((?, ?), (?, ?))` or, for a multi-column property on a dialect without
  row-value constructors in IN lists, the expanded form
  ` (  ( c1 = ? and c2= ? ) or  ( … )  ) `. It also flattens the values into the list
  of parameters to bind.
- **CustomCharSequence** is a read-only `(chars, offset, length)` window onto a char
  array. It has a bounds-checked constructor, views that share the array
  (`subSequence`, `substring`), and a substring search adapted from
  `java.lang.String.indexOf`.
- **NullExpression**, **PropertyExpression** and **AbstractEmptinessExpression**
  render `is null`, property-to-property comparisons and `exists` / `not exists`
  subqueries. The last one first checks that the property is a queryable collection.
- **StandardScanOptions** derives three detection flags from an optional detection
  setting and the persistence unit's exclude-unlisted-classes value.

## Layout

There is one module per Java class, plus three shared modules:

- `Strings` holds the assumed definitions of Hibernate's `StringHelper.join`,
  `repeat`, `suffix` and `add`. It also has `?` counting and substring occurrence
  (`MatchesAt`, `Contains`).
- `Builders` models `StringBuilder` as a class holding its text. `AppendRepeat` and
  `AppendJoin` stand for the builder-taking `StringHelper` overloads.
- `TypedValues` holds runtime values, property types (basic or component with
  subtypes) and `TypedValue` pairs.

The criteria are classes with `const` fields for their final fields. Every
`toSqlString(…, builder)` is a method that appends to a `Builder`. Its `ensures`
states the new contents as the old contents followed by a specification function
(`InSql`, `NullSql`, `PropertySql`, `EmptinessSql`). The lemmas then prove what
those texts look like.

The search is the Java loop structure: an outer loop, the skip to the first
character, and the comparison of the rest. It is proved equal to
`IndexOfContract`, the reference definition of `indexOf` on sequences.

## Collaborators as inputs

The runtime collaborators the Java code calls become parameters:

- `criteriaQuery.findColumns` becomes the column sequence.
- The dialect's row-value capability becomes a `bool`.
- `criteriaQuery.getTypeUsingProjection` becomes a `Type`.
- `CompositeType.getPropertyValues` becomes a function `parts` from a value to its
  sub-values.
- The owner's property mapping becomes a `PropertyType`.
- `factory.getCollectionPersister` becomes a lookup `persisters` returning a
  `PersisterLookup`.
- The owner's identifier columns become `ownerKeys`.
- `ConditionFragment` becomes an uninterpreted function of alias, owner keys and
  collection keys.
- `excludeEmpty()` is a field of `EmptinessExpression`, since each concrete subclass
  returns a constant.
- A `null` detection setting is `Unset`.

The `CustomCharSequence` constructor throws `IllegalArgumentException`. That is
modelled by `Create`, which returns `IllegalArgument`. `charAt` and the view
operations check positions against the backing array only, never against the view's
own length, as in the Java code. So `subSequence` and `charAt` can reach characters
of the array beyond the view. The model keeps that behaviour.

## Model

| member | source | states |
|---|---|---|
| InExpressions.InExpression.constructor | hibernate-core/src/main/java/org/hibernate/criterion/InExpression.java:45-48 | keeps the property name and the values |
| InExpressions.InExpression.ToSqlString | hibernate-core/src/main/java/org/hibernate/criterion/InExpression.java:57-93 | only appends to the builder, and exactly `InSql(columns, n, dialect)`: the row-value form when the dialect supports it or there is at most one column, else the expanded form |
| InExpressions.InExpression.AppendRowValueForm | hibernate-core/src/main/java/org/hibernate/criterion/InExpression.java:63-82 | the Java repeat/append sequence appends the column list, ` in (`, the `n` one-value groups joined by `, ` and `)` |
| InExpressions.InExpression.AppendExpandedForm | hibernate-core/src/main/java/org/hibernate/criterion/InExpression.java:84-90 | appends ` ( `, `n` conjunction blocks joined by `or `, and ` ) ` |
| InExpressions.AppendCopies | hibernate-core/src/main/java/org/hibernate/criterion/InExpression.java:78-81 | `repeat(g + sep, n - 1)` then `g`, guarded by `n > 0`, appends `n` copies of `g` joined by `sep` |
| InExpressions.InExpression.ToSql | hibernate-core/src/main/java/org/hibernate/criterion/InExpression.java:50-55 | the String-returning overload yields exactly `InSql` |
| InExpressions.MarksByRepeat | hibernate-core/src/main/java/org/hibernate/criterion/InExpression.java:63-67 | the Java one-value group `repeat("?, ", m - 1) + "?"`, parenthesised for `m > 1`, is `?` or `(?, …, ?)` with `m` marks |
| InExpressions.ConjunctionByJoin | hibernate-core/src/main/java/org/hibernate/criterion/InExpression.java:84 | ` ( ` + join(` = ? and `, columns) + `= ? ) ` is the block ` ( c1 = ? and … and cm= ? ) ` |
| InExpressions.FormFollowsDialect | hibernate-core/src/main/java/org/hibernate/criterion/InExpression.java:60-61 | with several columns the text opens with `(` (row-value form) exactly when the dialect supports row values |
| InExpressions.SingleColumnIgnoresDialect | hibernate-core/src/main/java/org/hibernate/criterion/InExpression.java:60-82 | a single column renders `c in (?, …, ?)` whatever the dialect |
| InExpressions.EmptyValueList | hibernate-core/src/main/java/org/hibernate/criterion/InExpression.java:77-90 | with no values the row-value form ends in ` in ()` and the expanded form is exactly ` (  ) ` |
| InExpressions.PlaceholderCount | hibernate-core/src/main/java/org/hibernate/criterion/InExpression.java:63-90 | with `?`-free column names, both forms hold exactly `n * m` marks |
| InExpressions.InExpression.GetTypedValues | hibernate-core/src/main/java/org/hibernate/criterion/InExpression.java:95-117 | the nested loops build exactly `TypedValuesOf(type, values, parts)` |
| InExpressions.TypedValuesLength | hibernate-core/src/main/java/org/hibernate/criterion/InExpression.java:99-115 | `n` values give `n * width` entries: `n` for a basic type, `n * s` for `s` subtypes |
| InExpressions.TypedValueAt | hibernate-core/src/main/java/org/hibernate/criterion/InExpression.java:102-109 | entry `j * width + i` is entry `i` of value `j` (row-major order) |
| InExpressions.ScalarTypedValues | hibernate-core/src/main/java/org/hibernate/criterion/InExpression.java:111-115 | a basic type binds `n` entries, in value order, each with the property type |
| InExpressions.CompositeTypedValue | hibernate-core/src/main/java/org/hibernate/criterion/InExpression.java:99-110 | entry `j * s + i` holds subtype `i` and sub-value `i` of value `j`, and a null value yields `s` nulls |
| InExpressions.ParameterCountMatches | hibernate-core/src/main/java/org/hibernate/criterion/InExpression.java:57-117 | when the type binds one parameter per column, the bound values are as many as the `?` marks |
| InExpressions.InExpression.ToString | hibernate-core/src/main/java/org/hibernate/criterion/InExpression.java:119-121 | starts with the property name and ` in (`, ends with `)` |
| CharSequences.CustomCharSequence.Create | hibernate-core/src/main/java/org/hibernate/util/CustomCharSequence.java:15-22 | rejects exactly a negative offset, a negative length or a window past the array; otherwise a view of that array, offset and length |
| CharSequences.CustomCharSequence.constructor | hibernate-core/src/main/java/org/hibernate/util/CustomCharSequence.java:15-22 | a view whose check passed keeps its array, offset and length |
| CharSequences.CustomCharSequence.FromArray | hibernate-core/src/main/java/org/hibernate/util/CustomCharSequence.java:11-13 | the whole array, offset 0 |
| CharSequences.CustomCharSequence.Length | hibernate-core/src/main/java/org/hibernate/util/CustomCharSequence.java:42-44 | for a checked view, the length fits in the array after the offset |
| CharSequences.CustomCharSequence.CharAt | hibernate-core/src/main/java/org/hibernate/util/CustomCharSequence.java:89-91 | the array character at `offset + index`, which within the view is character `index` of `toString()` |
| CharSequences.CustomCharSequence.ToString | hibernate-core/src/main/java/org/hibernate/util/CustomCharSequence.java:113-115 | the `length` characters of the array from `offset` |
| CharSequences.CustomCharSequence.IndexOfChars | hibernate-core/src/main/java/org/hibernate/util/CustomCharSequence.java:50-87 | the search loop returns `IndexOfContract` of the two windows |
| CharSequences.CustomCharSequence.CompareRest | hibernate-core/src/main/java/org/hibernate/util/CustomCharSequence.java:74-78 | the inner loop stops at the first disagreement or after the whole target, with all earlier characters agreeing |
| CharSequences.FirstMatchIsLeast | hibernate-core/src/main/java/org/hibernate/util/CustomCharSequence.java:66-86 | the result is the least match at or after the start, and -1 only when there is none |
| CharSequences.IndexOfFindsFirst | hibernate-core/src/main/java/org/hibernate/util/CustomCharSequence.java:53-86 | a result `r >= 0` is a match with `fromIndex <= r` and `r + targetCount <= sourceCount`; no match lies before it; -1 means none |
| CharSequences.ContainsIsIndexOf | hibernate-core/src/main/java/org/hibernate/util/CustomCharSequence.java:50-87 | `contains` holds exactly when `indexOf` from 0 is non-negative |
| CharSequences.CustomCharSequence.IndexOf | hibernate-core/src/main/java/org/hibernate/util/CustomCharSequence.java:46-48 | searches this view for the other view's text from position 0, relative to this view |
| CharSequences.CustomCharSequence.SubSequence | hibernate-core/src/main/java/org/hibernate/util/CustomCharSequence.java:93-95 | a view of the same array at `offset + start` of length `end - start`, with the constructor's check; within the view its text is the parent's `[start, end)` |
| CharSequences.CustomCharSequence.Substring | hibernate-core/src/main/java/org/hibernate/util/CustomCharSequence.java:97-99 | the same view as `subSequence(start, end)` |
| CharSequences.CustomCharSequence.SubstringFrom | hibernate-core/src/main/java/org/hibernate/util/CustomCharSequence.java:101-103 | a view of length `length - start` at `offset + start`; within the view its text is the parent's text from `start` |
| NullExpressions.NullExpression.constructor | hibernate-core/src/main/java/org/hibernate/criterion/NullExpression.java:43-45 | keeps the property name |
| NullExpressions.NullExpression.ToSqlString | hibernate-core/src/main/java/org/hibernate/criterion/NullExpression.java:54-69 | only appends, and exactly the columns suffixed with ` is null`, joined by ` and `, parenthesised for several columns |
| NullExpressions.NullExpression.ToSql | hibernate-core/src/main/java/org/hibernate/criterion/NullExpression.java:47-52 | the String-returning overload yields exactly `NullSql` |
| NullExpressions.SingleColumn | hibernate-core/src/main/java/org/hibernate/criterion/NullExpression.java:57-66 | one column renders exactly `col is null` |
| NullExpressions.ParenthesisedIffSeveralColumns | hibernate-core/src/main/java/org/hibernate/criterion/NullExpression.java:57-66 | the text ends with `)` exactly when there is more than one column |
| NullExpressions.OpensIffSeveralColumns | hibernate-core/src/main/java/org/hibernate/criterion/NullExpression.java:57-66 | the text opens with `(` exactly when there is more than one column, if the first column does not |
| NullExpressions.NullExpression.GetTypedValues | hibernate-core/src/main/java/org/hibernate/criterion/NullExpression.java:71-74 | always empty |
| NullExpressions.ParameterCountMatches | hibernate-core/src/main/java/org/hibernate/criterion/NullExpression.java:54-74 | with `?`-free columns the text holds as many marks as bound values: none |
| NullExpressions.NullExpression.ToString | hibernate-core/src/main/java/org/hibernate/criterion/NullExpression.java:76-78 | the property name followed by ` is null` |
| PropertyExpressions.PropertyExpression.constructor | hibernate-core/src/main/java/org/hibernate/criterion/PropertyExpression.java:44-48 | keeps both property names and the operator |
| PropertyExpressions.PropertyExpression.GetOp | hibernate-core/src/main/java/org/hibernate/criterion/PropertyExpression.java:82-84 | the operator given at construction, unchanged |
| PropertyExpressions.PropertyExpression.ToSqlString | hibernate-core/src/main/java/org/hibernate/criterion/PropertyExpression.java:57-71 | only appends, and exactly the pairs `x_i op y_i` joined by ` and `, parenthesised when the left property has several columns |
| PropertyExpressions.PropertyExpression.ToSql | hibernate-core/src/main/java/org/hibernate/criterion/PropertyExpression.java:50-55 | the String-returning overload yields exactly `PropertySql` |
| PropertyExpressions.ExtraRightColumnsIgnored | hibernate-core/src/main/java/org/hibernate/criterion/PropertyExpression.java:59-69 | right-hand columns beyond the left-hand count change nothing |
| PropertyExpressions.SinglePair | hibernate-core/src/main/java/org/hibernate/criterion/PropertyExpression.java:61-69 | one left column renders exactly `x op y` |
| PropertyExpressions.OpensIffSeveralLeftColumns | hibernate-core/src/main/java/org/hibernate/criterion/PropertyExpression.java:61-69 | the text opens with `(` exactly when the left property has several columns, if its first column does not |
| PropertyExpressions.PropertyExpression.GetTypedValues | hibernate-core/src/main/java/org/hibernate/criterion/PropertyExpression.java:73-76 | always empty |
| PropertyExpressions.ParameterCountMatches | hibernate-core/src/main/java/org/hibernate/criterion/PropertyExpression.java:57-76 | with `?`-free columns and operator the text holds as many marks as bound values: none |
| PropertyExpressions.PropertyExpression.ToString | hibernate-core/src/main/java/org/hibernate/criterion/PropertyExpression.java:78-80 | the property name, the operator and the other property name, with no spaces inserted |
| EmptinessExpressions.EmptinessExpression.constructor | hibernate-core/src/main/java/org/hibernate/criterion/AbstractEmptinessExpression.java:51-53 | keeps the property name and the subclass's `excludeEmpty` answer |
| EmptinessExpressions.GetQueryableCollection | hibernate-core/src/main/java/org/hibernate/criterion/AbstractEmptinessExpression.java:88-108 | a mapping error exactly when the property is not a collection; otherwise the queryable persister, or a query error naming the role: not queryable for a persister of the wrong kind, not found for any other failure |
| EmptinessExpressions.ErrorClassification | hibernate-core/src/main/java/org/hibernate/criterion/AbstractEmptinessExpression.java:91-107 | query errors arise only for collections and name their role; success exactly for a collection with a queryable persister |
| EmptinessExpressions.EmptinessExpression.ToSqlString | hibernate-core/src/main/java/org/hibernate/criterion/AbstractEmptinessExpression.java:64-85 | a lookup error is raised before anything is appended; otherwise exactly `EmptinessSql` is appended |
| EmptinessExpressions.EmptinessExpression.AppendSubquery | hibernate-core/src/main/java/org/hibernate/criterion/AbstractEmptinessExpression.java:75-84 | appends exactly `EmptinessSql` of the persister, alias, owner keys and condition: the keyword, `(select 1 from `, the table, ` where `, the condition fragment and `)` |
| EmptinessExpressions.EmptinessExpression.ToSql | hibernate-core/src/main/java/org/hibernate/criterion/AbstractEmptinessExpression.java:55-60 | the String-returning overload yields the lookup error or exactly `EmptinessSql` |
| EmptinessExpressions.OpensWithExistsIffExcludeEmpty | hibernate-core/src/main/java/org/hibernate/criterion/AbstractEmptinessExpression.java:75-78 | the text opens with `exists ` exactly when empty collections are excluded, otherwise with `not exists ` |
| EmptinessExpressions.EmptyNegatesNotEmpty | hibernate-core/src/main/java/org/hibernate/criterion/AbstractEmptinessExpression.java:75-84 | the `is empty` text is `not ` followed by the `is not empty` text |
| EmptinessExpressions.EmptinessExpression.GetTypedValues | hibernate-core/src/main/java/org/hibernate/criterion/AbstractEmptinessExpression.java:110-113 | always empty |
| EmptinessExpressions.ParameterCountMatches | hibernate-core/src/main/java/org/hibernate/criterion/AbstractEmptinessExpression.java:64-113 | with a `?`-free table name and condition the text holds as many marks as bound values: none |
| EmptinessExpressions.EmptinessExpression.ToString | hibernate-core/src/main/java/org/hibernate/criterion/AbstractEmptinessExpression.java:115-117 | the property name followed by ` is not empty` or ` is empty` |
| EmptinessExpressions.ToStringIffExcludeEmpty | hibernate-core/src/main/java/org/hibernate/criterion/AbstractEmptinessExpression.java:115-117 | the text ends with ` is not empty` exactly when empty collections are excluded |
| ScanOptions.NewScanOptions | hibernate-core/src/main/java/org/hibernate/boot/archive/scan/internal/StandardScanOptions.java:40-51 | without a setting: mapping files and non-root classes detected, root classes exactly when not excluded; with one: mapping files exactly when it contains `hbm`, root classes exactly when it contains `class`, non-root equal to root |
| ScanOptions.DefaultScanOptions | hibernate-core/src/main/java/org/hibernate/boot/archive/scan/internal/StandardScanOptions.java:36-38 | the setting `hbm,class` without exclusion detects all three |
| ScanOptions.ExplicitSettingIgnoresExclude | hibernate-core/src/main/java/org/hibernate/boot/archive/scan/internal/StandardScanOptions.java:46-50 | with a setting, the exclude value has no effect |
| ScanOptions.UnsetDependsOnlyOnExcludeForRoot | hibernate-core/src/main/java/org/hibernate/boot/archive/scan/internal/StandardScanOptions.java:41-45 | without a setting, the exclude value flips the root flag and nothing else |
| ScanOptions.SettingWithoutKeywordsDetectsNothing | hibernate-core/src/main/java/org/hibernate/boot/archive/scan/internal/StandardScanOptions.java:41-50 | a setting with neither keyword detects nothing, while no setting detects everything |
| ScanOptions.DefaultAgreesWithUnset | hibernate-core/src/main/java/org/hibernate/boot/archive/scan/internal/StandardScanOptions.java:36-45 | the default options equal those of an absent setting without exclusion |
| ScanOptions.StandardScanOptions.CanDetectUnlistedClassesInRoot | hibernate-core/src/main/java/org/hibernate/boot/archive/scan/internal/StandardScanOptions.java:53-56 | returns its flag |
| ScanOptions.StandardScanOptions.CanDetectUnlistedClassesInNonRoot | hibernate-core/src/main/java/org/hibernate/boot/archive/scan/internal/StandardScanOptions.java:58-61 | returns its flag |
| ScanOptions.StandardScanOptions.CanDetectHibernateMappingFiles | hibernate-core/src/main/java/org/hibernate/boot/archive/scan/internal/StandardScanOptions.java:63-66 | returns its flag |

## Left out

- Integer width: Java `int` arithmetic is not modelled. This covers `offset + length` in the constructor check, `start + offset`, and `sourceOffset + (sourceCount - targetCount)` in the search. Unbounded integers stand in, so overflow-driven wrap-around is not captured.
- InExpressions.InExpression.ToSqlString: requires at least one column. With none, the Java `repeat("?, ", -1)` throws, and the model does not carry that exception.
- CharSequences.CustomCharSequence.CharAt: requires `offset + index` to lie inside the array. The Java array access throws ArrayIndexOutOfBoundsException otherwise, and the model does not carry that exception.
- PropertyExpressions.PropertySql: requires at least as many right-hand columns as left-hand ones. `StringHelper.add` indexes the right array by the left positions and would throw otherwise; the model does not carry that exception.
- InExpressions.InExpression.GetTypedValues: requires every non-null value to decompose into at least one sub-value per subtype. With fewer parts the Java array access throws, and the model does not carry that exception.
- The `values` array of `InExpression` is a sequence. Aliasing with the caller's array is not modelled.
- `EntityMode` is always POJO and is not modelled.
- The `CustomCharSequence(String)` and `CustomCharSequence(String, int, int)` constructors are not modelled. They read String internals through a reflective helper that is not part of this model.
- `appendTo(StringBuilder)` and `appendTo(StringBuffer)` are not modelled. They are plain library appends.
- StringBuilderCache is not modelled. It is a concurrent pool of soft references reclaimed by the garbage collector.
- SequenceInformationExtractorNoOpImpl is not modelled. It is a JDBC-facing no-op.
- `StringHelper` is not part of this model. `join`, `repeat`, `suffix` and `add` take the assumed definitions in `Strings`. `StringHelper.toString(values)` is a parameter of `InExpression.ToString`, so only that method's prefix and suffix are stated.
- `ConditionFragment` is an uninterpreted function.
- Exception message texts are not modelled, only the error kinds. Errors raised by the collaborators themselves are not modelled either: `findColumns`, `getEntityPersister`, `toType` and the cast to `Loadable`.
