/**
 * AbstractEmptinessExpression: constrains a collection property to be empty or not
 * empty with an `exists` / `not exists` subquery on the collection table. Before any
 * SQL is produced the property must resolve to a collection type whose persister is
 * queryable; otherwise a mapping or query error is raised.
 *
 * The two concrete subclasses differ only in `excludeEmpty()`, modelled as a field.
 * The persisters of the session factory become inputs: the resolved property type,
 * the collection-persister lookup by role and the owner's identifier columns.
 * ConditionFragment is an uninterpreted function of alias, owner keys and
 * collection keys.
 */
module EmptinessExpressions {
  import opened Strings
  import opened Builders
  import opened TypedValues

  /** What the owner's property mapping resolves the property to. */
  datatype PropertyType = CollectionType(role: string) | OtherType

  /** What the session factory returns for a collection role: a queryable
      persister, a persister of another kind (the cast fails), or any other failure. */
  datatype PersisterLookup =
    | Queryable(tableName: string, keyColumnNames: seq<string>)
    | NotQueryable
    | LookupFailed

  /** The queryable collection persister, reduced to what the SQL uses. */
  datatype QueryableCollection = QueryableCollection(tableName: string, keyColumnNames: seq<string>)

  /** The exceptions getQueryableCollection raises: a MappingException when the
      property is not a collection, and a QueryException, for a role that is not
      queryable or not found. */
  datatype CriterionError =
    | MappingError
    | RoleNotQueryable(role: string)
    | RoleNotFound(role: string)
  {
    predicate IsQueryError()
    {
      RoleNotQueryable? || RoleNotFound?
    }
  }

  datatype Result<T> = Success(value: T) | Failure(error: CriterionError)

  /** The ConditionFragment `alias.ownerKey = collectionKey and …`, left uninterpreted. */
  type Condition = (string, seq<string>, seq<string>) -> string

  /** getQueryableCollection: the collection persister behind the property, or the
      error that explains why there is none. */
  function GetQueryableCollection(propertyType: PropertyType, persisters: string -> PersisterLookup)
    : (r: Result<QueryableCollection>)
    ensures r == Failure(MappingError) <==> !propertyType.CollectionType?
    ensures propertyType.CollectionType? ==>
      var role := propertyType.role;
      match persisters(role)
      case Queryable(table, keys) => r == Success(QueryableCollection(table, keys))
      case NotQueryable => r == Failure(RoleNotQueryable(role))
      case LookupFailed => r == Failure(RoleNotFound(role))
  {
    if !propertyType.CollectionType? then
      Failure(MappingError)
    else
      var role := propertyType.role;
      match persisters(role)
      case Queryable(table, keys) => Success(QueryableCollection(table, keys))
      case NotQueryable => Failure(RoleNotQueryable(role))
      case LookupFailed => Failure(RoleNotFound(role))
  }

  /** The opening keyword of the subquery test. */
  function ExistsKeyword(excludeEmpty: bool): string
  {
    if excludeEmpty then "exists " else "not exists "
  }

  /** `exists (select 1 from T where C)`, or `not exists (…)`. */
  function EmptinessSql(excludeEmpty: bool, collection: QueryableCollection, sqlAlias: string,
                        ownerKeys: seq<string>, condition: Condition): string
  {
    ExistsKeyword(excludeEmpty) + "(select 1 from " + collection.tableName + " where "
      + condition(sqlAlias, ownerKeys, collection.keyColumnNames) + ")"
  }

  /** The outcome of the builder-taking toSqlString: done, or the error it raised. */
  datatype Outcome = Done | Raised(error: CriterionError)

  class EmptinessExpression {
    const propertyName: string
    /** What the concrete subclass answers to excludeEmpty(): true for
        IsNotEmptyExpression, false for IsEmptyExpression. */
    const excludeEmpty: bool

    constructor (propertyName: string, excludeEmpty: bool)
      ensures this.propertyName == propertyName && this.excludeEmpty == excludeEmpty
    {
      this.propertyName := propertyName;
      this.excludeEmpty := excludeEmpty;
    }

    /** toSqlString(criteria, criteriaQuery, sb): looks up the collection persister and,
        if there is one, appends the subquery test; an error leaves `builder` as it was. */
    method ToSqlString(propertyType: PropertyType, persisters: string -> PersisterLookup,
                       sqlAlias: string, ownerKeys: seq<string>, condition: Condition,
                       builder: Builder)
      returns (outcome: Outcome)
      modifies builder
      ensures var lookup := GetQueryableCollection(propertyType, persisters);
        && (lookup.Failure? ==>
              outcome == Raised(lookup.error) && builder.contents == old(builder.contents))
        && (lookup.Success? ==>
              outcome == Done
              && builder.contents == old(builder.contents)
                 + EmptinessSql(excludeEmpty, lookup.value, sqlAlias, ownerKeys, condition))
    {
      var lookup := GetQueryableCollection(propertyType, persisters);
      if lookup.Failure? {
        return Raised(lookup.error);
      }
      AppendSubquery(lookup.value, sqlAlias, ownerKeys, condition, builder);
      outcome := Done;
    }

    /** The appending half of toSqlString, once the persister is known: the keyword,
        then `(select 1 from `, the table, ` where `, the condition and `)`. */
    method AppendSubquery(collectionPersister: QueryableCollection, sqlAlias: string,
                          ownerKeys: seq<string>, condition: Condition, builder: Builder)
      modifies builder
      ensures builder.contents == old(builder.contents)
        + EmptinessSql(excludeEmpty, collectionPersister, sqlAlias, ownerKeys, condition)
    {
      var collectionKeys := collectionPersister.keyColumnNames;
      ghost var start := builder.contents;
      if excludeEmpty {
        builder.Append("exists ");
      } else {
        builder.Append("not exists ");
      }
      builder.Append("(select 1 from ");
      builder.Append(collectionPersister.tableName);
      builder.Append(" where ");
      builder.Append(condition(sqlAlias, ownerKeys, collectionKeys));
      builder.Append(")");
      Regroup6(start, ExistsKeyword(excludeEmpty), "(select 1 from ", collectionPersister.tableName,
               " where ", condition(sqlAlias, ownerKeys, collectionKeys), ")");
    }

    /** toSqlString(criteria, criteriaQuery): the SQL as a fresh string, or the error. */
    method ToSql(propertyType: PropertyType, persisters: string -> PersisterLookup,
                 sqlAlias: string, ownerKeys: seq<string>, condition: Condition)
      returns (r: Result<string>)
      ensures var lookup := GetQueryableCollection(propertyType, persisters);
        && (lookup.Failure? ==> r == Failure(lookup.error))
        && (lookup.Success? ==>
              r == Success(EmptinessSql(excludeEmpty, lookup.value, sqlAlias, ownerKeys, condition)))
    {
      var sb := new Builder();
      var outcome := ToSqlString(propertyType, persisters, sqlAlias, ownerKeys, condition, sb);
      ghost var lookup := GetQueryableCollection(propertyType, persisters);
      if outcome.Raised? {
        return Failure(outcome.error);
      }
      assert sb.contents == EmptinessSql(excludeEmpty, lookup.value, sqlAlias, ownerKeys, condition);
      r := Success(sb.ToString());
    }

    /** getTypedValues: an emptiness test binds no parameters. */
    function GetTypedValues(): (r: seq<TypedValue>)
      ensures |r| == 0
    {
      []
    }

    /** toString: `property is not empty` or `property is empty`. */
    function ToString(): (r: string)
      ensures |r| >= |propertyName| && r[..|propertyName|] == propertyName
      ensures excludeEmpty ==> r[|propertyName|..] == " is not empty"
      ensures !excludeEmpty ==> r[|propertyName|..] == " is empty"
    {
      propertyName + (if excludeEmpty then " is not empty" else " is empty")
    }
  }

  // ---------------------------------------------------------------------------
  // Properties.

  /** The subquery test opens with `exists ` exactly when empty collections are
      excluded; otherwise it opens with `not exists `. */
  lemma OpensWithExistsIffExcludeEmpty(excludeEmpty: bool, collection: QueryableCollection,
                                       sqlAlias: string, ownerKeys: seq<string>, condition: Condition)
    ensures var s := EmptinessSql(excludeEmpty, collection, sqlAlias, ownerKeys, condition);
      && |s| >= 7
      && (s[..7] == "exists " <==> excludeEmpty)
      && (!excludeEmpty ==> s[..11] == "not exists ")
  {
    var s := EmptinessSql(excludeEmpty, collection, sqlAlias, ownerKeys, condition);
    var k := ExistsKeyword(excludeEmpty);
    assert s == k + ("(select 1 from " + collection.tableName + " where "
      + condition(sqlAlias, ownerKeys, collection.keyColumnNames) + ")");
    assert s[..|k|] == k;
    if !excludeEmpty {
      assert s[..7] == k[..7] == "not exi";
    }
  }

  /** `is empty` is the negation of `is not empty`: the same subquery behind `not `. */
  lemma EmptyNegatesNotEmpty(collection: QueryableCollection, sqlAlias: string,
                             ownerKeys: seq<string>, condition: Condition)
    ensures EmptinessSql(false, collection, sqlAlias, ownerKeys, condition)
         == "not " + EmptinessSql(true, collection, sqlAlias, ownerKeys, condition)
  {
    var rest := "(select 1 from " + collection.tableName + " where "
      + condition(sqlAlias, ownerKeys, collection.keyColumnNames) + ")";
    assert EmptinessSql(false, collection, sqlAlias, ownerKeys, condition) == "not exists " + rest;
    assert EmptinessSql(true, collection, sqlAlias, ownerKeys, condition) == "exists " + rest;
  }

  lemma Regroup6(s: string, a: string, b: string, c: string, d: string, e: string, f: string)
    ensures s + a + b + c + d + e + f == s + (a + b + c + d + e + f)
  {
  }

  /** Errors are classified by kind: a property that is not a collection is a mapping
      error; a collection whose persister cannot be used is a query error naming the
      role. */
  lemma ErrorClassification(propertyType: PropertyType, persisters: string -> PersisterLookup)
    ensures var r := GetQueryableCollection(propertyType, persisters);
      && (r.Failure? && r.error.IsQueryError() ==>
            propertyType.CollectionType? && r.error.role == propertyType.role)
      && (r.Success? <==> propertyType.CollectionType? && persisters(propertyType.role).Queryable?)
  {
  }

  /** The ` is not empty` ending belongs to the excluding subclass only. */
  lemma ToStringIffExcludeEmpty(e: EmptinessExpression)
    ensures var s := e.ToString();
      |s| >= 13 && s[|s| - 13..] == " is not empty" <==> e.excludeEmpty
  {
    var s := e.ToString();
    var p := |e.propertyName|;
    if !e.excludeEmpty && |s| >= 13 {
      assert s[p..] == " is empty";
      assert s[|s| - 13..][4] == s[|s| - 9] == s[p] == ' ';
    }
  }

  /** The text has as many `?` marks as there are bound values: none, when the table
      name and the condition hold none. */
  lemma ParameterCountMatches(e: EmptinessExpression, collection: QueryableCollection,
                              sqlAlias: string, ownerKeys: seq<string>, condition: Condition)
    requires '?' !in collection.tableName
    requires '?' !in condition(sqlAlias, ownerKeys, collection.keyColumnNames)
    ensures CountChar(EmptinessSql(e.excludeEmpty, collection, sqlAlias, ownerKeys, condition), '?')
         == |e.GetTypedValues()|
  {
    var s := EmptinessSql(e.excludeEmpty, collection, sqlAlias, ownerKeys, condition);
    assert '?' !in s;
    CountCharAbsent(s, '?');
  }
}
