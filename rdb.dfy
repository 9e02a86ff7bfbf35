/**
 * The relational-source side, independent of the database product: the
 * table specification of the configuration document, the defaults read
 * from it, and the extraction query built from a table's projection,
 * filter and incremental-cursor predicate.
 */
module Rdb {
  import opened Types
  import opened Text
  import Helper

  /** Rows per fetch when the specification names no batch size. */
  const DEFAULT_BATCH_SIZE: int := 10000

  /** The `cursor` descriptor of an incremental table. */
  datatype CursorSpec = CursorSpec(field: string, operator: string, value: SqlValue)

  /** The `target` descriptor: where the table is written, and how. */
  datatype TargetSpec = TargetSpec(namespace: string, name: Option<string>, accessMode: Option<string>)

  /**
   * One entry of the configuration's `tables` list. The optional keys are
   * `None` when absent from the document.
   */
  datatype TableSpec = TableSpec(
    namespace: string,
    name: string,
    columns: Option<string>,
    filterExp: Option<string>,
    cursor: Option<CursorSpec>,
    batchSize: Option<int>,
    target: TargetSpec)

  /**
   * A schema entry: the select expression for a column and its source type
   * (empty until the schema is resolved against the catalog).
   */
  datatype Column = Column(expr: string, sourceType: string)

  function Exprs(schema: seq<Column>): (r: seq<string>)
    ensures |r| == |schema| && forall i :: 0 <= i < |r| ==> r[i] == schema[i].expr
  {
    seq(|schema|, i requires 0 <= i < |schema| => schema[i].expr)
  }

  /**
   * The schema before resolution: the comma-separated `columns` text cut
   * into stripped names with no type, or the single wildcard `*`.
   */
  function InitialSchema(columns: Option<string>): (s: seq<Column>)
    ensures columns.None? ==> s == [Column("*", "")]
    ensures columns.Some? ==> |s| == |Split(columns.value, ',')|
    ensures columns.Some? ==>
      forall i :: 0 <= i < |s| ==> s[i] == Column(Strip(Split(columns.value, ',')[i]), "")
  {
    match columns
    case None => [Column("*", "")]
    case Some(text) =>
      var parts := Split(text, ',');
      seq(|parts|, i requires 0 <= i < |parts| => Column(Strip(parts[i]), ""))
  }

  /** A list of plain column names written as `columns` comes back as that list. */
  lemma ColumnListRoundTrip(names: seq<string>)
    requires |names| >= 1
    requires forall i :: 0 <= i < |names| ==> ',' !in names[i] && Strip(names[i]) == names[i]
    ensures Exprs(InitialSchema(Some(Join(names, [','])))) == names
  {
    SplitJoin(names, ',');
  }

  /** The filter expression: the stripped `filter_exp`, or empty when absent. */
  function InitialFilter(filterExp: Option<string>): (r: string)
    ensures filterExp.None? ==> r == ""
    ensures filterExp.Some? ==> r == Strip(filterExp.value)
  {
    match filterExp
    case None => ""
    case Some(f) => Strip(f)
  }

  /** `batch_size`: the specification's value, else the default. */
  function SpecBatchSize(spec: TableSpec): (n: int)
    ensures spec.batchSize.Some? ==> n == spec.batchSize.value
    ensures spec.batchSize.None? ==> n == DEFAULT_BATCH_SIZE
  {
    spec.batchSize.GetOr(DEFAULT_BATCH_SIZE)
  }

  /** A table is incremental exactly when its specification has a `cursor` key. */
  predicate IsIncremental(spec: TableSpec) {
    spec.cursor.Some?
  }

  /** The destination table's name: the target's `name`, else the source table's name. */
  function TargetName(target: TargetSpec, sourceName: string): (r: string)
    ensures target.name.Some? ==> r == target.name.value
    ensures target.name.None? ==> r == sourceName
  {
    target.name.GetOr(sourceName)
  }

  /** The destination access mode: parsed from the target's `access_mode`, else OVERWRITE. */
  function TargetAccessMode(target: TargetSpec): (r: Result<Helper.AccessMode, Error>)
    ensures target.accessMode.None? ==> r == Success(Helper.OVERWRITE)
    ensures target.accessMode.Some? ==> r == Helper.AccessModeFromString(target.accessMode.value)
  {
    match target.accessMode
    case None => Success(Helper.OVERWRITE)
    case Some(text) => Helper.AccessModeFromString(text)
  }

  /** The projection and source of the extraction query, before any `WHERE`. */
  function SelectFrom(namespace: string, name: string, schema: seq<Column>): string {
    "SELECT " + Join(Exprs(schema), ", ") + " FROM " + namespace + "." + name
  }

  const MissingCursorError: Error := ValueError("Incremental loading table with no cursor expression.")

  /**
   * The `query` property: the select statement with the filter in
   * parentheses after `WHERE`, and for an incremental table the cursor
   * predicate in parentheses after `WHERE` or `AND`. An incremental table
   * without a cursor expression is refused.
   */
  function BuildQuery(namespace: string, name: string, schema: seq<Column>, filterExp: string,
                      incremental: bool, cursorExp: string): (r: Result<string, Error>)
    ensures r.Failure? <==> incremental && cursorExp == ""
    ensures r.Failure? ==> r.error == MissingCursorError
    ensures r.Success? ==> StartsWith(r.value, SelectFrom(namespace, name, schema))
  {
    var base := SelectFrom(namespace, name, schema);
    var filtered := if filterExp != "" then base + " WHERE (" + filterExp + ")" else base;
    if !incremental then Success(filtered)
    else if cursorExp == "" then Failure(MissingCursorError)
    else if filterExp != "" then Success(filtered + " AND (" + cursorExp + ")")
    else Success(filtered + " WHERE (" + cursorExp + ")")
  }

  /**
   * The four shapes of the predicate: none, the filter alone, the cursor
   * alone, the filter and then the cursor.
   */
  lemma QueryPredicate(namespace: string, name: string, schema: seq<Column>, filterExp: string,
                       incremental: bool, cursorExp: string)
    requires !incremental || cursorExp != ""
    ensures var q := BuildQuery(namespace, name, schema, filterExp, incremental, cursorExp).value;
            var base := SelectFrom(namespace, name, schema);
            && (!incremental && filterExp == "" ==> q == base)
            && (!incremental && filterExp != "" ==> q == base + " WHERE (" + filterExp + ")")
            && (incremental && filterExp == "" ==> q == base + " WHERE (" + cursorExp + ")")
            && (incremental && filterExp != "" ==>
                  q == base + " WHERE (" + filterExp + ") AND (" + cursorExp + ")")
  {
  }

  /** One condition of a `WHERE` clause, written with or without parentheses. */
  datatype Conjunct = Conjunct(text: string, parenthesised: bool)

  function ConjunctText(c: Conjunct): string {
    if c.parenthesised then "(" + c.text + ")" else c.text
  }

  function ConjunctTexts(cs: seq<Conjunct>): seq<string> {
    seq(|cs|, i requires 0 <= i < |cs| => ConjunctText(cs[i]))
  }

  /** ` WHERE ` and the conditions joined by ` AND `, or nothing when there are none. */
  function WhereClause(cs: seq<Conjunct>): string {
    if cs == [] then "" else " WHERE " + Join(ConjunctTexts(cs), " AND ")
  }

  /** The conditions themselves, however they are written and in whatever order. */
  function Predicates(cs: seq<Conjunct>): multiset<string> {
    multiset(seq(|cs|, i requires 0 <= i < |cs| => cs[i].text))
  }

  /** The conditions of the extraction query: the filter, then the cursor predicate, both in parentheses. */
  function QueryConjuncts(filterExp: string, incremental: bool, cursorExp: string): seq<Conjunct> {
    (if filterExp != "" then [Conjunct(filterExp, true)] else [])
    + (if incremental then [Conjunct(cursorExp, true)] else [])
  }

  /** A query that can be built is the projection followed by the `WHERE` clause of its conditions. */
  lemma QueryWhere(namespace: string, name: string, schema: seq<Column>, filterExp: string,
                   incremental: bool, cursorExp: string)
    requires !incremental || cursorExp != ""
    ensures BuildQuery(namespace, name, schema, filterExp, incremental, cursorExp)
         == Success(SelectFrom(namespace, name, schema) + WhereClause(QueryConjuncts(filterExp, incremental, cursorExp)))
  {
    QueryPredicate(namespace, name, schema, filterExp, incremental, cursorExp);
    var base := SelectFrom(namespace, name, schema);
    var cs := QueryConjuncts(filterExp, incremental, cursorExp);
    var texts := ConjunctTexts(cs);
    if filterExp != "" && incremental {
      assert cs == [Conjunct(filterExp, true), Conjunct(cursorExp, true)];
      assert texts == ["(" + filterExp + ")", "(" + cursorExp + ")"];
      assert texts[1..] == ["(" + cursorExp + ")"];
      assert Join(texts, " AND ") == ("(" + filterExp + ")") + " AND " + ("(" + cursorExp + ")");
      TwoConditionsText(base, filterExp, cursorExp);
    } else if filterExp != "" {
      assert cs == [Conjunct(filterExp, true)];
      assert texts == ["(" + filterExp + ")"];
      OneConditionText(base, filterExp);
    } else if incremental {
      assert cs == [Conjunct(cursorExp, true)];
      assert texts == ["(" + cursorExp + ")"];
      OneConditionText(base, cursorExp);
    } else {
      assert cs == [];
      assert base + "" == base;
    }
  }

  lemma OneConditionText(base: string, c: string)
    ensures base + " WHERE (" + c + ")" == base + (" WHERE " + ("(" + c + ")"))
  {
    assert " WHERE (" == " WHERE " + "(";
  }

  lemma TwoConditionsText(base: string, f: string, c: string)
    ensures base + " WHERE (" + f + ")" + " AND (" + c + ")"
         == base + (" WHERE " + (("(" + f + ")") + " AND " + ("(" + c + ")")))
  {
    assert " WHERE (" == " WHERE " + "(";
    assert " AND (" == " AND " + "(";
  }

  /** A full (non-incremental) query does not depend on the cursor expression. */
  lemma FullQueryIgnoresCursor(namespace: string, name: string, schema: seq<Column>,
                               filterExp: string, c1: string, c2: string)
    ensures BuildQuery(namespace, name, schema, filterExp, false, c1)
         == BuildQuery(namespace, name, schema, filterExp, false, c2)
  {
  }

  /** The relational source of a configuration document. */
  class RDBSource {
    var host: string
    var port: int
    const database: string
    const user: string
    const password: string
    /** The `tables` list of the configuration, shared with every table that reads it. */
    var tables: seq<TableSpec>

    constructor (host: string, port: int, database: string, user: string, password: string,
                 tables: seq<TableSpec>)
      ensures this.host == host && this.port == port && this.database == database
      ensures this.user == user && this.password == password && this.tables == tables
    {
      this.host := host;
      this.port := port;
      this.database := database;
      this.user := user;
      this.password := password;
      this.tables := tables;
    }

    /** `host:port/database`, from which the port can be read back. */
    function Name(): (r: string)
      reads this
      ensures StartsWith(r, host + ":") && EndsWith(r, "/" + database)
      ensures |host| + 1 < |r| - |database|
      ensures var digits := r[|host| + 1 .. |r| - |database| - 1];
              IsDecimal(digits) && ParseDecimal(digits) == port
    {
      NameParts(host, port, database);
      host + ":" + DecimalString(port) + "/" + database
    }
  }

  /** `host:port/database` splits back into the host, the port and the database. */
  lemma NameParts(host: string, port: int, database: string)
    ensures var r := host + ":" + DecimalString(port) + "/" + database;
            && StartsWith(r, host + ":") && EndsWith(r, "/" + database)
            && |host| + 1 < |r| - |database|
            && var digits := r[|host| + 1 .. |r| - |database| - 1];
               IsDecimal(digits) && ParseDecimal(digits) == port
  {
    var digits := DecimalString(port);
    var r := host + ":" + digits + "/" + database;
    assert r == (host + ":") + digits + ("/" + database);
    assert r[..|host| + 1] == host + ":";
    assert r[|r| - |database| - 1..] == "/" + database;
    assert r[|host| + 1 .. |r| - |database| - 1] == digits;
    DecimalStringRoundTrip(port);
  }

  /** A table of a relational source, as read from its specification. */
  class RDBTable {
    const namespace: string
    const name: string
    /** The specification entry; the reader writes the advanced cursor value back into it. */
    var spec: TableSpec
    var schema: seq<Column>
    var filterExp: string
    var cursorExp: string

    constructor (spec: TableSpec)
      ensures namespace == Strip(spec.namespace) && name == Strip(spec.name)
      ensures this.spec == spec
      ensures schema == InitialSchema(spec.columns)
      ensures filterExp == InitialFilter(spec.filterExp)
      ensures cursorExp == ""
    {
      namespace := Strip(spec.namespace);
      name := Strip(spec.name);
      this.spec := spec;
      schema := InitialSchema(spec.columns);
      filterExp := InitialFilter(spec.filterExp);
      cursorExp := "";
    }

    function BatchSize(): int
      reads this
    {
      SpecBatchSize(spec)
    }

    function Query(): Result<string, Error>
      reads this
    {
      BuildQuery(namespace, name, schema, filterExp, IsIncremental(spec), cursorExp)
    }

    /**
     * The `target` property: a new destination table in the target's
     * namespace, named after the target or else after this table, with the
     * parsed access mode (OVERWRITE when none is given).
     */
    method Target() returns (r: Result<Helper.Table, Error>)
      ensures r.Failure? <==> TargetAccessMode(spec.target).Failure?
      ensures r.Failure? ==> r == Failure(TargetAccessMode(spec.target).error)
      ensures r.Success? ==> fresh(r.value)
      ensures r.Success? ==> r.value.namespace == spec.target.namespace
      ensures r.Success? ==> r.value.name == TargetName(spec.target, name)
      ensures r.Success? ==> TargetAccessMode(spec.target) == Success(r.value.accessMode)
      ensures r.Success? ==> r.value.columns == []
    {
      var mode := TargetAccessMode(spec.target);
      if mode.Failure? {
        return Failure(mode.error);
      }
      var t := new Helper.Table(spec.target.namespace, TargetName(spec.target, name), mode.value);
      return Success(t);
    }
  }
}
