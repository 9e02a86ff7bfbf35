/**
 * The PostgreSQL reader: quoting of identifiers, the mapping from a
 * catalog type (`udt_name`) to an Arrow type and a rewritten select
 * expression, the resolution of a table's schema from the catalog rows,
 * the incremental-cursor predicate, the pre-scan count query, and the
 * fetch loop that cuts the result into batches.
 *
 * The database is not modelled: the rows the catalog query returns, the
 * answer of the count query and the rows of the extraction query are
 * inputs, and the fetch at which the driver raises (if any) is a parameter.
 */
module Postgres {
  import opened Types
  import opened Text
  import opened Rdb

  /**
   * The characters that force an identifier to be quoted: the space and
   * the ASCII punctuation except `-` and `_`.
   */
  predicate IsSpecialCharacter(c: char) {
    || (' ' <= c <= '/' && c != '-') || (':' <= c <= '@') || ('[' <= c <= '`' && c != '_') || ('{' <= c <= '~')
  }

  const SpecialCharacters: set<char> := set c: char | ' ' <= c <= '~' && IsSpecialCharacter(c)

  /** The set, character by character, as the reader writes it. */
  lemma SpecialCharactersListed()
    ensures SpecialCharacters == {
      ' ', '!', '"', '#', '$', '%', '&', '\'', '(', ')', '*', '+', ',', '.', '/', ':', ';',
      '<', '=', '>', '?', '@', '[', '\\', ']', '^', '`', '{', '|', '}', '~'
    }
  {
    var listed: set<char> := {
      ' ', '!', '"', '#', '$', '%', '&', '\'', '(', ')', '*', '+', ',', '.', '/', ':', ';',
      '<', '=', '>', '?', '@', '[', '\\', ']', '^', '`', '{', '|', '}', '~'
    };
    forall c | c in SpecialCharacters ensures c in listed {
      assert ' ' <= c <= '~';
    }
  }

  predicate NeedsQuoting(column: string, reservedKeywords: set<string>, specialCharacters: set<char>) {
    Lower(column) in reservedKeywords || exists i :: 0 <= i < |column| && column[i] in specialCharacters
  }

  /**
   * `escape_column_name`: the name in double quotes when its lower-case
   * form is a reserved word or it holds a special character, else the name
   * itself. Embedded double quotes are not doubled.
   */
  function EscapeColumnName(column: string, reservedKeywords: set<string>, specialCharacters: set<char>): (r: string)
    ensures NeedsQuoting(column, reservedKeywords, specialCharacters) ==> r == "\"" + column + "\""
    ensures !NeedsQuoting(column, reservedKeywords, specialCharacters) ==> r == column
  {
    if NeedsQuoting(column, reservedKeywords, specialCharacters) then "\"" + column + "\"" else column
  }

  /**
   * Escaping is not idempotent: once a name has been quoted, its quotes are
   * special characters, so escaping it again quotes it a second time.
   */
  lemma EscapeNotIdempotent(column: string, reservedKeywords: set<string>, specialCharacters: set<char>)
    requires '"' in specialCharacters
    requires NeedsQuoting(column, reservedKeywords, specialCharacters)
    ensures var once := EscapeColumnName(column, reservedKeywords, specialCharacters);
            EscapeColumnName(once, reservedKeywords, specialCharacters) == "\"" + once + "\""
            && EscapeColumnName(once, reservedKeywords, specialCharacters) != once
  {
    var once := EscapeColumnName(column, reservedKeywords, specialCharacters);
    assert once[0] == '"';
    assert NeedsQuoting(once, reservedKeywords, specialCharacters);
  }

  /** A name that needs no quoting is left alone however often it is escaped. */
  lemma EscapePlainIsStable(column: string, reservedKeywords: set<string>, specialCharacters: set<char>)
    requires !NeedsQuoting(column, reservedKeywords, specialCharacters)
    ensures EscapeColumnName(EscapeColumnName(column, reservedKeywords, specialCharacters),
                             reservedKeywords, specialCharacters) == column
  {
  }

  /**
   * With the reader's special characters: a reserved word is quoted in any
   * case, a plain snake-case name is not, a name with a space is, and an
   * embedded double quote is kept as it is inside the quotes.
   */
  lemma EscapeExamples(reservedKeywords: set<string>)
    requires "select" in reservedKeywords && "order_id" !in reservedKeywords
    ensures EscapeColumnName("SELECT", reservedKeywords, SpecialCharacters) == "\"SELECT\""
    ensures EscapeColumnName("order_id", reservedKeywords, SpecialCharacters) == "order_id"
    ensures EscapeColumnName("unit price", reservedKeywords, SpecialCharacters) == "\"unit price\""
    ensures EscapeColumnName("a\"b", reservedKeywords, SpecialCharacters) == "\"a\"b\""
  {
    assert Lower("SELECT") == "select";
    assert Lower("order_id") == "order_id";
    assert "unit price"[4] in SpecialCharacters;
    assert "a\"b"[1] in SpecialCharacters;
    var plain := "order_id";
    forall i | 0 <= i < |plain| ensures plain[i] !in SpecialCharacters {
      assert plain[i] in {'o', 'r', 'd', 'e', '_', 'i'};
    }
  }

  /** One row of `information_schema.columns` for the table. */
  datatype CatalogRow = CatalogRow(
    columnName: string,
    udtName: string,
    numericPrecision: Option<int>,
    numericScale: Option<int>,
    datetimePrecision: Option<int>)

  /** The select expression, the Arrow type, and whether the type was unsupported (a warning). */
  datatype ColumnMapping = ColumnMapping(expr: string, arrowType: ArrowType, warning: bool)

  const TextCastTypes: set<string> := {"bit", "varbit", "bytea", "uuid", "json", "jsonb", "xml"}
  const ToCharTypes: set<string> := {"time", "timez", "timestamp", "timestampz"}
  /** Every type name with a rule of its own, besides those of the mapping table. */
  const RecognisedTypes: set<string> := TextCastTypes + ToCharTypes + {"money", "numeric", "date", "interval"}

  /** What `int(None)` raises for a numeric column whose precision or scale is NULL. */
  const MissingPrecisionError: Error :=
    TypeError("int() argument must be a string, a bytes-like object or a real number, not 'NoneType'")

  /** A select expression renamed back to the column: `expr as column`. */
  function Aliased(expr: string, column: string): (r: string)
    ensures EndsWith(r, " as " + column)
  {
    var r := expr + " as " + column;
    assert r == expr + (" as " + column);
    r
  }

  function TextCast(e: string): string {
    Aliased(e + "::text", e)
  }

  /**
   * The type rule for one catalog row, in priority order: the mapping
   * table, the text-cast family, money, numeric, date, the four time
   * names, interval, and the lossy text fallback with a warning.
   */
  function MapColumn(escaped: string, row: CatalogRow, dtMappings: map<string, string>): Result<ColumnMapping, Error> {
    var t := row.udtName;
    if t in dtMappings then Success(ColumnMapping(escaped, ArrowNamed(dtMappings[t]), false))
    else if t in TextCastTypes then Success(ColumnMapping(TextCast(escaped), StringType, false))
    else if t == "money" then
      Success(ColumnMapping(Aliased(escaped + "::numeric(21,4)", escaped), Decimal128(21, 4), false))
    else if t == "numeric" then
      if row.numericPrecision.None? || row.numericScale.None? then Failure(MissingPrecisionError)
      else Success(ColumnMapping(escaped, Decimal128(row.numericPrecision.value, row.numericScale.value), false))
    else if t == "date" then
      Success(ColumnMapping(Aliased("tochar(" + escaped + ", 'YYYY-MM-DD')::text", escaped), StringType, false))
    else if t in ToCharTypes then
      Success(ColumnMapping(Aliased("to_char(" + escaped + ", 'YYYY-MM-DD HH24:MI:SS.US')", escaped), StringType, false))
    else if t == "interval" then Success(ColumnMapping(TextCast(escaped), StringType, false))
    else Success(ColumnMapping(TextCast(escaped), StringType, true))
  }

  /**
   * Only a numeric column without precision or scale fails to map; every
   * mapped expression is the escaped name or ends with `as` and that name;
   * a warning is logged exactly for an unrecognised type; and every type
   * but money and numeric that the mapping table does not name becomes a
   * string.
   */
  lemma MapColumnSpec(escaped: string, row: CatalogRow, dtMappings: map<string, string>)
    ensures var r := MapColumn(escaped, row, dtMappings);
      && (r.Failure? <==>
            row.udtName !in dtMappings && row.udtName == "numeric"
            && (row.numericPrecision.None? || row.numericScale.None?))
      && (r.Failure? ==> r.error == MissingPrecisionError)
      && (row.udtName in dtMappings ==>
            r == Success(ColumnMapping(escaped, ArrowNamed(dtMappings[row.udtName]), false)))
      && (r.Success? ==> r.value.expr == escaped || EndsWith(r.value.expr, " as " + escaped))
      && (r.Success? ==> (r.value.warning <==> row.udtName !in dtMappings && row.udtName !in RecognisedTypes))
      && (r.Success? && row.udtName !in dtMappings && row.udtName !in {"money", "numeric"} ==>
            r.value.arrowType == StringType)
  {
  }

  /**
   * The rewrite each rule applies: a type the mapping table names keeps its
   * escaped name and takes the named Arrow type, whatever its family; every
   * other type is rewritten by its family's rule.
   */
  lemma MapColumnRules(escaped: string, row: CatalogRow, dtMappings: map<string, string>)
    ensures var t := row.udtName;
            var r := MapColumn(escaped, row, dtMappings);
            && (t in dtMappings ==> r == Success(ColumnMapping(escaped, ArrowNamed(dtMappings[t]), false)))
            && (t !in dtMappings && (t in TextCastTypes || t == "interval") ==>
                  r == Success(ColumnMapping(Aliased(escaped + "::text", escaped), StringType, false)))
            && (t !in dtMappings && t == "money" ==>
                  r == Success(ColumnMapping(Aliased(escaped + "::numeric(21,4)", escaped), Decimal128(21, 4), false)))
            && (t !in dtMappings && t == "numeric" && row.numericPrecision.Some? && row.numericScale.Some? ==>
                  r == Success(ColumnMapping(escaped, Decimal128(row.numericPrecision.value, row.numericScale.value), false)))
            && (t !in dtMappings && t == "date" ==>
                  r == Success(ColumnMapping(Aliased("tochar(" + escaped + ", 'YYYY-MM-DD')::text", escaped), StringType, false)))
            && (t !in dtMappings && t in ToCharTypes ==>
                  r == Success(ColumnMapping(Aliased("to_char(" + escaped + ", 'YYYY-MM-DD HH24:MI:SS.US')", escaped), StringType, false)))
            && (t !in dtMappings && t !in RecognisedTypes ==>
                  r == Success(ColumnMapping(Aliased(escaped + "::text", escaped), StringType, true)))
  {
  }

  /**
   * The catalog's real names for time with zone and timestamp with zone are
   * not among the four time names, so they fall through to the text cast
   * with a warning.
   */
  lemma ZonedTimesFallThrough(escaped: string, row: CatalogRow, dtMappings: map<string, string>)
    requires row.udtName in {"timestamptz", "timetz"} && row.udtName !in dtMappings
    ensures MapColumn(escaped, row, dtMappings) == Success(ColumnMapping(TextCast(escaped), StringType, true))
  {
  }

  /** The mapping of one catalog row, after its name is escaped. */
  function MapRow(row: CatalogRow, reservedKeywords: set<string>, specialCharacters: set<char>,
                  dtMappings: map<string, string>): Result<ColumnMapping, Error>
  {
    MapColumn(EscapeColumnName(row.columnName, reservedKeywords, specialCharacters), row, dtMappings)
  }

  /** The resolved schema and the Arrow fields of a table. */
  datatype Resolved = Resolved(schema: seq<Column>, fields: Schema)

  /** The mapping of every catalog row, in catalog order. */
  function Mappings(rows: seq<CatalogRow>, reservedKeywords: set<string>, specialCharacters: set<char>,
                    dtMappings: map<string, string>): (ms: seq<Result<ColumnMapping, Error>>)
    ensures |ms| == |rows|
    ensures forall i :: 0 <= i < |rows| ==> ms[i] == MapRow(rows[i], reservedKeywords, specialCharacters, dtMappings)
  {
    seq(|rows|, i requires 0 <= i < |rows| => MapRow(rows[i], reservedKeywords, specialCharacters, dtMappings))
  }

  /**
   * The accumulation of `update_table_spec` over the rows and their
   * mappings: the first mapping that raises makes the whole resolution raise.
   */
  function Assemble(rows: seq<CatalogRow>, ms: seq<Result<ColumnMapping, Error>>): Result<Resolved, Error>
    requires |ms| == |rows|
    decreases |rows|
  {
    if rows == [] then Success(Resolved([], []))
    else
      var n := |rows| - 1;
      var prefix := Assemble(rows[..n], ms[..n]);
      if prefix.Failure? then prefix
      else if ms[n].Failure? then Failure(ms[n].error)
      else Success(Resolved(prefix.value.schema + [Column(ms[n].value.expr, rows[n].udtName)],
                            prefix.value.fields + [ArrowField(rows[n].columnName, ms[n].value.arrowType)]))
  }

  /** The schema resolution of `update_table_spec`. */
  function ResolveColumns(rows: seq<CatalogRow>, reservedKeywords: set<string>, specialCharacters: set<char>,
                          dtMappings: map<string, string>): Result<Resolved, Error>
  {
    Assemble(rows, Mappings(rows, reservedKeywords, specialCharacters, dtMappings))
  }

  lemma {:induction false} AssembleSucceeds(rows: seq<CatalogRow>, ms: seq<Result<ColumnMapping, Error>>)
    requires |ms| == |rows|
    ensures Assemble(rows, ms).Success? <==> forall i :: 0 <= i < |ms| ==> ms[i].Success?
    ensures Assemble(rows, ms).Failure? ==> exists i :: 0 <= i < |ms| && ms[i] == Failure(Assemble(rows, ms).error)
    decreases |rows|
  {
    if rows != [] {
      var n := |rows| - 1;
      AssembleSucceeds(rows[..n], ms[..n]);
      var pr := Assemble(rows[..n], ms[..n]);
      if pr.Failure? {
        var j :| 0 <= j < n && ms[..n][j] == Failure(pr.error);
        assert ms[j] == ms[..n][j];
      } else {
        assert forall i :: 0 <= i < n ==> ms[..n][i] == ms[i];
      }
    }
  }

  lemma {:induction false} AssembleEntries(rows: seq<CatalogRow>, ms: seq<Result<ColumnMapping, Error>>)
    requires |ms| == |rows| && Assemble(rows, ms).Success?
    ensures var r := Assemble(rows, ms).value;
      && |r.schema| == |rows| && |r.fields| == |rows|
      && forall i :: 0 <= i < |rows| ==>
           ms[i].Success? && r.schema[i] == Column(ms[i].value.expr, rows[i].udtName)
           && r.fields[i] == ArrowField(rows[i].columnName, ms[i].value.arrowType)
    decreases |rows|
  {
    if rows != [] {
      var n := |rows| - 1;
      AssembleEntries(rows[..n], ms[..n]);
      assert forall i :: 0 <= i < n ==> ms[..n][i] == ms[i] && rows[..n][i] == rows[i];
    }
  }

  /** The first mapping that raises is the error of the whole resolution. */
  lemma {:induction false} AssembleFirstFailure(rows: seq<CatalogRow>, ms: seq<Result<ColumnMapping, Error>>, i: nat)
    requires |ms| == |rows| && i < |rows|
    requires Assemble(rows[..i], ms[..i]).Success? && ms[i].Failure?
    ensures Assemble(rows, ms) == Failure(ms[i].error)
    decreases |rows|
  {
    var n := |rows| - 1;
    if n > i {
      assert rows[..n][..i] == rows[..i] && ms[..n][..i] == ms[..i] && ms[..n][i] == ms[i];
      AssembleFirstFailure(rows[..n], ms[..n], i);
    }
  }

  /** One more row that maps extends a resolution by its column and its field. */
  lemma AssembleSnoc(rows: seq<CatalogRow>, ms: seq<Result<ColumnMapping, Error>>, i: nat)
    requires |ms| == |rows| && i < |rows|
    requires Assemble(rows[..i], ms[..i]).Success? && ms[i].Success?
    ensures var prev := Assemble(rows[..i], ms[..i]).value;
            Assemble(rows[..i + 1], ms[..i + 1])
            == Success(Resolved(prev.schema + [Column(ms[i].value.expr, rows[i].udtName)],
                                prev.fields + [ArrowField(rows[i].columnName, ms[i].value.arrowType)]))
  {
    assert rows[..i + 1][..i] == rows[..i] && ms[..i + 1][..i] == ms[..i];
  }

  /**
   * One row of the column loop: when its mapping raises, so does the whole
   * resolution; otherwise the resolution of the rows so far grows by its
   * column and its field.
   */
  lemma ResolveStep(rows: seq<CatalogRow>, reservedKeywords: set<string>, specialCharacters: set<char>,
                    dtMappings: map<string, string>, i: nat, done: Resolved)
    requires i < |rows|
    requires var ms := Mappings(rows, reservedKeywords, specialCharacters, dtMappings);
             Assemble(rows[..i], ms[..i]) == Success(done)
    ensures var ms := Mappings(rows, reservedKeywords, specialCharacters, dtMappings);
            var m := MapRow(rows[i], reservedKeywords, specialCharacters, dtMappings);
            && (m.Failure? ==> ResolveColumns(rows, reservedKeywords, specialCharacters, dtMappings) == Failure(m.error))
            && (m.Success? ==>
                  Assemble(rows[..i + 1], ms[..i + 1])
                  == Success(Resolved(done.schema + [Column(m.value.expr, rows[i].udtName)],
                                      done.fields + [ArrowField(rows[i].columnName, m.value.arrowType)])))
  {
    var ms := Mappings(rows, reservedKeywords, specialCharacters, dtMappings);
    if ms[i].Failure? {
      AssembleFirstFailure(rows, ms, i);
    } else {
      AssembleSnoc(rows, ms, i);
    }
  }

  /**
   * The column loop of `update_table_spec`: the catalog rows are escaped
   * and mapped in order, and the first mapping that raises ends the loop.
   */
  method ResolveSchema(rows: seq<CatalogRow>, reservedKeywords: set<string>, specialCharacters: set<char>,
                       dtMappings: map<string, string>) returns (r: Result<Resolved, Error>)
    ensures r == ResolveColumns(rows, reservedKeywords, specialCharacters, dtMappings)
  {
    ghost var ms := Mappings(rows, reservedKeywords, specialCharacters, dtMappings);
    var pgSchema: seq<Column> := [];
    var paFields: Schema := [];
    var i := 0;
    while i < |rows|
      invariant 0 <= i <= |rows|
      invariant Assemble(rows[..i], ms[..i]) == Success(Resolved(pgSchema, paFields))
    {
      var row := rows[i];
      var columnName := EscapeColumnName(row.columnName, reservedKeywords, specialCharacters);
      var mapped := MapColumn(columnName, row, dtMappings);
      ResolveStep(rows, reservedKeywords, specialCharacters, dtMappings, i, Resolved(pgSchema, paFields));
      if mapped.Failure? {
        return Failure(mapped.error);
      }
      pgSchema := pgSchema + [Column(mapped.value.expr, row.udtName)];
      paFields := paFields + [ArrowField(row.columnName, mapped.value.arrowType)];
      i := i + 1;
    }
    assert rows[..i] == rows && ms[..i] == ms;
    return Success(Resolved(pgSchema, paFields));
  }

  /**
   * Resolution succeeds iff every row maps, and only a numeric column
   * without precision or scale makes it fail.
   */
  lemma ResolveColumnsSucceeds(rows: seq<CatalogRow>, reservedKeywords: set<string>,
                               specialCharacters: set<char>, dtMappings: map<string, string>)
    ensures var r := ResolveColumns(rows, reservedKeywords, specialCharacters, dtMappings);
      && (r.Success? <==>
            forall i :: 0 <= i < |rows| ==> MapRow(rows[i], reservedKeywords, specialCharacters, dtMappings).Success?)
      && (r.Failure? ==> r.error == MissingPrecisionError)
  {
    var ms := Mappings(rows, reservedKeywords, specialCharacters, dtMappings);
    AssembleSucceeds(rows, ms);
    var r := Assemble(rows, ms);
    if r.Failure? {
      var i :| 0 <= i < |ms| && ms[i] == Failure(r.error);
      MapColumnSpec(EscapeColumnName(rows[i].columnName, reservedKeywords, specialCharacters), rows[i], dtMappings);
    }
  }

  /**
   * A resolution has one entry per catalog row, in catalog order: the
   * schema pairs the rewritten expression with the catalog type, the Arrow
   * field keeps the raw, unescaped name.
   */
  lemma ResolveColumnsEntries(rows: seq<CatalogRow>, reservedKeywords: set<string>,
                              specialCharacters: set<char>, dtMappings: map<string, string>)
    requires ResolveColumns(rows, reservedKeywords, specialCharacters, dtMappings).Success?
    ensures var r := ResolveColumns(rows, reservedKeywords, specialCharacters, dtMappings).value;
      && |r.schema| == |rows| && |r.fields| == |rows|
      && forall i :: 0 <= i < |rows| ==>
           var m := MapRow(rows[i], reservedKeywords, specialCharacters, dtMappings);
           m.Success? && r.schema[i] == Column(m.value.expr, rows[i].udtName)
           && r.fields[i] == ArrowField(rows[i].columnName, m.value.arrowType)
  {
    var ms := Mappings(rows, reservedKeywords, specialCharacters, dtMappings);
    AssembleEntries(rows, ms);
  }

  predicate HasWildcard(schema: seq<Column>) {
    exists i :: 0 <= i < |schema| && schema[i].expr == "*"
  }

  function QuotedNames(schema: seq<Column>): (r: seq<string>)
    ensures |r| == |schema| && forall i :: 0 <= i < |r| ==> r[i] == "'" + schema[i].expr + "'"
  {
    seq(|schema|, i requires 0 <= i < |schema| => "'" + schema[i].expr + "'")
  }

  function CatalogSelect(namespace: string, name: string): string {
    "SELECT column_name, udt_name, numeric_precision, numeric_scale, datetime_precision "
    + "FROM information_schema.columns "
    + "WHERE table_schema = '" + namespace + "' AND table_name = '" + name + "'"
  }

  /**
   * The catalog query for the table's columns, with the layout white space
   * collapsed: all columns when the schema holds the wildcard, else only
   * the named ones; in both cases in the table's column order.
   */
  function CatalogQuery(namespace: string, name: string, schema: seq<Column>): (r: string)
    ensures HasWildcard(schema) ==> r == CatalogSelect(namespace, name) + " ORDER BY ordinal_position"
    ensures !HasWildcard(schema) ==>
      r == CatalogSelect(namespace, name) + " AND column_name IN (" + Join(QuotedNames(schema), ", ")
           + ") ORDER BY ordinal_position"
  {
    if HasWildcard(schema) then CatalogSelect(namespace, name) + " ORDER BY ordinal_position"
    else CatalogSelect(namespace, name) + " AND column_name IN (" + Join(QuotedNames(schema), ", ")
         + ") ORDER BY ordinal_position"
  }

  /**
   * Without the wildcard the catalog query asks for exactly the schema's
   * column names, quoted, in schema order: the text between `IN (` and the
   * closing parenthesis splits at the commas into one quoted name per column
   * (each after the first preceded by the space of the `", "` join).
   */
  lemma CatalogColumnList(namespace: string, name: string, schema: seq<Column>)
    requires !HasWildcard(schema)
    requires forall i :: 0 <= i < |schema| ==> ',' !in schema[i].expr
    ensures |schema| == 0 ==> Join(QuotedNames(schema), ", ") == ""
    ensures |schema| > 0 ==>
      var pieces := Split(Join(QuotedNames(schema), ", "), ',');
      |pieces| == |schema|
      && forall i :: 0 <= i < |schema| ==> pieces[i] == (if i == 0 then "" else " ") + "'" + schema[i].expr + "'"
    ensures CatalogQuery(namespace, name, schema)
         == CatalogSelect(namespace, name) + " AND column_name IN (" + Join(QuotedNames(schema), ", ")
            + ") ORDER BY ordinal_position"
  {
    if |schema| > 0 {
      QuotedNamesSplit(schema);
    } else {
      assert QuotedNames(schema) == [];
    }
    NamedColumnsQuery(namespace, name, schema);
  }

  lemma NamedColumnsQuery(namespace: string, name: string, schema: seq<Column>)
    requires !HasWildcard(schema)
    ensures CatalogQuery(namespace, name, schema)
         == CatalogSelect(namespace, name) + " AND column_name IN (" + Join(QuotedNames(schema), ", ")
            + ") ORDER BY ordinal_position"
  {
  }

  lemma QuotedNamesSplit(schema: seq<Column>)
    requires |schema| >= 1
    requires forall i :: 0 <= i < |schema| ==> ',' !in schema[i].expr
    ensures var pieces := Split(Join(QuotedNames(schema), ", "), ',');
      |pieces| == |schema|
      && forall i :: 0 <= i < |schema| ==> pieces[i] == (if i == 0 then "" else " ") + "'" + schema[i].expr + "'"
  {
    var names := QuotedNames(schema);
    var spaced := Spaced(names);
    JoinCommaSpace(names);
    forall i | 0 <= i < |spaced|
      ensures ',' !in spaced[i]
      ensures spaced[i] == (if i == 0 then "" else " ") + "'" + schema[i].expr + "'"
    {
      QuotedPiece(if i == 0 then "" else " ", schema[i].expr);
    }
    SplitJoin(spaced, ',');
  }

  lemma QuotedPiece(space: string, e: string)
    requires ',' !in space && ',' !in e
    ensures ',' !in space + ("'" + e + "'")
    ensures space + ("'" + e + "'") == space + "'" + e + "'"
  {
  }


  /** A cursor value inside an f-string, strings wrapped in single quotes without escaping. */
  function RenderValue(v: SqlValue): (r: string)
    ensures v.Str? ==> r == "'" + v.s + "'"
    ensures v.Int? ==> IsDecimal(r) && ParseDecimal(r) == v.i
    ensures v.Null? ==> r == "None"
  {
    match v
    case Str(s) => "'" + s + "'"
    case Int(i) => DecimalStringRoundTrip(i); DecimalString(i)
    case Null => "None"
  }

  /**
   * The cursor predicate: `xid` is compared through `xmin::TEXT::BIGINT`,
   * any other field by its double-quoted name.
   */
  function CursorExpression(cursor: CursorSpec): (r: string)
    ensures cursor.field == "xid" ==> r == "xmin::TEXT::BIGINT " + cursor.operator + " " + RenderValue(cursor.value)
    ensures cursor.field != "xid" ==> r == "\"" + cursor.field + "\" " + cursor.operator + " " + RenderValue(cursor.value)
  {
    var v := RenderValue(cursor.value);
    if cursor.field == "xid" then "xmin::TEXT::BIGINT " + cursor.operator + " " + v
    else "\"" + cursor.field + "\" " + cursor.operator + " " + v
  }

  /**
   * A resolved cursor predicate is never empty, so an incremental table
   * whose schema was resolved always yields an extraction query.
   */
  lemma ResolvedIncrementalQuery(namespace: string, name: string, schema: seq<Column>, filterExp: string,
                                 cursor: CursorSpec)
    ensures BuildQuery(namespace, name, schema, filterExp, true, CursorExpression(cursor)).Success?
  {
    assert |CursorExpression(cursor)| > 0;
  }

  /** The aggregate the pre-scan reads the new cursor value from. */
  function TargetAggregate(field: string): string {
    if field == "xid" then "max(xmin::TEXT::BIGINT)" else "max(\"" + field + "\")"
  }

  /** The select list and table of the pre-scan: the row count, and the cursor's maximum or `-1`. */
  function CountSelect(namespace: string, name: string, cursor: Option<CursorSpec>): string {
    if cursor.Some? then
      "SELECT COUNT(*) as table_size, " + TargetAggregate(cursor.value.field) + " AS target_value FROM " + namespace + "." + name
    else
      "SELECT COUNT(*) as table_size, -1 AS target_value FROM " + namespace + "." + name
  }

  /**
   * The conditions of the pre-scan: for an incremental table the cursor
   * predicate bare and then the filter in parentheses; for a full table the
   * filter bare.
   */
  function CountConjuncts(cursor: Option<CursorSpec>, cursorExp: string, filterExp: string): seq<Conjunct> {
    if cursor.Some? then [Conjunct(cursorExp, false)] + (if filterExp != "" then [Conjunct(filterExp, true)] else [])
    else if filterExp != "" then [Conjunct(filterExp, false)]
    else []
  }

  /**
   * The pre-scan query of `get_table_info`, with the layout white space
   * collapsed: for an incremental table the cursor predicate comes first and
   * the filter follows in parentheses; for a full table `-1` stands for the
   * cursor value and the filter follows `WHERE` without parentheses.
   */
  function CountQuery(namespace: string, name: string, cursor: Option<CursorSpec>, cursorExp: string,
                      filterExp: string): (r: string)
    ensures cursor.Some? && filterExp != "" ==>
      r == "SELECT COUNT(*) as table_size, " + TargetAggregate(cursor.value.field) + " AS target_value FROM "
           + namespace + "." + name + " WHERE " + cursorExp + " AND (" + filterExp + ")"
    ensures cursor.Some? && filterExp == "" ==>
      r == "SELECT COUNT(*) as table_size, " + TargetAggregate(cursor.value.field) + " AS target_value FROM "
           + namespace + "." + name + " WHERE " + cursorExp
    ensures cursor.None? && filterExp != "" ==>
      r == "SELECT COUNT(*) as table_size, -1 AS target_value FROM " + namespace + "." + name + " WHERE " + filterExp
    ensures cursor.None? && filterExp == "" ==>
      r == "SELECT COUNT(*) as table_size, -1 AS target_value FROM " + namespace + "." + name
  {
    CountQueryShapes(namespace, name, cursor, cursorExp, filterExp);
    CountSelect(namespace, name, cursor) + WhereClause(CountConjuncts(cursor, cursorExp, filterExp))
  }

  lemma CountQueryShapes(namespace: string, name: string, cursor: Option<CursorSpec>, cursorExp: string,
                         filterExp: string)
    ensures var r := CountSelect(namespace, name, cursor) + WhereClause(CountConjuncts(cursor, cursorExp, filterExp));
      && (cursor.Some? && filterExp != "" ==>
            r == "SELECT COUNT(*) as table_size, " + TargetAggregate(cursor.value.field) + " AS target_value FROM "
                 + namespace + "." + name + " WHERE " + cursorExp + " AND (" + filterExp + ")")
      && (cursor.Some? && filterExp == "" ==>
            r == "SELECT COUNT(*) as table_size, " + TargetAggregate(cursor.value.field) + " AS target_value FROM "
                 + namespace + "." + name + " WHERE " + cursorExp)
      && (cursor.None? && filterExp != "" ==>
            r == "SELECT COUNT(*) as table_size, -1 AS target_value FROM " + namespace + "." + name + " WHERE " + filterExp)
      && (cursor.None? && filterExp == "" ==>
            r == "SELECT COUNT(*) as table_size, -1 AS target_value FROM " + namespace + "." + name)
  {
    var head := CountSelect(namespace, name, cursor);
    if cursor.Some? && filterExp != "" {
      assert CountConjuncts(cursor, cursorExp, filterExp) == [Conjunct(cursorExp, false), Conjunct(filterExp, true)];
      WhereBareThenParenthesised(head, cursorExp, filterExp);
    } else if cursor.Some? {
      assert CountConjuncts(cursor, cursorExp, filterExp) == [Conjunct(cursorExp, false)];
      WhereBare(head, cursorExp);
    } else if filterExp != "" {
      assert CountConjuncts(cursor, cursorExp, filterExp) == [Conjunct(filterExp, false)];
      WhereBare(head, filterExp);
    } else {
      assert CountConjuncts(cursor, cursorExp, filterExp) == [];
      assert head + "" == head;
    }
  }

  lemma WhereBare(head: string, e: string)
    ensures head + WhereClause([Conjunct(e, false)]) == head + " WHERE " + e
  {
    assert ConjunctTexts([Conjunct(e, false)]) == [e];
  }

  lemma WhereBareThenParenthesised(head: string, c: string, f: string)
    ensures head + WhereClause([Conjunct(c, false), Conjunct(f, true)]) == head + " WHERE " + c + " AND (" + f + ")"
  {
    var texts := ConjunctTexts([Conjunct(c, false), Conjunct(f, true)]);
    assert texts == [c, "(" + f + ")"];
    assert texts[1..] == ["(" + f + ")"];
    assert Join(texts, " AND ") == c + " AND " + ("(" + f + ")");
    assert " AND (" == " AND " + "(";
  }

  /**
   * The pre-scan counts over the same table and under the same conditions
   * as the extraction query selects: the filter and, for an incremental
   * table, the cursor predicate. Only their order and parentheses differ.
   */
  lemma PrescanMatchesExtraction(namespace: string, name: string, schema: seq<Column>, filterExp: string,
                                 cursor: Option<CursorSpec>, cursorExp: string)
    requires cursor.None? || cursorExp != ""
    ensures BuildQuery(namespace, name, schema, filterExp, cursor.Some?, cursorExp)
         == Success(SelectFrom(namespace, name, schema) + WhereClause(QueryConjuncts(filterExp, cursor.Some?, cursorExp)))
    ensures CountQuery(namespace, name, cursor, cursorExp, filterExp)
         == CountSelect(namespace, name, cursor) + WhereClause(CountConjuncts(cursor, cursorExp, filterExp))
    ensures EndsWith(SelectFrom(namespace, name, schema), " FROM " + namespace + "." + name)
    ensures EndsWith(CountSelect(namespace, name, cursor), " FROM " + namespace + "." + name)
    ensures Predicates(CountConjuncts(cursor, cursorExp, filterExp))
         == Predicates(QueryConjuncts(filterExp, cursor.Some?, cursorExp))
  {
    QueryWhere(namespace, name, schema, filterExp, cursor.Some?, cursorExp);
    SameTable(namespace, name, schema, cursor);
    SameConditions(cursor, cursorExp, filterExp);
  }

  lemma SameTable(namespace: string, name: string, schema: seq<Column>, cursor: Option<CursorSpec>)
    ensures EndsWith(SelectFrom(namespace, name, schema), " FROM " + namespace + "." + name)
    ensures EndsWith(CountSelect(namespace, name, cursor), " FROM " + namespace + "." + name)
  {
    FromSuffix("SELECT " + Join(Exprs(schema), ", "), namespace, name);
    if cursor.Some? {
      TargetFromSuffix("SELECT COUNT(*) as table_size, " + TargetAggregate(cursor.value.field), namespace, name);
    } else {
      FromSuffix("SELECT COUNT(*) as table_size, -1 AS target_value", namespace, name);
    }
  }

  lemma FromSuffix(a: string, namespace: string, name: string)
    ensures EndsWith(a + " FROM " + namespace + "." + name, " FROM " + namespace + "." + name)
  {
    var tail := " FROM " + namespace + "." + name;
    assert a + " FROM " + namespace + "." + name == a + tail;
    assert (a + tail)[|a + tail| - |tail|..] == tail;
  }

  lemma TargetFromSuffix(a: string, namespace: string, name: string)
    ensures EndsWith(a + " AS target_value FROM " + namespace + "." + name, " FROM " + namespace + "." + name)
  {
    assert a + " AS target_value FROM " == a + " AS target_value" + " FROM " by {
      assert " AS target_value FROM " == " AS target_value" + " FROM ";
    }
    FromSuffix(a + " AS target_value", namespace, name);
  }

  lemma SameConditions(cursor: Option<CursorSpec>, cursorExp: string, filterExp: string)
    ensures Predicates(CountConjuncts(cursor, cursorExp, filterExp))
         == Predicates(QueryConjuncts(filterExp, cursor.Some?, cursorExp))
  {
    var counted := CountConjuncts(cursor, cursorExp, filterExp);
    var selected := QueryConjuncts(filterExp, cursor.Some?, cursorExp);
    var a := seq(|counted|, i requires 0 <= i < |counted| => counted[i].text);
    var b := seq(|selected|, i requires 0 <= i < |selected| => selected[i].text);
    if cursor.Some? && filterExp != "" {
      assert a == [cursorExp, filterExp] && b == [filterExp, cursorExp];
    } else if cursor.Some? {
      assert a == [cursorExp] && b == [cursorExp];
    } else if filterExp != "" {
      assert a == [filterExp] && b == [filterExp];
    } else {
      assert a == [] && b == [];
    }
  }


  /** The concatenation of a sequence of chunks. */
  function Flatten<T>(chunks: seq<seq<T>>): seq<T> {
    if chunks == [] then [] else chunks[0] + Flatten(chunks[1..])
  }

  /** What successive `fetchmany(size)` calls return until the first empty one. */
  function Chunks<T>(rows: seq<T>, size: nat): seq<seq<T>>
    requires size > 0
    decreases |rows|
  {
    if rows == [] then []
    else if |rows| <= size then [rows]
    else [rows[..size]] + Chunks(rows[size..], size)
  }

  /**
   * The chunks are non-empty, hold at most `size` rows, are all full but
   * the last, and together are the rows in order.
   */
  lemma {:induction false} ChunksSpec<T>(rows: seq<T>, size: nat)
    requires size > 0
    ensures var r := Chunks(rows, size);
            && Flatten(r) == rows
            && (forall i :: 0 <= i < |r| ==> 0 < |r[i]| <= size)
            && (forall i :: 0 <= i < |r| - 1 ==> |r[i]| == size)
    decreases |rows|
  {
    if |rows| > size {
      var rest := Chunks(rows[size..], size);
      ChunksSpec(rows[size..], size);
      var r := [rows[..size]] + rest;
      assert r[1..] == rest;
      assert rows[..size] + rows[size..] == rows;
    } else if rows != [] {
      assert Flatten([rows]) == rows + Flatten([]);
    }
  }

  /** The number of batches is the row count divided by the batch size, rounded up. */
  lemma {:induction false} ChunksCount<T>(rows: seq<T>, size: nat)
    requires size > 0
    ensures |rows| <= |Chunks(rows, size)| * size < |rows| + size
    decreases |rows|
  {
    if |rows| > size {
      var c := |Chunks(rows[size..], size)|;
      ChunksCount(rows[size..], size);
      assert |Chunks(rows, size)| == c + 1;
      assert (c + 1) * size == c * size + size;
    }
  }

  /** Seven rows in batches of three come as three batches of three, three and one rows. */
  lemma ChunksOfSevenByThree<T>(rows: seq<T>)
    requires |rows| == 7
    ensures var r := Chunks(rows, 3);
            |r| == 3 && |r[0]| == 3 && |r[1]| == 3 && |r[2]| == 1
            && r[0] == rows[..3] && r[1] == rows[3..6] && r[2] == rows[6..]
  {
    var r := Chunks(rows, 3);
    var r1 := Chunks(rows[3..], 3);
    assert rows[3..][3..] == rows[6..];
    assert Chunks(rows[6..], 3) == [rows[6..]];
    assert r1 == [rows[3..][..3]] + [rows[6..]];
    assert rows[3..][..3] == rows[3..6];
  }

  /** The chunks a complete fetch loop yields; a non-positive size fetches nothing. */
  function Fetched<T>(rows: seq<T>, size: int): seq<seq<T>> {
    if size > 0 then Chunks(rows, size) else []
  }

  lemma PrefixOfConcat<T>(a: seq<T>, b: seq<T>)
    ensures (a + b)[..|a|] == a
  {
  }

  /** One `fetchmany(size)` takes the next `size` rows, or all that are left. */
  lemma FetchStep<T>(rest: seq<T>, size: int)
    requires size > 0 && rest != []
    ensures var k := if |rest| < size then |rest| else size;
            Fetched(rest, size) == [rest[..k]] + Fetched(rest[k..], size)
  {
    var k := if |rest| < size then |rest| else size;
    if |rest| <= size {
      assert rest[..k] == rest && rest[k..] == [];
      assert Fetched(rest, size) == [rest];
    } else {
      assert Fetched(rest, size) == [rest[..size]] + Chunks(rest[size..], size);
    }
  }

  /** The answer of the pre-scan: the number of matching rows and the new cursor value. */
  datatype TableInfo = TableInfo(size: nat, targetValue: SqlValue)

  /** The chunks the reader yields and whether its fetch loop ran to exhaustion. */
  datatype Extraction<T> = Extraction(chunks: seq<seq<T>>, exhausted: bool)

  /**
   * `get_batches` without the database: nothing when the pre-scan failed,
   * found no rows, or the extraction query cannot be built; otherwise the
   * chunks up to the fetch that raises, or all of them.
   */
  function Extract(info: Option<TableInfo>, queryBuilt: bool, rows: seq<Row>, size: int,
                   failAt: Option<nat>): (e: Extraction<Row>)
  {
    if info.None? || info.value.size == 0 || !queryBuilt then Extraction([], false)
    else FetchUntil(rows, size, failAt)
  }

  /** The fetch loop alone: every chunk, or those before the fetch that raises. */
  function FetchUntil<T>(rows: seq<T>, size: int, failAt: Option<nat>): Extraction<T> {
    var all := Fetched(rows, size);
    if failAt.Some? && failAt.value <= |all| then Extraction(all[..failAt.value], false)
    else Extraction(all, true)
  }

  /** The fetch loop's invariant carried past one non-empty fetch. */
  lemma FetchAdvance<T>(all: seq<seq<T>>, chunks: seq<seq<T>>, rest: seq<T>, size: int)
    requires size > 0 && rest != [] && all == chunks + Fetched(rest, size)
    ensures var k := if |rest| < size then |rest| else size;
            all == (chunks + [rest[..k]]) + Fetched(rest[k..], size)
  {
    var k := if |rest| < size then |rest| else size;
    FetchStep(rest, size);
    assert chunks + ([rest[..k]] + Fetched(rest[k..], size)) == (chunks + [rest[..k]]) + Fetched(rest[k..], size);
  }

  /** The loop stopped at the fetch that raised: what it yielded is the first `|chunks|` chunks. */
  lemma FetchRaised<T>(rows: seq<T>, size: int, chunks: seq<seq<T>>, rest: seq<T>)
    requires Fetched(rows, size) == chunks + Fetched(rest, size)
    ensures FetchUntil(rows, size, Some(|chunks|)) == Extraction(chunks, false)
  {
    PrefixOfConcat(chunks, Fetched(rest, size));
  }

  /** The loop stopped at the empty fetch: it yielded every chunk. */
  lemma FetchExhausted<T>(rows: seq<T>, size: int, failAt: Option<nat>, chunks: seq<seq<T>>, rest: seq<T>)
    requires Fetched(rows, size) == chunks + Fetched(rest, size)
    requires size <= 0 || rest == []
    requires failAt.Some? ==> failAt.value > |chunks|
    ensures FetchUntil(rows, size, failAt) == Extraction(chunks, true)
  {
    assert Fetched(rest, size) == [];
    assert Fetched(rows, size) == chunks;
  }

  /**
   * The fetch loop of `get_batches`: `fetchmany(size)` until it returns no
   * rows, or until the fetch numbered `failAt` raises.
   */
  method FetchAll<T>(rows: seq<T>, size: int, failAt: Option<nat>) returns (chunks: seq<seq<T>>, exhausted: bool)
    ensures Extraction(chunks, exhausted) == FetchUntil(rows, size, failAt)
  {
    chunks := [];
    var rest := rows;
    var fetches: nat := 0;
    while true
      invariant Fetched(rows, size) == chunks + Fetched(rest, size)
      invariant fetches == |chunks|
      invariant failAt.Some? ==> failAt.value >= fetches
      decreases |rest|
    {
      if failAt == Some(fetches) {
        FetchRaised(rows, size, chunks, rest);
        return chunks, false;
      }
      var k := if size <= 0 then 0 else if |rest| < size then |rest| else size;
      var fetched := rest[..k];
      fetches := fetches + 1;
      if k == 0 {
        FetchExhausted(rows, size, failAt, chunks, rest);
        return chunks, true;
      }
      FetchAdvance(Fetched(rows, size), chunks, rest, size);
      chunks := chunks + [fetched];
      rest := rest[k..];
    }
  }

  /**
   * The yielded batches are the result rows in order, none empty and none
   * above the batch size; they are all of them when the loop ran to
   * exhaustion, and nothing is yielded when the pre-scan failed or found
   * no rows.
   */
  lemma ExtractBatches(info: Option<TableInfo>, queryBuilt: bool, rows: seq<Row>, size: int,
                       failAt: Option<nat>)
    ensures var e := Extract(info, queryBuilt, rows, size, failAt);
            && (info.None? || info.value.size == 0 ==> e == Extraction([], false))
            && (forall i :: 0 <= i < |e.chunks| ==> 0 < |e.chunks[i]| <= size)
            && |Flatten(e.chunks)| <= |rows| && Flatten(e.chunks) == rows[..|Flatten(e.chunks)|]
            && (e.exhausted && size > 0 ==> Flatten(e.chunks) == rows)
  {
    var e := Extract(info, queryBuilt, rows, size, failAt);
    if size > 0 && e.chunks != [] {
      var all := Chunks(rows, size);
      ChunksSpec(rows, size);
      var k := |e.chunks|;
      assert e.chunks == all[..k];
      FlattenPrefix(all, k);
    }
  }

  lemma {:induction false} FlattenPrefix<T>(chunks: seq<seq<T>>, k: nat)
    requires k <= |chunks|
    ensures Flatten(chunks) == Flatten(chunks[..k]) + Flatten(chunks[k..])
  {
    if k > 0 {
      FlattenPrefix(chunks[1..], k - 1);
      assert chunks[1..][..k - 1] == chunks[..k][1..];
      assert chunks[1..][k - 1..] == chunks[k..];
    }
  }

  /** The specification with its cursor value replaced, as the reader writes it back. */
  function AdvanceCursor(spec: TableSpec, value: SqlValue): (r: TableSpec)
    requires spec.cursor.Some?
    ensures r.cursor == Some(spec.cursor.value.(value := value))
    ensures r.(cursor := spec.cursor) == spec
  {
    spec.(cursor := Some(spec.cursor.value.(value := value)))
  }

  function Batches(schema: Schema, chunks: seq<seq<Row>>): (r: seq<Batch>)
    ensures |r| == |chunks| && forall i :: 0 <= i < |r| ==> r[i] == Batch(schema, chunks[i])
  {
    seq(|chunks|, i requires 0 <= i < |chunks| => Batch(schema, chunks[i]))
  }

  /** A PostgreSQL table: the relational table it refines, the quoting sets and the type mapping. */
  class PGTable {
    const table: RDBTable
    const reservedKeywords: set<string>
    const specialCharacters: set<char>
    const dtMappings: map<string, string>
    var paSchema: Schema

    /**
     * The table read from its specification, before its schema is resolved.
     * `reservedKeywords` is the answer of the keyword query (empty when that
     * query failed); `dtMappings` the type mapping table.
     */
    constructor (spec: TableSpec, reservedKeywords: set<string>, dtMappings: map<string, string>)
      ensures fresh(table)
      ensures table.namespace == Strip(spec.namespace) && table.name == Strip(spec.name)
      ensures table.spec == spec && table.schema == InitialSchema(spec.columns)
      ensures table.filterExp == InitialFilter(spec.filterExp) && table.cursorExp == ""
      ensures this.reservedKeywords == reservedKeywords && specialCharacters == SpecialCharacters
      ensures this.dtMappings == dtMappings && paSchema == []
    {
      table := new RDBTable(spec);
      this.reservedKeywords := reservedKeywords;
      specialCharacters := SpecialCharacters;
      this.dtMappings := dtMappings;
      paSchema := [];
    }

    /**
     * `update_table_spec`. `rows` is the catalog's answer to the
     * CatalogQuery of the table, or None when that query raised. On
     * success the schema, the Arrow schema and, for an incremental table,
     * the cursor predicate are replaced; on an error nothing changes.
     */
    method UpdateTableSpec(rows: Option<seq<CatalogRow>>) returns (err: Option<Error>)
      modifies this`paSchema, table`schema, table`cursorExp
      ensures rows.None? ==> err == Some(DatabaseError)
      ensures rows.Some? ==> var r := ResolveColumns(rows.value, reservedKeywords, specialCharacters, dtMappings);
        && (r.Failure? <==> err.Some?)
        && (r.Failure? ==> err == Some(r.error))
        && (r.Success? ==> table.schema == r.value.schema && paSchema == r.value.fields)
        && (r.Success? ==>
              table.cursorExp == if IsIncremental(table.spec) then CursorExpression(table.spec.cursor.value)
                                 else old(table.cursorExp))
      ensures err.Some? ==> unchanged(this) && unchanged(table)
    {
      if rows.None? {
        return Some(DatabaseError);
      }
      var r := ResolveSchema(rows.value, reservedKeywords, specialCharacters, dtMappings);
      if r.Failure? {
        return Some(r.error);
      }
      paSchema := r.value.fields;
      table.schema := r.value.schema;
      if IsIncremental(table.spec) {
        table.cursorExp := CursorExpression(table.spec.cursor.value);
      }
      return None;
    }

    /** The pre-scan query text of `get_table_info`. */
    function TableInfoQuery(): string
      reads this, table
    {
      CountQuery(table.namespace, table.name, table.spec.cursor, table.cursorExp, table.filterExp)
    }

    /**
     * `get_batches`. `info` is the pre-scan's answer to TableInfoQuery (None
     * when it raised), `rows` the extraction query's result, `failAt` the
     * index of the fetch that raises, if any. The batches are the Extract
     * chunks under the Arrow schema; the cursor value is advanced to the
     * pre-scan's value only when the loop ran to exhaustion.
     */
    method GetBatches(info: Option<TableInfo>, rows: seq<Row>, failAt: Option<nat>) returns (batches: seq<Batch>)
      modifies table`spec
      ensures var e := Extract(info, old(table.Query()).Success?, rows, old(table.BatchSize()), failAt);
        && batches == Batches(paSchema, e.chunks)
        && table.spec == (if e.exhausted && IsIncremental(old(table.spec))
                          then AdvanceCursor(old(table.spec), info.value.targetValue) else old(table.spec))
    {
      batches := [];
      if info.None? || info.value.size == 0 {
        return;
      }
      var query := table.Query();
      if query.Failure? {
        return;
      }
      var chunks, exhausted := FetchAll(rows, table.BatchSize(), failAt);
      batches := Batches(paSchema, chunks);
      if !exhausted {
        return;
      }
      if IsIncremental(table.spec) {
        table.spec := AdvanceCursor(table.spec, info.value.targetValue);
      }
    }
  }
}
