/**
 * The replication run: for every table of the source configuration, in
 * order, the PostgreSQL table is read from its specification, its schema
 * resolved, its destination recreated when the access mode is REPLACE, and
 * every extracted batch routed to an overwrite, an append or an upsert.
 *
 * The run proceeds table by table. What the database and the catalog answer
 * is given per table in a `TableEnv`. An exception while a table is being
 * read from its specification, or while its target is parsed, is not caught
 * and ends the run; an exception from a batch write is caught and the next
 * batch is written.
 */
module Main {
  import opened Types
  import opened Text
  import opened Rdb
  import opened Postgres
  import opened Iceberg
  import Helper

  /** A call the run makes on the destination session. */
  datatype Call =
    | Recreate(id: string, schema: Schema)
    | Overwrite(id: string, data: Batch)
    | Append(id: string, data: Batch)
    | Upsert(id: string, data: Batch)

  /** The destination and the routing flags between two batches of one table. */
  datatype LoopState = LoopState(catalog: Catalog, dumps: seq<Dump>, calls: seq<Call>, overwrite: bool)

  /** The outcome of the write of the `j`-th batch: faults past the end of the list are `NoFault`. */
  function FaultAt(faults: seq<Fault>, j: nat): Fault {
    if j < |faults| then faults[j] else NoFault
  }

  /**
   * One iteration of the batch loop: while the overwrite flag is set the
   * batch is overwritten, and the flag is cleared only when that call
   * returns normally; otherwise the batch is upserted in UPSERT mode and
   * appended in every other mode. An exception from the write is caught.
   */
  function Step(s: LoopState, id: string, upsert: bool, data: Batch, fault: Fault): (r: LoopState)
    ensures |r.calls| == |s.calls| + 1 && r.calls[..|s.calls|] == s.calls
  {
    if s.overwrite then
      var w := Write(s.catalog, s.dumps, id, data, fault, true);
      LoopState(w.catalog, w.dumps, s.calls + [Overwrite(id, data)], w.raised)
    else if upsert then
      s.(calls := s.calls + [Upsert(id, data)])
    else
      var w := Write(s.catalog, s.dumps, id, data, fault, false);
      LoopState(w.catalog, w.dumps, s.calls + [Append(id, data)], false)
  }

  /** The batch loop over all batches of one table. */
  function Route(s: LoopState, id: string, upsert: bool, batches: seq<Batch>, faults: seq<Fault>): LoopState
    decreases |batches|
  {
    if batches == [] then s
    else
      var tail := if faults == [] then [] else faults[1..];
      Route(Step(s, id, upsert, batches[0], FaultAt(faults, 0)), id, upsert, batches[1..], tail)
  }

  /** Whether the batch at `j` is still written by overwrite: every earlier overwrite raised. */
  predicate OverwritePending(overwrite: bool, faults: seq<Fault>, j: nat) {
    overwrite && forall k :: 0 <= k < j ==> FaultAt(faults, k) == LoadFails
  }

  /** The call the loop makes for the batch at `j`, without running the loop. */
  function RoutedCall(overwrite: bool, upsert: bool, id: string, data: Batch, faults: seq<Fault>, j: nat): Call {
    if OverwritePending(overwrite, faults, j) then Overwrite(id, data)
    else if upsert then Upsert(id, data)
    else Append(id, data)
  }

  lemma FaultAtTail(faults: seq<Fault>, k: nat)
    ensures FaultAt(if faults == [] then [] else faults[1..], k) == FaultAt(faults, k + 1)
  {
  }

  /** After one iteration the flag is still set exactly when it was set and the overwrite raised. */
  lemma StepOverwrite(s: LoopState, id: string, upsert: bool, data: Batch, fault: Fault)
    ensures Step(s, id, upsert, data, fault).overwrite <==> s.overwrite && fault == LoadFails
  {
    if s.overwrite {
      WriteSpec(s.catalog, s.dumps, id, data, fault, true);
    }
  }

  /** The batch at `j` is an overwrite exactly when, after the first batch, the batch at `j - 1` of the rest is. */
  lemma {:induction false} PendingShift(overwrite: bool, faults: seq<Fault>, j: nat)
    requires 0 < j
    ensures OverwritePending(overwrite && FaultAt(faults, 0) == LoadFails, if faults == [] then [] else faults[1..], j - 1)
        <==> OverwritePending(overwrite, faults, j)
  {
    var tail := if faults == [] then [] else faults[1..];
    forall k | 0 <= k < j - 1 ensures FaultAt(tail, k) == FaultAt(faults, k + 1) {
      FaultAtTail(faults, k);
    }
    if OverwritePending(overwrite && FaultAt(faults, 0) == LoadFails, tail, j - 1) {
      forall k | 0 <= k < j ensures FaultAt(faults, k) == LoadFails {
        if k > 0 {
          FaultAtTail(faults, k - 1);
        }
      }
    }
    if OverwritePending(overwrite, faults, j) {
      assert FaultAt(faults, 0) == LoadFails;
    }
  }

  /** The loop adds one call per batch after the calls made before it. */
  lemma {:induction false} RouteExtends(s: LoopState, id: string, upsert: bool, batches: seq<Batch>,
                                        faults: seq<Fault>)
    ensures var r := Route(s, id, upsert, batches, faults);
            |r.calls| == |s.calls| + |batches| && r.calls[..|s.calls|] == s.calls
    decreases |batches|
  {
    if batches != [] {
      var tail := if faults == [] then [] else faults[1..];
      var s1 := Step(s, id, upsert, batches[0], FaultAt(faults, 0));
      RouteExtends(s1, id, upsert, batches[1..], tail);
      var r := Route(s, id, upsert, batches, faults);
      assert r.calls[..|s1.calls|][..|s.calls|] == r.calls[..|s.calls|];
    }
  }

  /** The call the loop makes for the batch at `j`. */
  lemma {:induction false} RouteCallAt(s: LoopState, id: string, upsert: bool, batches: seq<Batch>,
                                       faults: seq<Fault>, j: nat)
    requires j < |batches|
    ensures var r := Route(s, id, upsert, batches, faults);
            |s.calls| + j < |r.calls| && r.calls[|s.calls| + j] == RoutedCall(s.overwrite, upsert, id, batches[j], faults, j)
    decreases j
  {
    var tail := if faults == [] then [] else faults[1..];
    var s1 := Step(s, id, upsert, batches[0], FaultAt(faults, 0));
    RouteExtends(s1, id, upsert, batches[1..], tail);
    if j == 0 {
      assert Route(s, id, upsert, batches, faults).calls[..|s1.calls|][|s.calls|] == s1.calls[|s.calls|];
    } else {
      RouteCallAt(s1, id, upsert, batches[1..], tail, j - 1);
      StepOverwrite(s, id, upsert, batches[0], FaultAt(faults, 0));
      assert batches[1..][j - 1] == batches[j];
      PendingShift(s.overwrite, faults, j);
    }
  }

  /**
   * The loop makes one call per batch, in batch order, and the call for the
   * batch at `j` is an overwrite exactly when the flag was set and every
   * earlier overwrite raised, else an upsert in UPSERT mode, else an append.
   */
  lemma RouteCalls(s: LoopState, id: string, upsert: bool, batches: seq<Batch>, faults: seq<Fault>)
    ensures var r := Route(s, id, upsert, batches, faults);
            && |r.calls| == |s.calls| + |batches|
            && r.calls[..|s.calls|] == s.calls
            && forall j :: 0 <= j < |batches| ==>
                 r.calls[|s.calls| + j] == RoutedCall(s.overwrite, upsert, id, batches[j], faults, j)
  {
    RouteExtends(s, id, upsert, batches, faults);
    forall j | 0 <= j < |batches|
      ensures Route(s, id, upsert, batches, faults).calls[|s.calls| + j]
           == RoutedCall(s.overwrite, upsert, id, batches[j], faults, j)
    {
      RouteCallAt(s, id, upsert, batches, faults, j);
    }
  }

  /** With no batch the loop calls nothing and changes nothing. */
  lemma RouteNothing(s: LoopState, id: string, upsert: bool, faults: seq<Fault>)
    ensures Route(s, id, upsert, [], faults) == s
  {
  }

  /** The rows of a sequence of batches, concatenated. */
  function AllRows(batches: seq<Batch>): seq<Row> {
    if batches == [] then [] else batches[0].rows + AllRows(batches[1..])
  }

  /**
   * Appending batches that all go through leaves the table holding its old
   * rows followed by every batch's rows, in order, and touches no other table.
   */
  lemma {:induction false} AppendAll(s: LoopState, id: string, batches: seq<Batch>, faults: seq<Fault>)
    requires !s.overwrite && id in s.catalog
    requires forall j :: 0 <= j < |batches| ==> FaultAt(faults, j) == NoFault
    ensures var r := Route(s, id, false, batches, faults);
            && id in r.catalog && r.catalog.Keys == s.catalog.Keys
            && r.catalog[id] == s.catalog[id].(rows := s.catalog[id].rows + AllRows(batches))
            && (forall other :: other in s.catalog && other != id ==> r.catalog[other] == s.catalog[other])
            && r.dumps == s.dumps && !r.overwrite
    decreases |batches|
  {
    if batches != [] {
      var tail := if faults == [] then [] else faults[1..];
      forall j | 0 <= j < |batches| - 1 ensures FaultAt(tail, j) == NoFault {
        FaultAtTail(faults, j);
      }
      var s1 := Step(s, id, false, batches[0], FaultAt(faults, 0));
      assert s1.catalog == s.catalog[id := s.catalog[id].(rows := s.catalog[id].rows + batches[0].rows)];
      AppendAll(s1, id, batches[1..], tail);
      assert s.catalog[id].rows + batches[0].rows + AllRows(batches[1..])
          == s.catalog[id].rows + AllRows(batches);
    }
  }

  /**
   * OVERWRITE with at least one batch and every write going through: one
   * overwrite of the first batch, then one append per further batch, in
   * order; the table ends with exactly the rows of all the batches, under
   * the schema it had or, when it was absent, the first batch's schema.
   */
  lemma OverwriteThenAppend(catalog: Catalog, dumps: seq<Dump>, id: string, batches: seq<Batch>, faults: seq<Fault>)
    requires |batches| >= 1
    requires forall j :: 0 <= j < |batches| ==> FaultAt(faults, j) == NoFault
    ensures var r := Route(LoopState(catalog, dumps, [], true), id, false, batches, faults);
            && |r.calls| == |batches|
            && r.calls[0] == Overwrite(id, batches[0])
            && (forall j :: 1 <= j < |batches| ==> r.calls[j] == Append(id, batches[j]))
            && id in r.catalog
            && r.catalog[id].rows == AllRows(batches)
            && r.catalog[id].schema == (if id in catalog then catalog[id].schema else batches[0].schema)
            && r.dumps == dumps
  {
    var s := LoopState(catalog, dumps, [], true);
    RouteCalls(s, id, false, batches, faults);
    var tail := if faults == [] then [] else faults[1..];
    var s1 := Step(s, id, false, batches[0], FaultAt(faults, 0));
    forall j | 0 <= j < |batches| - 1 ensures FaultAt(tail, j) == NoFault {
      FaultAtTail(faults, j);
    }
    AppendAll(s1, id, batches[1..], tail);
    assert AllRows(batches) == batches[0].rows + AllRows(batches[1..]);
  }

  /**
   * OVERWRITE whose first write fails inside `overwrite_table`: the batch is
   * dumped, the call returns normally and so clears the flag, and every
   * later batch is appended to the rows the table already had; the old
   * rows are never replaced.
   */
  lemma FailedOverwriteKeepsOldRows(catalog: Catalog, dumps: seq<Dump>, id: string, batches: seq<Batch>,
                                    faults: seq<Fault>)
    requires |batches| >= 1
    requires FaultAt(faults, 0) == WriteFails
    requires forall j :: 1 <= j < |batches| ==> FaultAt(faults, j) == NoFault
    ensures var r := Route(LoopState(catalog, dumps, [], true), id, false, batches, faults);
            && |r.calls| == |batches|
            && r.calls[0] == Overwrite(id, batches[0])
            && (forall j :: 1 <= j < |batches| ==> r.calls[j] == Append(id, batches[j]))
            && id in r.catalog
            && r.catalog[id].rows == (if id in catalog then catalog[id].rows else []) + AllRows(batches[1..])
            && r.dumps == dumps + [Dump(id, batches[0])]
  {
    var s := LoopState(catalog, dumps, [], true);
    RouteCalls(s, id, false, batches, faults);
    var tail := if faults == [] then [] else faults[1..];
    var s1 := Step(s, id, false, batches[0], WriteFails);
    WriteSpec(catalog, dumps, id, batches[0], WriteFails, true);
    CreatedSpec(catalog, id, batches[0].schema);
    forall j | 0 <= j < |batches| - 1 ensures FaultAt(tail, j) == NoFault {
      FaultAtTail(faults, j);
    }
    AppendAll(s1, id, batches[1..], tail);
  }

  /** UPSERT: every batch is upserted, and neither the catalog nor the dumps change. */
  lemma {:induction false} UpsertChangesNothing(s: LoopState, id: string, batches: seq<Batch>, faults: seq<Fault>)
    requires !s.overwrite
    ensures var r := Route(s, id, true, batches, faults);
            && r.catalog == s.catalog && r.dumps == s.dumps && !r.overwrite
            && |r.calls| == |s.calls| + |batches|
            && forall j :: 0 <= j < |batches| ==> r.calls[|s.calls| + j] == Upsert(id, batches[j])
    decreases |batches|
  {
    RouteCalls(s, id, true, batches, faults);
    UpsertKeeps(s, id, batches, faults);
  }

  lemma {:induction false} UpsertKeeps(s: LoopState, id: string, batches: seq<Batch>, faults: seq<Fault>)
    requires !s.overwrite
    ensures var r := Route(s, id, true, batches, faults);
            r.catalog == s.catalog && r.dumps == s.dumps && !r.overwrite
    decreases |batches|
  {
    if batches != [] {
      var tail := if faults == [] then [] else faults[1..];
      UpsertKeeps(Step(s, id, true, batches[0], FaultAt(faults, 0)), id, batches[1..], tail);
    }
  }

  /** The batches whose write raised inside the catalog and was dumped, in order. */
  function DumpsOf(id: string, batches: seq<Batch>, faults: seq<Fault>): seq<Dump>
    decreases |batches|
  {
    if batches == [] then []
    else
      var tail := if faults == [] then [] else faults[1..];
      (if FaultAt(faults, 0) == WriteFails then [Dump(id, batches[0])] else []) + DumpsOf(id, batches[1..], tail)
  }

  /**
   * Outside UPSERT mode every batch whose write raises inside the catalog is
   * dumped once, in order, and no other batch is dumped.
   */
  lemma {:induction false} DumpsAreFailedWrites(s: LoopState, id: string, batches: seq<Batch>, faults: seq<Fault>)
    ensures Route(s, id, false, batches, faults).dumps == s.dumps + DumpsOf(id, batches, faults)
    decreases |batches|
  {
    if batches != [] {
      var tail := if faults == [] then [] else faults[1..];
      var s1 := Step(s, id, false, batches[0], FaultAt(faults, 0));
      DumpsAreFailedWrites(s1, id, batches[1..], tail);
    }
  }

  /** The loop never touches another table of the catalog. */
  lemma {:induction false} RouteKeepsOthers(s: LoopState, id: string, upsert: bool, batches: seq<Batch>,
                                            faults: seq<Fault>, other: string)
    requires other != id
    ensures var r := Route(s, id, upsert, batches, faults);
            (other in r.catalog <==> other in s.catalog)
            && (other in s.catalog ==> r.catalog[other] == s.catalog[other])
    decreases |batches|
  {
    if batches != [] {
      var tail := if faults == [] then [] else faults[1..];
      RouteKeepsOthers(Step(s, id, upsert, batches[0], FaultAt(faults, 0)), id, upsert, batches[1..], tail, other);
    }
  }

  /**
   * What the database and the catalog answer while one table is replicated:
   * the catalog query's rows (None when it raised), the pre-scan's answer
   * (None when it failed), the rows of the extraction query, the fetch that
   * raises (if any), and the outcome of each batch write in order.
   */
  datatype TableEnv = TableEnv(
    catalogRows: Option<seq<CatalogRow>>,
    prescan: Option<TableInfo>,
    rows: seq<Row>,
    failAt: Option<nat>,
    faults: seq<Fault>)

  /** The outcome of one table: the error that ends the run, if any, and what the table left behind. */
  datatype TableOutcome = TableOutcome(err: Option<Error>, spec: TableSpec, catalog: Catalog, dumps: seq<Dump>,
                                       calls: seq<Call>)

  /** The destination identifier, `namespace.name` of the target. */
  function TargetId(spec: TableSpec): string {
    spec.target.namespace + "." + TargetName(spec.target, Strip(spec.name))
  }

  /** The cursor predicate right after the schema is resolved. */
  function ResolvedCursorExp(spec: TableSpec): string {
    if IsIncremental(spec) then CursorExpression(spec.cursor.value) else ""
  }

  /** The extraction query of a table whose schema resolved to `schema`. */
  function TableQuery(spec: TableSpec, schema: seq<Column>): Result<string, Error> {
    BuildQuery(Strip(spec.namespace), Strip(spec.name), schema, InitialFilter(spec.filterExp),
               IsIncremental(spec), ResolvedCursorExp(spec))
  }

  /** Once the schema is resolved the extraction query can always be built. */
  lemma TableQueryBuilt(spec: TableSpec, schema: seq<Column>)
    ensures TableQuery(spec, schema).Success?
  {
    if IsIncremental(spec) {
      ResolvedIncrementalQuery(Strip(spec.namespace), Strip(spec.name), schema, InitialFilter(spec.filterExp),
                               spec.cursor.value);
    }
  }

  /** The chunks the reader yields for a table whose schema resolved to `schema`. */
  function TableExtraction(spec: TableSpec, schema: seq<Column>, env: TableEnv): Extraction<Row> {
    Extract(env.prescan, TableQuery(spec, schema).Success?, env.rows, SpecBatchSize(spec), env.failAt)
  }

  /** The table's resolved schema, or the exception the catalog query or the type mapping raised. */
  function ReadSchema(env: TableEnv, reservedKeywords: set<string>, dtMappings: map<string, string>)
    : Result<Resolved, Error>
  {
    if env.catalogRows.None? then Failure(DatabaseError)
    else ResolveColumns(env.catalogRows.value, reservedKeywords, SpecialCharacters, dtMappings)
  }

  /**
   * Reading the table and its target: the resolved schema and the access
   * mode, or the exception that ends the run. The table is read before its
   * target is parsed, so a failing catalog query or type mapping is
   * reported even when the target is malformed too.
   */
  function Prepared(spec: TableSpec, env: TableEnv, reservedKeywords: set<string>,
                    dtMappings: map<string, string>): (r: Result<(Resolved, Helper.AccessMode), Error>)
    ensures r.Success? ==>
      && env.catalogRows.Some?
      && ResolveColumns(env.catalogRows.value, reservedKeywords, SpecialCharacters, dtMappings) == Success(r.value.0)
      && TargetAccessMode(spec.target) == Success(r.value.1)
    ensures (&& env.catalogRows.Some?
             && ResolveColumns(env.catalogRows.value, reservedKeywords, SpecialCharacters, dtMappings).Success?
             && TargetAccessMode(spec.target).Success?) ==> r.Success?
    ensures env.catalogRows.None? ==> r == Failure(DatabaseError)
    ensures (&& env.catalogRows.Some?
             && ResolveColumns(env.catalogRows.value, reservedKeywords, SpecialCharacters, dtMappings).Failure?) ==>
              r == Failure(ResolveColumns(env.catalogRows.value, reservedKeywords, SpecialCharacters, dtMappings).error)
    ensures (&& env.catalogRows.Some?
             && ResolveColumns(env.catalogRows.value, reservedKeywords, SpecialCharacters, dtMappings).Success?
             && TargetAccessMode(spec.target).Failure?) ==> r == Failure(TargetAccessMode(spec.target).error)
  {
    var res := ReadSchema(env, reservedKeywords, dtMappings);
    var mode := TargetAccessMode(spec.target);
    if res.Failure? then Failure(res.error)
    else if mode.Failure? then Failure(mode.error)
    else Success((res.value, mode.value))
  }

  /**
   * The rest of the table loop's body once the table is read: recreate in
   * REPLACE mode, then route every batch; the specification comes back
   * with its cursor advanced when the extraction ran to exhaustion.
   */
  function Replicated(spec: TableSpec, env: TableEnv, res: Resolved, mode: Helper.AccessMode,
                      catalog: Catalog, dumps: seq<Dump>): TableOutcome
  {
    var w := Route(StartState(spec, res, mode, catalog, dumps), TargetId(spec), mode == Helper.UPSERT,
                   TableBatches(spec, res, env), env.faults);
    TableOutcome(None, WrittenBack(spec, res, env), w.catalog, w.dumps, w.calls)
  }

  /** The destination and the flags before the first batch: recreated in REPLACE mode, overwriting in OVERWRITE mode. */
  function StartState(spec: TableSpec, res: Resolved, mode: Helper.AccessMode, catalog: Catalog,
                      dumps: seq<Dump>): LoopState
  {
    var id := TargetId(spec);
    if mode == Helper.REPLACE then LoopState(Recreated(catalog, id, res.fields), dumps, [Recreate(id, res.fields)], false)
    else LoopState(catalog, dumps, [], mode == Helper.OVERWRITE)
  }

  /** The batches the reader yields, under the resolved Arrow schema. */
  function TableBatches(spec: TableSpec, res: Resolved, env: TableEnv): seq<Batch> {
    Batches(res.fields, TableExtraction(spec, res.schema, env).chunks)
  }

  /** The specification as the run writes it back. */
  function WrittenBack(spec: TableSpec, res: Resolved, env: TableEnv): TableSpec {
    var e := TableExtraction(spec, res.schema, env);
    if e.exhausted && IsIncremental(spec) then AdvanceCursor(spec, env.prescan.value.targetValue) else spec
  }

  /** One iteration of the table loop. */
  function TableRun(spec: TableSpec, env: TableEnv, reservedKeywords: set<string>, dtMappings: map<string, string>,
                    catalog: Catalog, dumps: seq<Dump>): (r: TableOutcome)
    ensures r.err.Some? ==> r.spec == spec && r.catalog == catalog && r.dumps == dumps && r.calls == []
    ensures r.spec.(cursor := spec.cursor) == spec
  {
    match Prepared(spec, env, reservedKeywords, dtMappings)
    case Failure(e) => TableOutcome(Some(e), spec, catalog, dumps, [])
    case Success(p) =>
      CursorPersistence(spec, env, p.0);
      Replicated(spec, env, p.0, p.1, catalog, dumps)
  }

  /**
   * REPLACE: the first call recreates the destination with the resolved
   * Arrow schema, and then every batch is appended, in batch order.
   */
  lemma ReplaceRecreatesThenAppends(spec: TableSpec, env: TableEnv, res: Resolved, catalog: Catalog,
                                    dumps: seq<Dump>)
    ensures var r := Replicated(spec, env, res, Helper.REPLACE, catalog, dumps);
            var batches := TableBatches(spec, res, env);
            && |r.calls| == 1 + |batches|
            && r.calls[0] == Recreate(TargetId(spec), res.fields)
            && forall j :: 0 <= j < |batches| ==> r.calls[1 + j] == Append(TargetId(spec), batches[j])
  {
    var s := StartState(spec, res, Helper.REPLACE, catalog, dumps);
    var batches := TableBatches(spec, res, env);
    var r := Route(s, TargetId(spec), false, batches, env.faults);
    assert Replicated(spec, env, res, Helper.REPLACE, catalog, dumps).calls == r.calls;
    assert s.calls == [Recreate(TargetId(spec), res.fields)] && !s.overwrite;
    AppendsOnly(s, TargetId(spec), batches, env.faults);
    assert r.calls[0] == r.calls[..|s.calls|][0];
    forall j | 0 <= j < |batches| ensures r.calls[1 + j] == Append(TargetId(spec), batches[j]) {
      assert r.calls[|s.calls| + j] == Append(TargetId(spec), batches[j]);
    }
  }

  /**
   * APPEND and READONLY alike: one append per batch, in batch order, and
   * no other call.
   */
  lemma AppendModesAppend(spec: TableSpec, env: TableEnv, res: Resolved, mode: Helper.AccessMode, catalog: Catalog,
                          dumps: seq<Dump>)
    requires mode == Helper.APPEND || mode == Helper.READONLY
    ensures var r := Replicated(spec, env, res, mode, catalog, dumps);
            var batches := TableBatches(spec, res, env);
            && |r.calls| == |batches|
            && forall j :: 0 <= j < |batches| ==> r.calls[j] == Append(TargetId(spec), batches[j])
  {
    var s := StartState(spec, res, mode, catalog, dumps);
    var batches := TableBatches(spec, res, env);
    var r := Route(s, TargetId(spec), false, batches, env.faults);
    assert Replicated(spec, env, res, mode, catalog, dumps).calls == r.calls;
    assert s == LoopState(catalog, dumps, [], false);
    AppendsOnly(s, TargetId(spec), batches, env.faults);
    forall j | 0 <= j < |batches| ensures r.calls[j] == Append(TargetId(spec), batches[j]) {
      assert r.calls[|s.calls| + j] == Append(TargetId(spec), batches[j]);
    }
  }

  /** Outside OVERWRITE and UPSERT the loop appends every batch, in order, after the calls made before it. */
  lemma AppendsOnly(s: LoopState, id: string, batches: seq<Batch>, faults: seq<Fault>)
    requires !s.overwrite
    ensures var r := Route(s, id, false, batches, faults);
            && |r.calls| == |s.calls| + |batches|
            && r.calls[..|s.calls|] == s.calls
            && forall j :: 0 <= j < |batches| ==> r.calls[|s.calls| + j] == Append(id, batches[j])
  {
    var r := Route(s, id, false, batches, faults);
    RouteExtends(s, id, false, batches, faults);
    forall j | 0 <= j < |batches|
      ensures r.calls[|s.calls| + j] == Append(id, batches[j])
    {
      RouteCallAt(s, id, false, batches, faults, j);
    }
  }

  /**
   * The specification written back for a table differs from the one read
   * at most in its cursor value, which becomes the pre-scan's value exactly
   * when the table is incremental and the extraction ran to exhaustion;
   * for an incremental table that is when the pre-scan found rows and no
   * fetch raised.
   */
  lemma CursorPersistence(spec: TableSpec, env: TableEnv, res: Resolved)
    ensures var r := WrittenBack(spec, res, env);
            && r.(cursor := spec.cursor) == spec
            && (r != spec ==> IsIncremental(spec) && TableExtraction(spec, res.schema, env).exhausted)
            && (IsIncremental(spec) && TableExtraction(spec, res.schema, env).exhausted ==>
                  r.cursor == Some(spec.cursor.value.(value := env.prescan.value.targetValue)))
  {
  }

  /**
   * The extraction runs to exhaustion exactly when the pre-scan found rows
   * and no fetch raised.
   */
  lemma ExhaustedWhen(spec: TableSpec, env: TableEnv, res: Resolved)
    ensures TableExtraction(spec, res.schema, env).exhausted
        <==> env.prescan.Some? && env.prescan.value.size > 0
             && FetchUntil(env.rows, SpecBatchSize(spec), env.failAt).exhausted
  {
    TableQueryBuilt(spec, res.schema);
  }

  /** The outcome of the whole run: the error that ended it, if any, and the specifications written back. */
  datatype RunOutcome = RunOutcome(err: Option<Error>, specs: seq<TableSpec>, catalog: Catalog, dumps: seq<Dump>,
                                   calls: seq<Call>)

  /** What one iteration of the table loop makes of a table, its answers and the destination. */
  type TableStep = (TableSpec, TableEnv, Catalog, seq<Dump>) -> TableOutcome

  /**
   * The table loop with `step` as its body: the tables in configuration
   * order, each on the destination the previous ones left; the first table
   * that raises ends the run with its own and all later specifications as
   * they were read.
   */
  function RunTables(specs: seq<TableSpec>, envs: seq<TableEnv>, step: TableStep, catalog: Catalog,
                     dumps: seq<Dump>): (r: RunOutcome)
    requires |envs| == |specs|
    ensures |r.specs| == |specs|
    decreases |specs|
  {
    if specs == [] then RunOutcome(None, [], catalog, dumps, [])
    else
      var t := step(specs[0], envs[0], catalog, dumps);
      if t.err.Some? then RunOutcome(t.err, specs, catalog, dumps, [])
      else
        var rest := RunTables(specs[1..], envs[1..], step, t.catalog, t.dumps);
        RunOutcome(rest.err, [t.spec] + rest.specs, rest.catalog, rest.dumps, t.calls + rest.calls)
  }

  /** The loop of `main` over the configuration's tables. */
  function RunAll(specs: seq<TableSpec>, envs: seq<TableEnv>, reservedKeywords: set<string>,
                  dtMappings: map<string, string>, catalog: Catalog, dumps: seq<Dump>): RunOutcome
    requires |envs| == |specs|
  {
    RunTables(specs, envs, TableSteps(reservedKeywords, dtMappings), catalog, dumps)
  }

  /** `TableRun` as the step of the table loop. */
  function TableSteps(reservedKeywords: set<string>, dtMappings: map<string, string>): TableStep {
    (s, e, c, d) => TableRun(s, e, reservedKeywords, dtMappings, c, d)
  }

  /** `step` is `TableRun` under the reserved words and the type mappings. */
  ghost predicate StepIsTableRun(step: TableStep, reservedKeywords: set<string>, dtMappings: map<string, string>) {
    forall s, e, c, d {:trigger TableRun(s, e, reservedKeywords, dtMappings, c, d)} ::
      step(s, e, c, d) == TableRun(s, e, reservedKeywords, dtMappings, c, d)
  }

  /**
   * The table step of a run, as a value the loop's proof can carry without
   * unfolding it: it agrees with `TableRun` wherever `TableRun` is applied,
   * and running the tables with it is `RunAll`.
   */
  lemma TableRunStep(reservedKeywords: set<string>, dtMappings: map<string, string>) returns (step: TableStep)
    ensures StepIsTableRun(step, reservedKeywords, dtMappings)
  {
    step := TableSteps(reservedKeywords, dtMappings);
  }

  /** Two steps that agree everywhere run the tables alike. */
  lemma {:induction false} RunTablesAgree(specs: seq<TableSpec>, envs: seq<TableEnv>, step: TableStep,
                                          other: TableStep, catalog: Catalog, dumps: seq<Dump>)
    requires |envs| == |specs|
    requires forall s, e, c, d :: step(s, e, c, d) == other(s, e, c, d)
    ensures RunTables(specs, envs, step, catalog, dumps) == RunTables(specs, envs, other, catalog, dumps)
    decreases |specs|
  {
    if specs != [] {
      var t := step(specs[0], envs[0], catalog, dumps);
      RunTablesAgree(specs[1..], envs[1..], step, other, t.catalog, t.dumps);
    }
  }

  /** Running the tables with a step that is `TableRun` is `RunAll`. */
  lemma RunTablesIsRunAll(specs: seq<TableSpec>, envs: seq<TableEnv>, step: TableStep, reservedKeywords: set<string>,
                          dtMappings: map<string, string>, catalog: Catalog, dumps: seq<Dump>)
    requires |envs| == |specs|
    requires StepIsTableRun(step, reservedKeywords, dtMappings)
    ensures RunTables(specs, envs, step, catalog, dumps) == RunAll(specs, envs, reservedKeywords, dtMappings, catalog, dumps)
  {
    RunTablesAgree(specs, envs, step, TableSteps(reservedKeywords, dtMappings), catalog, dumps);
  }

  /** The table loop from the table at `i` on, given what that table's iteration produced. */
  lemma RunTablesFrom(specs: seq<TableSpec>, envs: seq<TableEnv>, step: TableStep, catalog: Catalog,
                      dumps: seq<Dump>, i: nat, t: TableOutcome)
    requires |envs| == |specs| && i < |specs|
    requires t == step(specs[i], envs[i], catalog, dumps)
    ensures t.err.Some? ==>
      RunTables(specs[i..], envs[i..], step, catalog, dumps) == RunOutcome(t.err, specs[i..], catalog, dumps, [])
    ensures t.err.None? ==>
      var rest := RunTables(specs[i + 1..], envs[i + 1..], step, t.catalog, t.dumps);
      RunTables(specs[i..], envs[i..], step, catalog, dumps)
      == RunOutcome(rest.err, [t.spec] + rest.specs, rest.catalog, rest.dumps, t.calls + rest.calls)
  {
    assert specs[i..][0] == specs[i] && specs[i..][1..] == specs[i + 1..];
    assert envs[i..][0] == envs[i] && envs[i..][1..] == envs[i + 1..];
  }

  /** The table loop's invariant carried past a table that went through. */
  lemma RunTablesAdvance(specs: seq<TableSpec>, envs: seq<TableEnv>, step: TableStep, catalog: Catalog,
                         dumps: seq<Dump>, i: nat, t: TableOutcome, done: seq<TableSpec>, calls: seq<Call>,
                         total: RunOutcome)
    requires |envs| == |specs| && i < |specs|
    requires t == step(specs[i], envs[i], catalog, dumps) && t.err.None?
    requires var rest := RunTables(specs[i..], envs[i..], step, catalog, dumps);
             total == RunOutcome(rest.err, done + rest.specs, rest.catalog, rest.dumps, calls + rest.calls)
    ensures var rest := RunTables(specs[i + 1..], envs[i + 1..], step, t.catalog, t.dumps);
            total == RunOutcome(rest.err, (done + [t.spec]) + rest.specs, rest.catalog, rest.dumps,
                                (calls + t.calls) + rest.calls)
  {
    RunTablesFrom(specs, envs, step, catalog, dumps, i, t);
    OutcomeRegrouped(total, RunTables(specs[i..], envs[i..], step, catalog, dumps),
                     RunTables(specs[i + 1..], envs[i + 1..], step, t.catalog, t.dumps), t, done, calls);
  }

  lemma OutcomeRegrouped(total: RunOutcome, here: RunOutcome, rest: RunOutcome, t: TableOutcome,
                         done: seq<TableSpec>, calls: seq<Call>)
    requires here == RunOutcome(rest.err, [t.spec] + rest.specs, rest.catalog, rest.dumps, t.calls + rest.calls)
    requires total == RunOutcome(here.err, done + here.specs, here.catalog, here.dumps, calls + here.calls)
    ensures total == RunOutcome(rest.err, (done + [t.spec]) + rest.specs, rest.catalog, rest.dumps,
                                (calls + t.calls) + rest.calls)
  {
    assert (done + [t.spec]) + rest.specs == done + here.specs;
    assert (calls + t.calls) + rest.calls == calls + here.calls;
  }

  /**
   * With a step that changes a specification at most in its cursor value,
   * the run's specifications agree with the configuration in all but the
   * cursor value, and the calls of a run whose first table went through
   * start with that table's calls.
   */
  lemma {:induction false} RunTablesInOrder(specs: seq<TableSpec>, envs: seq<TableEnv>, step: TableStep,
                                            catalog: Catalog, dumps: seq<Dump>)
    requires |envs| == |specs|
    requires forall s, e, c, d :: step(s, e, c, d).spec.(cursor := s.cursor) == s
    ensures var r := RunTables(specs, envs, step, catalog, dumps);
            forall i :: 0 <= i < |specs| ==> r.specs[i].(cursor := specs[i].cursor) == specs[i]
    ensures specs != [] ==>
      var r := RunTables(specs, envs, step, catalog, dumps);
      var t := step(specs[0], envs[0], catalog, dumps);
      t.err.None? ==> r.calls[..|t.calls|] == t.calls
    decreases |specs|
  {
    if specs != [] {
      var t := step(specs[0], envs[0], catalog, dumps);
      if t.err.None? {
        var rest := RunTables(specs[1..], envs[1..], step, t.catalog, t.dumps);
        RunTablesInOrder(specs[1..], envs[1..], step, t.catalog, t.dumps);
        var r := RunTables(specs, envs, step, catalog, dumps);
        assert r.specs == [t.spec] + rest.specs && r.calls == t.calls + rest.calls;
        forall i | 1 <= i < |specs| ensures r.specs[i].(cursor := specs[i].cursor) == specs[i] {
          assert r.specs[i] == rest.specs[i - 1] && specs[1..][i - 1] == specs[i];
        }
      }
    }
  }

  /**
   * Tables are processed one at a time in configuration order: the calls of
   * a run are those of its first table followed by those of the rest, and
   * the run's specifications agree with the configuration in all but the
   * cursor value.
   */
  lemma RunAllInOrder(specs: seq<TableSpec>, envs: seq<TableEnv>, reservedKeywords: set<string>,
                      dtMappings: map<string, string>, catalog: Catalog, dumps: seq<Dump>)
    requires |envs| == |specs|
    ensures var r := RunAll(specs, envs, reservedKeywords, dtMappings, catalog, dumps);
            forall i :: 0 <= i < |specs| ==> r.specs[i].(cursor := specs[i].cursor) == specs[i]
    ensures specs != [] ==>
      var r := RunAll(specs, envs, reservedKeywords, dtMappings, catalog, dumps);
      var t := TableRun(specs[0], envs[0], reservedKeywords, dtMappings, catalog, dumps);
      t.err.None? ==> r.calls[..|t.calls|] == t.calls
  {
    RunTablesInOrder(specs, envs, TableSteps(reservedKeywords, dtMappings), catalog, dumps);
  }

  /** The batch loop of `main` for one table, on the session. */
  method RouteBatches(session: IBSession, id: string, overwrite: bool, upsert: bool, batches: seq<Batch>,
                      faults: seq<Fault>, ghost calls0: seq<Call>) returns (ghost calls: seq<Call>)
    modifies session
    ensures var r := Route(LoopState(old(session.catalog), old(session.dumps), calls0, overwrite), id, upsert,
                           batches, faults);
            session.catalog == r.catalog && session.dumps == r.dumps && calls == r.calls
  {
    ghost var loopStart := LoopState(session.catalog, session.dumps, calls0, overwrite);
    calls := calls0;
    var overwriting := overwrite;
    var rest := batches;
    var restFaults := faults;
    while rest != []
      invariant Route(LoopState(session.catalog, session.dumps, calls, overwriting), id, upsert, rest, restFaults)
             == Route(loopStart, id, upsert, batches, faults)
      decreases |rest|
    {
      var batch := rest[0];
      var fault := if restFaults == [] then NoFault else restFaults[0];
      ghost var before := LoopState(session.catalog, session.dumps, calls, overwriting);
      if overwriting {
        var raised := session.OverwriteTable(id, batch, fault);
        calls := calls + [Overwrite(id, batch)];
        overwriting := raised;
      } else if upsert {
        session.UpsertTable(id, batch);
        calls := calls + [Upsert(id, batch)];
      } else {
        var raised := session.AppendTable(id, batch, fault);
        calls := calls + [Append(id, batch)];
      }
      assert LoopState(session.catalog, session.dumps, calls, overwriting) == Step(before, id, upsert, batch, fault);
      rest := rest[1..];
      restFaults := if restFaults == [] then [] else restFaults[1..];
    }
  }

  /**
   * Building the PostgreSQL table and resolving its schema: the table, or
   * the exception that ends the run.
   */
  method ReadTable(spec: TableSpec, env: TableEnv, reservedKeywords: set<string>, dtMappings: map<string, string>)
    returns (r: Result<PGTable, Error>)
    ensures var res := ReadSchema(env, reservedKeywords, dtMappings);
            && (r.Failure? <==> res.Failure?)
            && (r.Failure? ==> r.error == res.error)
            && (r.Success? ==>
                  && fresh(r.value) && fresh(r.value.table)
                  && r.value.table.spec == spec && r.value.table.name == Strip(spec.name)
                  && r.value.table.namespace == Strip(spec.namespace)
                  && r.value.table.filterExp == InitialFilter(spec.filterExp)
                  && r.value.table.cursorExp == ResolvedCursorExp(spec)
                  && r.value.table.schema == res.value.schema
                  && r.value.paSchema == res.value.fields)
  {
    var table := new PGTable(spec, reservedKeywords, dtMappings);
    ghost var res := ReadSchema(env, reservedKeywords, dtMappings);
    assert env.catalogRows.Some? ==>
      res == ResolveColumns(env.catalogRows.value, table.reservedKeywords, table.specialCharacters, table.dtMappings);
    var err := table.UpdateTableSpec(env.catalogRows);
    if err.Some? {
      return Failure(err.value);
    }
    assert table.table.spec == spec;
    return Success(table);
  }

  /**
   * Building the PostgreSQL table (which resolves its schema) and taking
   * its target: the table and the target, or the exception that ends the run.
   */
  method OpenTable(spec: TableSpec, env: TableEnv, reservedKeywords: set<string>, dtMappings: map<string, string>)
    returns (r: Result<(PGTable, Helper.Table), Error>)
    ensures var p := Prepared(spec, env, reservedKeywords, dtMappings);
            && (r.Failure? <==> p.Failure?)
            && (r.Failure? ==> r.error == p.error)
            && (r.Success? ==>
                  var (table, target) := r.value;
                  && fresh(table) && fresh(table.table)
                  && table.table.spec == spec && table.table.cursorExp == ResolvedCursorExp(spec)
                  && table.table.Query() == TableQuery(spec, p.value.0.schema)
                  && table.table.BatchSize() == SpecBatchSize(spec)
                  && table.paSchema == p.value.0.fields
                  && target.namespace + "." + target.name == TargetId(spec)
                  && target.accessMode == p.value.1)
  {
    var table := ReadTable(spec, env, reservedKeywords, dtMappings);
    if table.Failure? {
      return Failure(table.error);
    }
    var target := table.value.table.Target();
    if target.Failure? {
      return Failure(target.error);
    }
    return Success((table.value, target.value));
  }

  /**
   * The body of the table loop once the table is read and its target
   * taken: recreate in REPLACE mode, extract the batches, and route them.
   */
  method ReplicateOpened(table: PGTable, target: Helper.Table, env: TableEnv, session: IBSession,
                         ghost spec: TableSpec, ghost res: Resolved, ghost mode: Helper.AccessMode)
    returns (newSpec: TableSpec, ghost calls: seq<Call>)
    requires table.table.spec == spec && table.paSchema == res.fields
    requires table.table.Query() == TableQuery(spec, res.schema)
    requires table.table.BatchSize() == SpecBatchSize(spec)
    requires target.namespace + "." + target.name == TargetId(spec) && target.accessMode == mode
    modifies session, table.table`spec
    ensures TableOutcome(None, newSpec, session.catalog, session.dumps, calls)
         == Replicated(spec, env, res, mode, old(session.catalog), old(session.dumps))
  {
    var id := target.namespace + "." + target.name;
    calls := [];
    if target.accessMode == Helper.REPLACE {
      session.RecreateTable(id, table.paSchema);
      calls := [Recreate(id, table.paSchema)];
    }
    assert LoopState(session.catalog, session.dumps, calls, target.accessMode == Helper.OVERWRITE)
        == StartState(spec, res, mode, old(session.catalog), old(session.dumps));
    var batches := table.GetBatches(env.prescan, env.rows, env.failAt);
    assert batches == TableBatches(spec, res, env);
    assert table.table.spec == WrittenBack(spec, res, env);
    calls := RouteBatches(session, id, target.accessMode == Helper.OVERWRITE, target.accessMode == Helper.UPSERT,
                          batches, env.faults, calls);
    return table.table.spec, calls;
  }

  /** The body of the table loop for one table; `step` is `TableRun`. */
  method ReplicateTable(spec: TableSpec, env: TableEnv, reservedKeywords: set<string>, dtMappings: map<string, string>,
                        session: IBSession, ghost step: TableStep)
    returns (err: Option<Error>, newSpec: TableSpec, ghost calls: seq<Call>)
    requires StepIsTableRun(step, reservedKeywords, dtMappings)
    modifies session
    ensures TableOutcome(err, newSpec, session.catalog, session.dumps, calls)
         == step(spec, env, old(session.catalog), old(session.dumps))
    ensures err.Some? ==> session.catalog == old(session.catalog) && session.dumps == old(session.dumps)
  {
    ghost var outcome := TableRun(spec, env, reservedKeywords, dtMappings, session.catalog, session.dumps);
    assert step(spec, env, session.catalog, session.dumps) == outcome;
    var got := OpenTable(spec, env, reservedKeywords, dtMappings);
    if got.Failure? {
      assert outcome == TableOutcome(Some(got.error), spec, session.catalog, session.dumps, []);
      return Some(got.error), spec, [];
    }
    var (table, target) := got.value;
    ghost var p := Prepared(spec, env, reservedKeywords, dtMappings).value;
    newSpec, calls := ReplicateOpened(table, target, env, session, spec, p.0, p.1);
    err := None;
  }

  /**
   * One iteration of the loop of `main` over the tables: the table at `i`
   * is replicated, and its specification, as the run writes it back,
   * replaces the source's entry. `total` is the outcome of the whole run,
   * and the loop's invariant relates it to the tables still to come.
   */
  method ReplicateNext(source: RDBSource, session: IBSession, envs: seq<TableEnv>, reservedKeywords: set<string>,
                       dtMappings: map<string, string>, i: nat, ghost specs: seq<TableSpec>, ghost step: TableStep,
                       ghost total: RunOutcome, ghost calls: seq<Call>)
    returns (err: Option<Error>, ghost newCalls: seq<Call>)
    requires i < |source.tables| == |specs| == |envs|
    requires source.tables[i..] == specs[i..]
    requires StepIsTableRun(step, reservedKeywords, dtMappings)
    requires var rest := RunTables(specs[i..], envs[i..], step, session.catalog, session.dumps);
             total == RunOutcome(rest.err, source.tables[..i] + rest.specs, rest.catalog, rest.dumps, calls + rest.calls)
    modifies source`tables, session
    ensures |source.tables| == |specs|
    ensures err.Some? ==> total == RunOutcome(err, source.tables, session.catalog, session.dumps, newCalls)
    ensures err.None? ==>
      && source.tables[i + 1..] == specs[i + 1..]
      && var rest := RunTables(specs[i + 1..], envs[i + 1..], step, session.catalog, session.dumps);
         total == RunOutcome(rest.err, source.tables[..i + 1] + rest.specs, rest.catalog, rest.dumps,
                             newCalls + rest.calls)
  {
    ghost var c0, d0 := session.catalog, session.dumps;
    ghost var prefix := source.tables[..i];
    assert source.tables[i] == specs[i];
    var e, newSpec, tableCalls := ReplicateTable(source.tables[i], envs[i], reservedKeywords, dtMappings, session, step);
    ghost var t := TableOutcome(e, newSpec, session.catalog, session.dumps, tableCalls);
    if e.Some? {
      RunTablesFrom(specs, envs, step, c0, d0, i, t);
      assert prefix + specs[i..] == source.tables;
      return e, calls;
    }
    RunTablesAdvance(specs, envs, step, c0, d0, i, t, prefix, calls, total);
    source.tables := source.tables[i := newSpec];
    assert source.tables[..i + 1] == prefix + [newSpec];
    assert source.tables[i + 1..] == specs[i + 1..];
    return None, calls + tableCalls;
  }

  /**
   * The loop of `main` over the configuration's tables. The specification
   * of each table replicated is written back into the source's list, as
   * the reader's in-place update of the shared entry does; an error ends
   * the loop and is returned.
   */
  method Replicate(source: RDBSource, session: IBSession, envs: seq<TableEnv>, reservedKeywords: set<string>,
                   dtMappings: map<string, string>) returns (err: Option<Error>, ghost calls: seq<Call>)
    requires |envs| == |source.tables|
    modifies source`tables, session
    ensures RunOutcome(err, source.tables, session.catalog, session.dumps, calls)
         == RunAll(old(source.tables), envs, reservedKeywords, dtMappings, old(session.catalog), old(session.dumps))
  {
    ghost var specs := source.tables;
    ghost var step := TableRunStep(reservedKeywords, dtMappings);
    ghost var total := RunTables(specs, envs, step, session.catalog, session.dumps);
    calls := [];
    err := None;
    var i := 0;
    assert specs[0..] == specs && envs[0..] == envs;
    while i < |source.tables|
      invariant 0 <= i <= |source.tables| == |specs|
      invariant err == None
      invariant source.tables[i..] == specs[i..]
      invariant var rest := RunTables(specs[i..], envs[i..], step, session.catalog, session.dumps);
                total == RunOutcome(rest.err, source.tables[..i] + rest.specs, rest.catalog, rest.dumps, calls + rest.calls)
      decreases |source.tables| - i
    {
      err, calls := ReplicateNext(source, session, envs, reservedKeywords, dtMappings, i, specs, step, total, calls);
      if err.Some? {
        assert total == RunOutcome(err, source.tables, session.catalog, session.dumps, calls);
        RunTablesIsRunAll(specs, envs, step, reservedKeywords, dtMappings, old(session.catalog), old(session.dumps));
        return;
      }
      i := i + 1;
    }
    assert source.tables[..i] == source.tables;
    assert total == RunOutcome(err, source.tables, session.catalog, session.dumps, calls);
    RunTablesIsRunAll(specs, envs, step, reservedKeywords, dtMappings, old(session.catalog), old(session.dumps));
  }
}
