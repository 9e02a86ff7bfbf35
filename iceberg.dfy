/**
 * The destination writer: a session on an Iceberg catalog that creates,
 * recreates, appends to and overwrites tables, and dumps a batch it could
 * not write.
 *
 * The catalog is a map from a table identifier (`namespace.name`) to the
 * table's schema and rows. Whether a catalog call raises is a parameter of
 * each write: `LoadFails` when loading the table raises anything but "no
 * such table" (the exception leaves the write), `WriteFails` when the
 * append or overwrite itself raises (the write catches it and dumps the
 * batch). A dump is recorded as an event; its file is not modelled.
 */
module Iceberg {
  import opened Types

  datatype IcebergTable = IcebergTable(schema: Schema, rows: seq<Row>)

  type Catalog = map<string, IcebergTable>

  /** How the catalog answers one append or overwrite. */
  datatype Fault = NoFault | LoadFails | WriteFails

  /** A batch that could not be written, as `dump_table` receives it. */
  datatype Dump = Dump(table: string, data: Batch)

  /** What a write leaves behind: the catalog, the dumps so far, and whether an exception left the call. */
  datatype WriteResult = WriteResult(catalog: Catalog, dumps: seq<Dump>, raised: bool)

  /**
   * `create_table`: a new table with the schema and no rows when the
   * identifier is free; an existing table ("already exists") is kept as it is.
   */
  function Created(catalog: Catalog, id: string, schema: Schema): Catalog {
    if id in catalog then catalog else catalog[id := IcebergTable(schema, [])]
  }

  /**
   * After a create the identifier is in the catalog: an existing table is
   * untouched, an absent one has the schema and no rows, and every other
   * table is as it was.
   */
  lemma CreatedSpec(catalog: Catalog, id: string, schema: Schema)
    ensures var r := Created(catalog, id, schema);
      && id in r
      && (id in catalog ==> r == catalog)
      && (id !in catalog ==> r[id] == IcebergTable(schema, []))
      && r.Keys == catalog.Keys + {id}
      && forall other :: other in catalog ==> r[other] == catalog[other]
  {
  }

  /** `recreate_table`: drop the table if it exists ("no such table" is tolerated), then create it. */
  function Recreated(catalog: Catalog, id: string, schema: Schema): Catalog {
    Created(catalog - {id}, id, schema)
  }

  /**
   * After a recreate the table exists with the schema and no rows, whether
   * or not it existed before, and every other table is as it was.
   */
  lemma RecreatedIsFresh(catalog: Catalog, id: string, schema: Schema)
    ensures Recreated(catalog, id, schema) == catalog[id := IcebergTable(schema, [])]
  {
    var r := Recreated(catalog, id, schema);
    assert r.Keys == catalog.Keys + {id};
    forall other | other in r
      ensures r[other] == catalog[id := IcebergTable(schema, [])][other]
    {
      if other != id {
        assert other in catalog - {id};
      }
    }
  }

  /**
   * `append_table` (`overwrite` false) and `overwrite_table` (`overwrite`
   * true). An exception from loading the table leaves the call and changes
   * nothing. Otherwise an absent table is first created with the batch's
   * schema; then the batch is appended to the rows or replaces them, or,
   * when that raises, the batch is dumped once and the call returns normally.
   */
  function Write(catalog: Catalog, dumps: seq<Dump>, id: string, data: Batch, fault: Fault,
                 overwrite: bool): WriteResult
  {
    if fault == LoadFails then WriteResult(catalog, dumps, true)
    else
      var created := Created(catalog, id, data.schema);
      if fault == WriteFails then WriteResult(created, dumps + [Dump(id, data)], false)
      else
        var rows := if overwrite then data.rows else created[id].rows + data.rows;
        WriteResult(created[id := created[id].(rows := rows)], dumps, false)
  }

  /**
   * An exception from loading leaves the write and changes nothing.
   * Otherwise the table exists afterwards, with the schema it had or,
   * when it was absent, the batch's schema. A failing write dumps the
   * batch once and leaves the rows as they were. A clean overwrite makes
   * the rows the batch's; a clean append adds the batch after the rows.
   * No other table changes.
   */
  lemma WriteSpec(catalog: Catalog, dumps: seq<Dump>, id: string, data: Batch, fault: Fault, overwrite: bool)
    ensures var r := Write(catalog, dumps, id, data, fault, overwrite);
      && (r.raised <==> fault == LoadFails)
      && (fault == LoadFails ==> r.catalog == catalog && r.dumps == dumps)
      && (fault != LoadFails ==> id in r.catalog)
      && (fault != LoadFails && id !in catalog ==> r.catalog[id].schema == data.schema)
      && (fault != LoadFails && id in catalog ==> r.catalog[id].schema == catalog[id].schema)
      && (fault == WriteFails ==>
            r.catalog == Created(catalog, id, data.schema) && r.dumps == dumps + [Dump(id, data)])
      && (fault == NoFault ==> r.dumps == dumps)
      && (fault == NoFault && overwrite ==> r.catalog[id].rows == data.rows)
      && (fault == NoFault && !overwrite ==>
            r.catalog[id].rows == (if id in catalog then catalog[id].rows else []) + data.rows)
      && (r.catalog.Keys == catalog.Keys || r.catalog.Keys == catalog.Keys + {id})
      && forall other :: other in catalog && other != id ==> r.catalog[other] == catalog[other]
  {
    CreatedSpec(catalog, id, data.schema);
  }

  /** On a table that already exists, a clean append adds the batch after its rows. */
  lemma AppendExtends(catalog: Catalog, dumps: seq<Dump>, id: string, data: Batch)
    requires id in catalog
    ensures var r := Write(catalog, dumps, id, data, NoFault, false);
            r.catalog == catalog[id := IcebergTable(catalog[id].schema, catalog[id].rows + data.rows)]
  {
    var r := Write(catalog, dumps, id, data, NoFault, false);
    assert r.catalog.Keys == catalog.Keys;
  }

  /** Overwriting twice with the same batch leaves what overwriting once left. */
  lemma OverwriteIdempotent(catalog: Catalog, dumps: seq<Dump>, id: string, data: Batch)
    ensures var once := Write(catalog, dumps, id, data, NoFault, true);
            Write(once.catalog, once.dumps, id, data, NoFault, true) == once
  {
    var once := Write(catalog, dumps, id, data, NoFault, true);
    var twice := Write(once.catalog, once.dumps, id, data, NoFault, true);
    assert twice.catalog.Keys == once.catalog.Keys;
  }

  /** A session on one catalog. */
  class IBSession {
    var catalog: Catalog
    /** Every batch `dump_table` was called with, in call order. */
    var dumps: seq<Dump>

    constructor (catalog: Catalog)
      ensures this.catalog == catalog && dumps == []
    {
      this.catalog := catalog;
      dumps := [];
    }

    method CreateTable(table: string, schema: Schema)
      modifies this`catalog
      ensures catalog == Created(old(catalog), table, schema)
    {
      if table !in catalog {
        catalog := catalog[table := IcebergTable(schema, [])];
      }
    }

    method RecreateTable(table: string, schema: Schema)
      modifies this`catalog
      ensures catalog == Recreated(old(catalog), table, schema)
      ensures catalog == old(catalog)[table := IcebergTable(schema, [])]
    {
      catalog := catalog - {table};
      CreateTable(table, schema);
      RecreatedIsFresh(old(catalog), table, schema);
    }

    /** `alter_table` has no body in this version: nothing changes. */
    method AlterTable(table: string, schema: Schema)
      ensures unchanged(this)
    {
    }

    /** `upsert_table` has no body in this version: nothing changes. */
    method UpsertTable(table: string, data: Batch)
      ensures unchanged(this)
    {
    }

    method DumpTable(table: string, data: Batch)
      modifies this`dumps
      ensures dumps == old(dumps) + [Dump(table, data)]
    {
      dumps := dumps + [Dump(table, data)];
    }

    /** The shared body of `append_table` and `overwrite_table`. */
    method WriteTable(table: string, data: Batch, fault: Fault, overwrite: bool) returns (raised: bool)
      modifies this
      ensures WriteResult(catalog, dumps, raised) == Write(old(catalog), old(dumps), table, data, fault, overwrite)
    {
      if fault == LoadFails {
        return true;
      }
      if table !in catalog {
        CreateTable(table, data.schema);
      }
      var dumpError := false;
      if fault == WriteFails {
        if !dumpError {
          DumpTable(table, data);
          dumpError := true;
        }
        return false;
      }
      var loaded := catalog[table];
      var rows := if overwrite then data.rows else loaded.rows + data.rows;
      catalog := catalog[table := loaded.(rows := rows)];
      return false;
    }

    method AppendTable(table: string, data: Batch, fault: Fault) returns (raised: bool)
      modifies this
      ensures WriteResult(catalog, dumps, raised) == Write(old(catalog), old(dumps), table, data, fault, false)
    {
      raised := WriteTable(table, data, fault, false);
    }

    method OverwriteTable(table: string, data: Batch, fault: Fault) returns (raised: bool)
      modifies this
      ensures WriteResult(catalog, dumps, raised) == Write(old(catalog), old(dumps), table, data, fault, true)
    {
      raised := WriteTable(table, data, fault, true);
    }
  }
}
