/**
 * The destination-side table entity: its write strategy (access mode), the
 * parsing of an access mode from configuration text, and the `Table`
 * record with its one mutable field, `columns`.
 */
module Helper {
  import opened Types
  import opened Text

  datatype AccessMode = READONLY | APPEND | UPSERT | OVERWRITE | REPLACE

  /** The member name of the mode in the Python enumeration. */
  function ModeName(m: AccessMode): string {
    match m
    case READONLY => "READONLY"
    case APPEND => "APPEND"
    case UPSERT => "UPSERT"
    case OVERWRITE => "OVERWRITE"
    case REPLACE => "REPLACE"
  }

  /**
   * `Table.access_mode_from_string`: the mode whose name is the upper-cased
   * text, or a ValueError naming the text when there is none.
   */
  function AccessModeFromString(mode: string): (r: Result<AccessMode, Error>)
    ensures forall m :: r == Success(m) <==> ModeName(m) == Upper(mode)
    ensures r.Failure? ==> r.error == ValueError("Invalid access mode string " + mode)
  {
    var key := Upper(mode);
    if key == "READONLY" then Success(READONLY)
    else if key == "APPEND" then Success(APPEND)
    else if key == "UPSERT" then Success(UPSERT)
    else if key == "OVERWRITE" then Success(OVERWRITE)
    else if key == "REPLACE" then Success(REPLACE)
    else Failure(ValueError("Invalid access mode string " + mode))
  }

  /** A mode's name parses back to the mode, in upper case and in lower case. */
  lemma AccessModeRoundTrip(m: AccessMode)
    ensures AccessModeFromString(ModeName(m)) == Success(m)
    ensures AccessModeFromString(Lower(ModeName(m))) == Success(m)
  {
    UpperOfLower(ModeName(m));
    assert Upper(ModeName(m)) == ModeName(m);
  }

  /** Parsing depends on the text only through its upper-case form. */
  lemma AccessModeCaseInsensitive(s: string, t: string)
    requires Upper(s) == Upper(t)
    ensures AccessModeFromString(s).Success? <==> AccessModeFromString(t).Success?
    ensures AccessModeFromString(s).Success? ==> AccessModeFromString(s) == AccessModeFromString(t)
  {
    if AccessModeFromString(s).Success? {
      var m := AccessModeFromString(s).value;
      assert ModeName(m) == Upper(t);
    }
  }

  /** A destination table: where and how a replicated table is written. */
  class Table {
    const namespace: string
    const name: string
    const accessMode: AccessMode
    var columns: seq<string>

    /** A new table keeps its arguments, defaults to READONLY and has no columns. */
    constructor (namespace: string, name: string, accessMode: AccessMode := READONLY)
      ensures this.namespace == namespace && this.name == name
      ensures this.accessMode == accessMode
      ensures columns == []
    {
      this.namespace := namespace;
      this.name := name;
      this.accessMode := accessMode;
      columns := [];
    }

    /** The `columns` setter replaces the list; the other fields are constants. */
    method SetColumns(columns: seq<string>)
      modifies this`columns
      ensures this.columns == columns
    {
      this.columns := columns;
    }
  }
}
