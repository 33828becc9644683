// The persisted states of the Python bot (legacy/loadable.py): a Loadable object reads its
// attributes back from a JSON file when the file's version matches its own, and DictStore keeps
// a list of records that it writes back after every change. The file system is an input (what
// the file holds, or that it is missing or unreadable) and writing is recorded in a `saved`
// copy of what was written last.

module Stores {
  import opened Text
  import opened Collections

  /** A JSON value as Python's json module yields it (floats are not modelled). */
  datatype Json = JNull | JBool(b: bool) | JInt(i: int) | JStr(s: string) | JList(items: seq<Json>) | JObj(fields: map<string, Json>)

  /** What is found at the state's path. */
  datatype StoredFile = Missing | Unreadable | Present(content: Json)

  /** Python's `loaded["version"] == self.version`: a JSON bool compares as 0 or 1. */
  predicate VersionMatches(j: Json, version: int) {
    j == JInt(version) || (j == JBool(version == 1) && (version == 0 || version == 1))
  }

  predicate IsDunder(attr: string) {
    StartsWith(attr, "__")
  }

  /** The attributes after the copy loop has handled the keys in `done`: an attribute of the
      object that the file holds, and whose name does not start with "__", takes the file's
      value; every other attribute keeps its own. */
  function CopyAttrs(attrs: map<string, Json>, loaded: map<string, Json>, done: set<string>): (r: map<string, Json>)
    ensures r.Keys == attrs.Keys
  {
    map a | a in attrs :: if a in done && a in loaded && !IsDunder(a) then loaded[a] else attrs[a]
  }

  /** The outcome of `_load`: the new attributes and whether the state is written back. */
  datatype LoadOutcome = Copied(attrs: map<string, Json>) | Migrate(loaded: map<string, Json>) | Reinitialise

  /** `_load` (legacy/loadable.py:28-48). A missing file is created from the defaults; a file
      that cannot be read, is not a JSON object or has no "version" raises inside the try and
      is overwritten with the defaults; a version other than the object's calls `_migrate`. */
  function LoadStep(attrs: map<string, Json>, version: int, file: StoredFile): LoadOutcome {
    match file
    case Missing => Reinitialise
    case Unreadable => Reinitialise
    case Present(j) =>
      if !j.JObj? || "version" !in j.fields then Reinitialise
      else if VersionMatches(j.fields["version"], version) then Copied(CopyAttrs(attrs, j.fields, j.fields.Keys))
      else Migrate(j.fields)
  }

  /** Loading keeps the attribute names, never touches a "__" attribute, and gives every other
      attribute the file holds the file's value. */
  lemma LoadCopiesOnlyOwnAttributes(attrs: map<string, Json>, version: int, file: StoredFile)
    requires LoadStep(attrs, version, file).Copied?
    ensures var r := LoadStep(attrs, version, file).attrs;
            && r.Keys == attrs.Keys
            && (forall a :: a in attrs && IsDunder(a) ==> r[a] == attrs[a])
            && (forall a :: a in attrs && a !in file.content.fields ==> r[a] == attrs[a])
            && (forall a :: a in attrs && a in file.content.fields && !IsDunder(a) ==> r[a] == file.content.fields[a])
  {
  }

  /** Reading back a file that holds the object's own attributes and version changes nothing,
      and loading the same file twice gives what loading it once gives. */
  lemma LoadOfOwnSnapshot(attrs: map<string, Json>, version: int)
    requires "version" !in attrs
    ensures LoadStep(attrs, version, Present(JObj(attrs[ "version" := JInt(version)]))) == Copied(attrs)
  {
    var f := attrs["version" := JInt(version)];
    assert forall a :: a in attrs ==> a in f && f[a] == attrs[a];
  }

  lemma LoadTwice(attrs: map<string, Json>, version: int, file: StoredFile)
    requires LoadStep(attrs, version, file).Copied?
    ensures LoadStep(LoadStep(attrs, version, file).attrs, version, file) == LoadStep(attrs, version, file)
  {
  }

  /** A Loadable object: its instance attributes (other than "version"), its version, what was
      written to its file last, and the files handed to `_migrate`. */
  class Loadable {
    var attrs: map<string, Json>
    const version: int
    var saved: Option<map<string, Json>>
    var migrations: seq<map<string, Json>>

    constructor(attrs: map<string, Json>, version: int)
      ensures this.attrs == attrs && this.version == version && saved == None && migrations == []
    {
      this.attrs := attrs;
      this.version := version;
      saved := None;
      migrations := [];
    }

    /** `_store` (legacy/loadable.py:20-26) writes the current attributes. */
    method Store()
      modifies this
      ensures saved == Some(attrs) && attrs == old(attrs) && migrations == old(migrations)
    {
      saved := Some(attrs);
    }

    /** `_load` (legacy/loadable.py:28-48): the copy loop sets one attribute per key of the file
        that passes the test, and the state is then written back. */
    method Load(file: StoredFile)
      modifies this
      ensures match LoadStep(old(attrs), version, file)
              case Copied(a) => attrs == a && saved == Some(a) && migrations == old(migrations)
              case Migrate(l) => attrs == old(attrs) && saved == old(saved) && migrations == old(migrations) + [l]
              case Reinitialise => attrs == old(attrs) && saved == Some(attrs) && migrations == old(migrations)
    {
      if file.Missing? || file.Unreadable? {
        Store();
        return;
      }
      var j := file.content;
      if !j.JObj? || "version" !in j.fields {
        Store();
        return;
      }
      if !VersionMatches(j.fields["version"], version) {
        Migrate(j.fields);
        return;
      }
      var keys := j.fields.Keys;
      ghost var start := attrs;
      while keys != {}
        invariant keys <= j.fields.Keys
        invariant attrs == CopyAttrs(start, j.fields, j.fields.Keys - keys)
        invariant migrations == old(migrations)
        decreases |keys|
      {
        var a :| a in keys;
        if !IsDunder(a) && a in attrs {
          attrs := attrs[a := j.fields[a]];
        }
        keys := keys - {a};
      }
      assert j.fields.Keys - keys == j.fields.Keys;
      Store();
    }

    /** `_migrate` (legacy/loadable.py:50-56) does nothing by default; the call is recorded. */
    method Migrate(loaded: map<string, Json>)
      modifies this
      ensures attrs == old(attrs) && saved == old(saved) && migrations == old(migrations) + [loaded]
    {
      migrations := migrations + [loaded];
    }
  }

  // ---------------------------------------------------------------------------
  // DictStore

  /** The state a DictStore loads: its list of records when a file of version 1 holds one under
      "_data" (legacy/loadable.py:64-67). */
  function DictStoreData(file: StoredFile): seq<Json> {
    match LoadStep(map["_data" := JList([])], 1, file)
    case Copied(a) => if "_data" in a && a["_data"].JList? then a["_data"].items else []
    case Migrate(_) => []
    case Reinitialise => []
  }

  /** A version-1 file with a list of records gives those records back. */
  lemma DictStoreReadsItsRecords(records: seq<Json>)
    ensures DictStoreData(Present(JObj(map["version" := JInt(1), "_data" := JList(records)]))) == records
  {
    var f := map["version" := JInt(1), "_data" := JList(records)];
    assert "_data"[..2] != "__" by {
      assert "_data"[..2][1] == 'd';
    }
    assert CopyAttrs(map["_data" := JList([])], f, f.Keys)["_data"] == JList(records);
  }

  class DictStore {
    var data: seq<Json>
    /** What was written to the file last. */
    var saved: Option<seq<Json>>

    /** __init__ (legacy/loadable.py:64-67): `_load` writes the state back unless the file
        has another version. */
    constructor(file: StoredFile)
      ensures data == DictStoreData(file)
      ensures saved == (if LoadStep(map["_data" := JList([])], 1, file).Migrate? then None else Some(data))
    {
      var d := DictStoreData(file);
      data := d;
      saved := if LoadStep(map["_data" := JList([])], 1, file).Migrate? then None else Some(d);
    }

    /** add_data (legacy/loadable.py:69-76) appends the record and writes the state. */
    method AddData(x: Json)
      modifies this
      ensures data == old(data) + [x] && saved == Some(data)
    {
      data := data + [x];
      saved := Some(data);
    }

    /** remove_data (legacy/loadable.py:78-86) removes the first equal record and writes the
        state; an absent record changes nothing and nothing is written. */
    method RemoveData(x: Json)
      modifies this
      ensures x in old(data) ==> data == RemoveFirst(old(data), x) && saved == Some(data)
      ensures x !in old(data) ==> data == old(data) && saved == old(saved)
    {
      if x in data {
        data := RemoveFirst(data, x);
        saved := Some(data);
      }
    }

    /** data (legacy/loadable.py:88-94). */
    function Data(): seq<Json>
      reads this
    {
      data
    }
  }
}
