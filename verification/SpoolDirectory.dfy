/** The spool directory (webhook-spool.ts): writing a delivery and reading what is there. */
module SpoolDirectory {
  import opened Prelude
  import opened Sorting
  import opened GiftBodies
  import opened Gifts
  import opened Spool
  import opened GiftStore

  const FILE := ".json"
  const UNFINISHED := ".tmp"
  const UNFINISHED_KEPT_MS := 60 * 60 * 1000

  /** What a file parses to, if anything, and when it was last written. */
  datatype Stored = Stored(content: Option<Value>, modifiedMs: int)

  predicate EndsWith(s: string, end: string) { |end| <= |s| && s[|s| - |end|..] == end }

  /** A file a crash left half written, an hour old. */
  predicate Abandoned(name: string, file: Stored, asOf: int) {
    EndsWith(name, UNFINISHED) && asOf - file.modifiedMs > UNFINISHED_KEPT_MS
  }

  function EntryOf(name: string, file: Stored, asOf: int, readDate: string -> Option<int>): SpoolEntry {
    SpoolEntry(name, asOf - file.modifiedMs, ParseEntry(file.content, readDate))
  }

  predicate Finished(name: string) { !EndsWith(name, UNFINISHED) && EndsWith(name, FILE) }

  /** One entry for each finished file among these names, in their order. */
  function EntriesOf(names: seq<string>, files: map<string, Stored>, asOf: int,
      readDate: string -> Option<int>): seq<SpoolEntry> {
    if names == [] then [] else
      var name := names[|names| - 1];
      EntriesOf(names[..|names| - 1], files, asOf, readDate)
      + if name in files && Finished(name) then [EntryOf(name, files[name], asOf, readDate)] else []
  }

  lemma EntriesSnoc(names: seq<string>, name: string, files: map<string, Stored>, asOf: int,
      readDate: string -> Option<int>)
    ensures EntriesOf(names + [name], files, asOf, readDate) ==
      EntriesOf(names, files, asOf, readDate)
      + if name in files && Finished(name) then [EntryOf(name, files[name], asOf, readDate)] else []
  {
    assert (names + [name])[..|names|] == names;
  }

  // ---------- the listing ----------

  ghost predicate InNameOrder(entries: seq<SpoolEntry>) {
    forall i, j :: 0 <= i < j < |entries| ==> entries[i].file != entries[j].file && TextLe(entries[i].file, entries[j].file)
  }

  /** Exactly the finished files, each once, in the order of their names. */
  ghost predicate Lists(entries: seq<SpoolEntry>, files: map<string, Stored>, asOf: int, readDate: string -> Option<int>) {
    && InNameOrder(entries)
    && (forall e :: e in entries <==> e.file in files && Finished(e.file) && e == EntryOf(e.file, files[e.file], asOf, readDate))
  }

  lemma {:induction false} TextLeTotal(a: string, b: string)
    ensures TextLe(a, b) || TextLe(b, a)
  {
    if a != [] && b != [] && a[0] == b[0] { TextLeTotal(a[1..], b[1..]); }
  }

  lemma {:induction false} TextLeTransitive(a: string, b: string, c: string)
    requires TextLe(a, b) && TextLe(b, c)
    ensures TextLe(a, c)
  {
    if a != [] && a[0] == b[0] == c[0] { TextLeTransitive(a[1..], b[1..], c[1..]); }
  }

  lemma NamesRank(names: seq<string>)
    ensures Ranks(ByText(), names)
  {
    forall a: string, b: string ensures TextLe(a, b) || TextLe(b, a) { TextLeTotal(a, b); }
    forall a: string, b: string, c: string | TextLe(a, b) && TextLe(b, c) ensures TextLe(a, c) { TextLeTransitive(a, b, c); }
  }

  lemma {:induction false} EntriesAmong(names: seq<string>, files: map<string, Stored>, asOf: int, readDate: string -> Option<int>)
    ensures forall e :: e in EntriesOf(names, files, asOf, readDate) <==>
      e.file in names && e.file in files && Finished(e.file) && e == EntryOf(e.file, files[e.file], asOf, readDate)
  {
    if names != [] {
      EntriesAmong(names[..|names| - 1], files, asOf, readDate);
      assert names == names[..|names| - 1] + [names[|names| - 1]];
    }
  }

  lemma {:induction false} EntriesInOrder(names: seq<string>, files: map<string, Stored>, asOf: int, readDate: string -> Option<int>)
    requires Distinct(names) && Sorted(ByText(), names)
    ensures InNameOrder(EntriesOf(names, files, asOf, readDate))
  {
    if names != [] {
      var init, last := names[..|names| - 1], names[|names| - 1];
      EntriesInOrder(init, files, asOf, readDate);
      EntriesAmong(init, files, asOf, readDate);
      var before := EntriesOf(init, files, asOf, readDate);
      forall i | 0 <= i < |before| ensures before[i].file != last && TextLe(before[i].file, last) {
        assert before[i] in before;
        var k :| 0 <= k < |init| && init[k] == before[i].file;
        assert ByText()(names[k], names[|names| - 1]);
      }
    }
  }

  class Directory {
    var files: map<string, Stored>

    constructor ()
      ensures files == map[]
    {
      files := map[];
    }

    /** Written and synced under one name, then renamed; opened exclusively, so a name in use is refused. */
    method SpoolDelivery(name: string, row: Payload, iso: int -> string, now: int) returns (ok: bool)
      modifies this
      ensures ok <==> name + UNFINISHED !in old(files)
      ensures files == if ok then old(files)[name + FILE := Stored(Some(FileOf(row, iso)), now)] else old(files)
    {
      if name + UNFINISHED in files { return false; }
      assert (name + UNFINISHED)[|name|..] == UNFINISHED && (name + FILE)[|name|..] == FILE;
      files := files[name + UNFINISHED := Stored(None, now)];
      files := files[name + UNFINISHED := Stored(Some(FileOf(row, iso)), now)];
      files := (files - {name + UNFINISHED})[name + FILE := files[name + UNFINISHED]];
      return true;
    }

    /** The directory's names, in no order. */
    method Names() returns (names: seq<string>)
      ensures Distinct(names) && forall name :: name in names <==> name in files
    {
      names := [];
      var todo := files.Keys;
      while todo != {}
        invariant todo <= files.Keys && Distinct(names) && forall name :: name in names <==> name in files.Keys - todo
        decreases todo
      {
        var name :| name in todo;
        assert name !in names;
        names := names + [name];
        todo := todo - {name};
      }
    }

    /** Every finished file, and the abandoned ones cleared. */
    method ReadSpool(asOf: int, readDate: string -> Option<int>) returns (entries: seq<SpoolEntry>)
      modifies this
      ensures Lists(entries, old(files), asOf, readDate)
      ensures forall name :: name in files <==> name in old(files) && !Abandoned(name, old(files)[name], asOf)
      ensures forall name :: name in files ==> files[name] == old(files)[name]
    {
      var listed := Names();
      var names := Sort(ByText(), listed);
      NamesRank(listed);
      SortSorts(ByText(), listed);
      SortKeepsMembers(ByText(), listed);
      entries := Visit(names, asOf, readDate);
      EntriesInOrder(names, old(files), asOf, readDate);
      EntriesAmong(names, old(files), asOf, readDate);
    }

    /** The loop over the sorted names. */
    method Visit(names: seq<string>, asOf: int, readDate: string -> Option<int>) returns (entries: seq<SpoolEntry>)
      modifies this
      ensures entries == EntriesOf(names, old(files), asOf, readDate)
      ensures forall name :: name in files <==> name in old(files) && !(name in names && Abandoned(name, old(files)[name], asOf))
      ensures forall name :: name in files ==> files[name] == old(files)[name]
    {
      entries := [];
      for i := 0 to |names|
        invariant entries == EntriesOf(names[..i], old(files), asOf, readDate)
        invariant forall name :: name in files <==> name in old(files) && !(name in names[..i] && Abandoned(name, old(files)[name], asOf))
        invariant forall name :: name in files ==> files[name] == old(files)[name]
      {
        var name := names[i];
        assert names[..i + 1] == names[..i] + [name];
        EntriesSnoc(names[..i], name, old(files), asOf, readDate);
        if name in files {
          if EndsWith(name, UNFINISHED) {
            if asOf - files[name].modifiedMs > UNFINISHED_KEPT_MS { files := files - {name}; }
          } else if EndsWith(name, FILE) {
            entries := entries + [EntryOf(name, files[name], asOf, readDate)];
          }
        }
      }
      assert names[..|names|] == names;
    }
  }

  lemma FileIsFinished(name: string)
    ensures Finished(name + FILE)
  {
    var file := name + FILE;
    assert file[|file| - 5..] == FILE;
    assert file[|file| - 4..][3] == 'n' && UNFINISHED[3] == 'p';
  }

  /** A spooled delivery is listed by every later read as the very row it was, until something deletes its file. */
  lemma SpooledIsListed(files: map<string, Stored>, name: string, row: Payload, now: int, entries: seq<SpoolEntry>, asOf: int,
      iso: int -> string, readDate: string -> Option<int>)
    requires name + FILE in files && files[name + FILE] == Stored(Some(FileOf(row, iso)), now)
    requires Lists(entries, files, asOf, readDate) && readDate(iso(row.receivedAt)) == Some(row.receivedAt)
    ensures SpoolEntry(name + FILE, asOf - now, Some(row)) in entries
    ensures !Abandoned(name + FILE, files[name + FILE], asOf)
  {
    FileIsFinished(name);
    SpooledReadsBack(row, iso, readDate);
    assert EntryOf(name + FILE, files[name + FILE], asOf, readDate) == SpoolEntry(name + FILE, asOf - now, Some(row));
  }
}
