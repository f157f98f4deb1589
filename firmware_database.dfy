/** The firmware database: every installer's firmware record, keyed by the
    installer's version in the form "version_build", with registration and the
    Markdown renderer. */
module FirmwareDatabase {
  import opened Wrappers
  import opened Text
  import opened SystemVersions
  import opened Writers
  import opened FirmwareRecord

  type Storage = map<string, Record>

  // ---------------------------------------------------------------------------
  // Registration

  /** The storage after `register(records:for:overwrite:)`: an absent version
      gets the records; a present one keeps its records unless `overwrite`
      asks for them to be replaced, and then they are replaced wholesale. */
  function Registered(data: Storage, records: Record, version: string, overwrite: bool): (r: Storage)
    ensures r.Keys == data.Keys + {version}
    ensures version !in data ==> r[version] == records
    ensures version in data && !overwrite ==> r[version] == data[version]
    ensures version in data && overwrite ==> r[version] == records
    ensures forall k :: k in data && k != version ==> r[k] == data[k]
  {
    if version !in data || overwrite then data[version := records] else data
  }

  /** Registering the same records twice is registering them once. */
  lemma RegisterIdempotent(data: Storage, records: Record, version: string, overwrite: bool)
    ensures Registered(Registered(data, records, version, overwrite), records, version, overwrite)
         == Registered(data, records, version, overwrite)
  {
  }

  /** Without `overwrite`, the first registration of a version wins. */
  lemma RegisterFirstWins(data: Storage, first: Record, second: Record, version: string)
    ensures Registered(Registered(data, first, version, false), second, version, false)
         == Registered(data, first, version, false)
  {
  }

  /** With `overwrite`, the last registration of a version wins, whatever was
      there before. */
  lemma RegisterLastWins(data: Storage, first: Record, second: Record, version: string, overwrite: bool)
    ensures Registered(Registered(data, first, version, overwrite), second, version, true)
         == data[version := second]
  {
  }

  // ---------------------------------------------------------------------------
  // Keys

  /** `Int(token)!` traps on a key of two "_"-pieces whose first piece splits
      into two or three dot-separated tokens of which one is not an integer. */
  predicate KeyParsable(key: string)
  {
    var tokens := Components(key, '_');
    |tokens| == 2 ==> Parsable(tokens[0])
  }

  /** The `compactMap` step of `dump`: a key is kept when it is exactly two
      "_"-pieces (empty pieces count) and the first parses as a version with
      the second as its build. */
  function ParseKey(key: string): (r: Option<SystemVersion>)
    requires KeyParsable(key)
    ensures r.Some? <==> |Components(key, '_')| == 2 && Parse(Components(key, '_')[0], Components(key, '_')[1]).Some?
    ensures r.Some? ==> VersionKey(r.value) == key
  {
    var tokens := Components(key, '_');
    if |tokens| != 2 then None
    else
      var r := Parse(tokens[0], tokens[1]);
      JoinComponents(key, '_');
      assert Join(tokens, '_') == tokens[0] + ['_'] + tokens[1];
      r
  }

  /** The key of a parsed version whose strings hold no "_" parses back to
      that version. */
  lemma KeyRoundTrip(version: string, build: string)
    requires '_' !in version && '_' !in build
    requires Parsable(version) && Parse(version, build).Some?
    ensures KeyParsable(VersionKey(Parse(version, build).value))
    ensures ParseKey(VersionKey(Parse(version, build).value)) == Parse(version, build)
  {
    ComponentsOfPair(version, build, '_');
    assert VersionKey(Parse(version, build).value) == version + ['_'] + build;
  }

  /** A build string holding "_" makes a key of three pieces, which `dump`
      skips. */
  lemma KeySkipsUnderscoredBuild(version: string, left: string, right: string)
    requires '_' !in version && '_' !in left && '_' !in right
    ensures |Components(version + "_" + left + "_" + right, '_')| == 3
  {
    ComponentsCons(version, left + "_" + right, '_');
    assert version + "_" + left + "_" + right == version + ['_'] + (left + "_" + right);
    ComponentsOfPair(left, right, '_');
  }

  /** The versions `dump` lists: those of the keys that parse. */
  function KeptVersions(data: Storage): (r: set<SystemVersion>)
    requires forall k :: k in data ==> KeyParsable(k)
    ensures forall v :: v in r ==> VersionKey(v) in data && ParseKey(VersionKey(v)) == Some(v)
    ensures forall k :: k in data && ParseKey(k).Some? ==> ParseKey(k).value in r
  {
    set k | k in data && ParseKey(k).Some? :: ParseKey(k).value
  }

  /** Distinct keys that parse give distinct versions: `dump` lists each kept
      key once. */
  lemma ParseKeyInjective(a: string, b: string)
    requires KeyParsable(a) && KeyParsable(b)
    requires ParseKey(a).Some? && ParseKey(a) == ParseKey(b)
    ensures a == b
  {
    assert VersionKey(ParseKey(a).value) == a;
  }

  // ---------------------------------------------------------------------------
  // Rendering

  const Title := "## Thunderbolt Firmware Database"

  /** The header of one installer version's section. */
  function VersionHeader(v: SystemVersion): string
  {
    "- " + OSVersionString(v)
  }

  /** One installer version's section: its header, then the entries of its
      record, in the order they were visited, one level deeper. */
  function VersionSection(v: SystemVersion, entries: seq<Entry>): seq<Line>
  {
    Section(VersionHeader(v), RecordLines(entries))
  }

  /** Every version of `order` has a record in the storage, and `visits`
      gives, for each, its record's entries in the order they were visited:
      each of them once. */
  ghost predicate Covers(data: Storage, order: seq<SystemVersion>, visits: seq<seq<Entry>>)
  {
    |visits| == |order|
    && forall i :: 0 <= i < |order| ==>
         VersionKey(order[i]) in data && IsEnumeration(visits[i], data[VersionKey(order[i])].Items)
  }

  /** The section headers of the versions of `order`, in order. */
  function VersionHeaders(order: seq<SystemVersion>): (r: seq<string>)
    ensures |r| == |order|
    ensures forall i :: 0 <= i < |order| ==> r[i] == VersionHeader(order[i])
  {
    seq(|order|, i requires 0 <= i < |order| => VersionHeader(order[i]))
  }

  /** The lines of each visited record, in order. */
  function RecordBodies(visits: seq<seq<Entry>>): (r: seq<seq<Line>>)
    ensures |r| == |visits|
    ensures forall i :: 0 <= i < |visits| ==> r[i] == RecordLines(visits[i])
  {
    if |visits| == 0 then [] else RecordBodies(visits[..|visits| - 1]) + [RecordLines(visits[|visits| - 1])]
  }

  /** The sections of the versions of `order`, in that order. */
  function VersionsLines(order: seq<SystemVersion>, visits: seq<seq<Entry>>): seq<Line>
    requires |visits| == |order|
  {
    Sections(VersionHeaders(order), RecordBodies(visits))
  }

  /** The lines of `dump`: the title, then the sections. */
  function DatabaseLines(order: seq<SystemVersion>, visits: seq<seq<Entry>>): seq<Line>
    requires |visits| == |order|
  {
    [Line(0, Title)] + VersionsLines(order, visits)
  }

  /** The depth-0 lines of the dump are the title, then one header per listed
      version, in order. */
  lemma DatabaseTopLevel(order: seq<SystemVersion>, visits: seq<seq<Entry>>)
    requires |visits| == |order|
    ensures TopLevel(DatabaseLines(order, visits)) == [Title] + VersionHeaders(order)
  {
    SectionsTopLevel(VersionHeaders(order), RecordBodies(visits));
    TopLevelAppend([Line(0, Title)], VersionsLines(order, visits));
    assert TopLevel([Line(0, Title)]) == [Title];
  }

  /** Every key of the storage is one `dump` can split without trapping. */
  predicate KeysParsable(data: Storage)
  {
    forall k :: k in data ==> KeyParsable(k)
  }

  /** `order` lists every kept version once, and `visits` the entries of each
      one's record. */
  ghost predicate Dumped(data: Storage, order: seq<SystemVersion>, visits: seq<seq<Entry>>)
  {
    KeysParsable(data) && IsEnumeration(order, KeptVersions(data)) && Covers(data, order, visits)
  }

  /** One more visited version extends a covering. */
  lemma CoversStep(data: Storage, keys: seq<SystemVersion>, i: nat, visits: seq<seq<Entry>>, entries: seq<Entry>)
    requires i < |keys| && Covers(data, keys[..i], visits)
    requires VersionKey(keys[i]) in data && IsEnumeration(entries, data[VersionKey(keys[i])].Items)
    ensures Covers(data, keys[..i + 1], visits + [entries])
  {
    PrefixStep(keys, i);
    var next := visits + [entries];
    assert next[..i] == visits && next[i] == entries;
  }

  /** The sections of one more version are those of the versions before it,
      followed by its section. */
  lemma VersionsLinesStep(keys: seq<SystemVersion>, i: nat, visits: seq<seq<Entry>>, entries: seq<Entry>)
    requires i < |keys| && |visits| == i
    ensures VersionsLines(keys[..i + 1], visits + [entries])
         == VersionsLines(keys[..i], visits) + VersionSection(keys[i], entries)
  {
    PrefixStep(keys, i);
    var next := visits + [entries];
    assert next[..i] == visits && next[i] == entries;
    assert VersionHeaders(keys[..i + 1]) == VersionHeaders(keys[..i]) + [VersionHeader(keys[i])];
    assert RecordBodies(next) == RecordBodies(visits) + [RecordLines(entries)];
    SectionsSnoc(VersionHeaders(keys[..i]), RecordBodies(visits), VersionHeader(keys[i]), RecordLines(entries));
  }

  /** `dump`: the title, then each kept version in some order (the order
      `sorted()` gives under `<` is left unspecified), each with its record
      one level deeper. The versions are returned as `order`, each record's
      entries in visiting order as `visits`. */
  method DumpStorage(data: Storage, w: StringWriter) returns (ghost order: seq<SystemVersion>, ghost visits: seq<seq<Entry>>)
    requires KeysParsable(data)
    requires w.indentation >= 0
    modifies w
    ensures Dumped(data, order, visits)
    ensures w.buffer == old(w.buffer) + Layout(DatabaseLines(order, visits), old(w.indentation), old(w.column))
    ensures w.indentation == old(w.indentation) && w.column == 0
  {
    var keys := Enumerate(KeptVersions(data));
    KeptKeysPresent(data, keys);
    visits := DumpTitled(data, keys, w, w.indentation, w.column);
    order := keys;
  }

  /** Each listed kept version has its record in the storage. */
  lemma KeptKeysPresent(data: Storage, keys: seq<SystemVersion>)
    requires KeysParsable(data) && IsEnumeration(keys, KeptVersions(data))
    ensures forall i :: 0 <= i < |keys| ==> VersionKey(keys[i]) in data
  {
    EnumerationMembers(keys, KeptVersions(data));
  }

  /** The title line, then the sections of the versions of `keys`. */
  method DumpTitled(data: Storage, keys: seq<SystemVersion>, w: StringWriter, ghost indentation: int, ghost column: int)
    returns (ghost visits: seq<seq<Entry>>)
    requires forall i :: 0 <= i < |keys| ==> VersionKey(keys[i]) in data
    requires w.indentation == indentation >= 0 && w.column == column
    modifies w
    ensures Covers(data, keys, visits)
    ensures w.buffer == old(w.buffer) + Layout(DatabaseLines(keys, visits), indentation, column)
    ensures w.indentation == indentation && w.column == 0
  {
    w.Println(Title);
    ghost var middle := w.buffer;
    visits := DumpVersions(data, keys, w, indentation, 0);
    HeadExtend(old(w.buffer), middle, w.buffer, Title, VersionsLines(keys, visits), indentation, column);
  }

  /** The loop of `dump` over the listed versions. */
  method DumpVersions(data: Storage, keys: seq<SystemVersion>, w: StringWriter, ghost ind: int, ghost col: int)
    returns (ghost visits: seq<seq<Entry>>)
    requires forall i :: 0 <= i < |keys| ==> VersionKey(keys[i]) in data
    requires w.indentation == ind >= 0 && w.column == col
    modifies w
    ensures Covers(data, keys, visits)
    ensures w.buffer == old(w.buffer) + Layout(VersionsLines(keys, visits), ind, col)
    ensures w.indentation == ind
    ensures w.column == if |keys| == 0 then col else 0
  {
    visits := [];
    for i := 0 to |keys|
      invariant Covers(data, keys[..i], visits)
      invariant w.buffer == old(w.buffer) + Layout(VersionsLines(keys[..i], visits), ind, col)
      invariant w.indentation == ind
      invariant w.column == if i == 0 then col else 0
    {
      ghost var before, at := w.buffer, w.column;
      ghost var entries := DumpVersion(keys[i], data[VersionKey(keys[i])], w, ind, at);
      CoversStep(data, keys, i, visits, entries);
      VersionsLinesStep(keys, i, visits, entries);
      SectionExtend(old(w.buffer), before, w.buffer, VersionsLines(keys[..i], visits),
                    VersionHeader(keys[i]), RecordLines(entries), ind, col, at);
      visits := visits + [entries];
    }
    PrefixWhole(keys);
  }

  /** One pass of `dump`'s loop: the version's header, then its record one
      level deeper; indentation is restored. */
  method DumpVersion(v: SystemVersion, record: Record, w: StringWriter, ghost indentation: int, ghost column: int)
    returns (ghost entries: seq<Entry>)
    requires w.indentation == indentation >= 0 && w.column == column
    modifies w
    ensures IsEnumeration(entries, record.Items)
    ensures w.buffer == old(w.buffer) + LineText(column, indentation, VersionHeader(v))
                        + Layout(RecordLines(entries), indentation + 1, 0)
    ensures w.indentation == indentation && w.column == 0
  {
    w.Println(VersionHeader(v));
    entries := DumpNestedRecord(record, w, indentation);
  }

  /** `indent()`, the record's `dump`, `outdent()`. */
  method DumpNestedRecord(record: Record, w: StringWriter, ghost indentation: int) returns (ghost entries: seq<Entry>)
    requires w.indentation == indentation >= 0 && w.column == 0
    modifies w
    ensures IsEnumeration(entries, record.Items)
    ensures w.buffer == old(w.buffer) + Layout(RecordLines(entries), indentation + 1, 0)
    ensures w.indentation == indentation && w.column == 0
  {
    w.Indent();
    entries := DumpRecord(record, w, indentation + 1, 0);
    w.Outdent();
  }

  /** The database (`ThunderboltFirmwareDatabase` and its storage). */
  class Database {
    var data: Storage

    /** `empty()`: no versions. */
    constructor Empty()
      ensures data == map[]
    {
      data := map[];
    }

    /** `register(records:for:overwrite:)`. */
    method Register(records: Record, version: string, overwrite: bool)
      modifies this
      ensures data == Registered(old(data), records, version, overwrite)
    {
      if version !in data {
        data := data[version := records];
      } else {
        if overwrite {
          data := data[version := records];
        }
      }
    }

    /** `dump(to:)`: the storage's dump. */
    method Dump(w: StringWriter) returns (ghost order: seq<SystemVersion>, ghost visits: seq<seq<Entry>>)
      requires KeysParsable(data)
      requires w.indentation >= 0
      modifies w
      ensures Dumped(data, order, visits)
      ensures w.buffer == old(w.buffer) + Layout(DatabaseLines(order, visits), old(w.indentation), old(w.column))
      ensures w.indentation == old(w.indentation) && w.column == 0
    {
      order, visits := DumpStorage(data, w);
    }

    /** `generateMarkdown(to:)` up to the file write: the text of `dump` on a
        fresh writer. */
    method Markdown() returns (text: string, ghost order: seq<SystemVersion>, ghost visits: seq<seq<Entry>>)
      requires KeysParsable(data)
      ensures Dumped(data, order, visits)
      ensures text == Layout(DatabaseLines(order, visits), 0, 0)
    {
      var w := new StringWriter();
      order, visits := Dump(w);
      text := w.ToString();
    }
  }
}
