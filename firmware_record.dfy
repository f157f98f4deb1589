/** The firmware record of one installer: each machine board's updater
    configuration, keyed by board identifier, and its renderer. */
module FirmwareRecord {
  import opened Text
  import opened Writers
  import opened FirmwareConfig

  type BoardID = string

  type Record = map<BoardID, Config>

  /** One `(id, config)` pair of a record, as its iteration yields them. */
  type Entry = (BoardID, Config)

  /** The header line of one board. */
  function BoardHeader(id: BoardID): string
  {
    "- Board ID: " + id
  }

  /** One board's section: its header, then its configuration one level
      deeper. */
  function BoardSection(entry: Entry): seq<Line>
  {
    Section(BoardHeader(entry.0), ConfigLines(entry.1))
  }

  /** The board headers of the entries, in order. */
  function BoardHeaders(entries: seq<Entry>): (r: seq<string>)
    ensures |r| == |entries|
    ensures forall i :: 0 <= i < |entries| ==> r[i] == BoardHeader(entries[i].0)
  {
    if |entries| == 0 then [] else BoardHeaders(entries[..|entries| - 1]) + [BoardHeader(entries[|entries| - 1].0)]
  }

  /** The configuration lines of the entries, in order. */
  function ConfigBodies(entries: seq<Entry>): (r: seq<seq<Line>>)
    ensures |r| == |entries|
  {
    if |entries| == 0 then [] else ConfigBodies(entries[..|entries| - 1]) + [ConfigLines(entries[|entries| - 1].1)]
  }

  /** The lines `dump` writes for the entries in the order it visits them. */
  function RecordLines(entries: seq<Entry>): seq<Line>
  {
    Sections(BoardHeaders(entries), ConfigBodies(entries))
  }

  /** The depth-0 lines of a record's dump are exactly one board header per
      entry, in the order the entries were visited. */
  lemma RecordTopLevel(entries: seq<Entry>)
    ensures TopLevel(RecordLines(entries)) == BoardHeaders(entries)
  {
    SectionsTopLevel(BoardHeaders(entries), ConfigBodies(entries));
  }

  /** The lines of one more entry are those of the entries before it,
      followed by its section. */
  lemma RecordLinesStep(entries: seq<Entry>, i: nat)
    requires i < |entries|
    ensures RecordLines(entries[..i + 1]) == RecordLines(entries[..i]) + BoardSection(entries[i])
  {
    PrefixStep(entries, i);
    assert BoardHeaders(entries[..i + 1]) == BoardHeaders(entries[..i]) + [BoardHeader(entries[i].0)];
    assert ConfigBodies(entries[..i + 1]) == ConfigBodies(entries[..i]) + [ConfigLines(entries[i].1)];
    SectionsSnoc(BoardHeaders(entries[..i]), ConfigBodies(entries[..i]), BoardHeader(entries[i].0), ConfigLines(entries[i].1));
  }

  /** The board identifiers of the entries, in order. */
  function Boards(entries: seq<Entry>): (r: seq<BoardID>)
    ensures |r| == |entries|
    ensures forall i :: 0 <= i < |entries| ==> r[i] == entries[i].0
  {
    if |entries| == 0 then [] else Boards(entries[..|entries| - 1]) + [entries[|entries| - 1].0]
  }

  /** Removing a board from a record removes exactly its entry. */
  lemma ItemsWithout(record: Record, id: BoardID)
    requires id in record
    ensures (record - {id}).Items == record.Items - {(id, record[id])}
    ensures (record - {id}).Keys == record.Keys - {id}
  {
    var smaller := record - {id};
    forall e | e in record.Items - {(id, record[id])}
      ensures e in smaller.Items
    {
      assert e.0 in record && record[e.0] == e.1;
    }
  }

  /** Visiting a record's entries visits each board once, paired with its own
      configuration. */
  lemma {:induction false} EntriesOfRecord(record: Record, entries: seq<Entry>)
    requires IsEnumeration(entries, record.Items)
    ensures IsEnumeration(Boards(entries), record.Keys)
    ensures forall i :: 0 <= i < |entries| ==> entries[i].0 in record && record[entries[i].0] == entries[i].1
  {
    if |entries| == 0 {
      assert |record.Items| == |record|;
    } else {
      var n := |entries| - 1;
      var e := entries[n];
      assert e in record.Items;
      ItemsWithout(record, e.0);
      EntriesOfRecord(record - {e.0}, entries[..n]);
      assert Boards(entries)[..n] == Boards(entries[..n]);
      forall i | 0 <= i < |entries|
        ensures entries[i].0 in record && record[entries[i].0] == entries[i].1
      {
        if i < n {
          assert entries[..n][i] == entries[i];
        }
      }
    }
  }

  /** `dump` of a record: one section per entry, the entries visited in the
      dictionary's (unspecified) iteration order, returned as `entries`. The
      writer's indentation is restored. */
  method DumpRecord(record: Record, w: StringWriter, ghost indentation: int, ghost column: int)
    returns (ghost entries: seq<Entry>)
    requires w.indentation == indentation >= 0 && w.column == column
    modifies w
    ensures IsEnumeration(entries, record.Items)
    ensures w.buffer == old(w.buffer) + Layout(RecordLines(entries), indentation, column)
    ensures w.indentation == indentation
    ensures w.column == if |entries| == 0 then column else 0
  {
    var items := Enumerate(record.Items);
    DumpBoards(items, w, indentation, column);
    entries := items;
  }

  /** One pass of `dump`'s loop: the board's header, then its configuration
      one level deeper; indentation is restored. */
  method DumpBoard(id: BoardID, config: Config, w: StringWriter, ghost indentation: int, ghost column: int)
    requires w.indentation == indentation >= 0 && w.column == column
    modifies w
    ensures w.buffer == old(w.buffer) + LineText(column, indentation, BoardHeader(id))
                        + Layout(ConfigLines(config), indentation + 1, 0)
    ensures w.indentation == indentation && w.column == 0
  {
    w.Println(BoardHeader(id));
    DumpNestedConfig(config, w, indentation);
  }

  /** `indent()`, the configuration's `dump`, `outdent()`. */
  method DumpNestedConfig(config: Config, w: StringWriter, ghost indentation: int)
    requires w.indentation == indentation >= 0 && w.column == 0
    modifies w
    ensures w.buffer == old(w.buffer) + Layout(ConfigLines(config), indentation + 1, 0)
    ensures w.indentation == indentation && w.column == 0
  {
    w.Indent();
    DumpConfig(config, w, indentation + 1, 0);
    w.Outdent();
  }

  /** The loop of `dump`: the entries in turn. */
  method DumpBoards(entries: seq<Entry>, w: StringWriter, ghost ind: int, ghost col: int)
    requires w.indentation == ind >= 0 && w.column == col
    modifies w
    ensures w.buffer == old(w.buffer) + Layout(RecordLines(entries), ind, col)
    ensures w.indentation == ind
    ensures w.column == if |entries| == 0 then col else 0
  {
    for i := 0 to |entries|
      invariant w.buffer == old(w.buffer) + Layout(RecordLines(entries[..i]), ind, col)
      invariant w.indentation == ind
      invariant w.column == if i == 0 then col else 0
    {
      ghost var before, at := w.buffer, w.column;
      var (id, config) := entries[i];
      DumpBoard(id, config, w, ind, at);
      RecordLinesStep(entries, i);
      SectionExtend(old(w.buffer), before, w.buffer, RecordLines(entries[..i]),
                    BoardHeader(id), ConfigLines(config), ind, col, at);
    }
    PrefixWhole(entries);
  }
}
