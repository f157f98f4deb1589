/** The indenting text writer every `dump` renders into: a class whose buffer,
    indentation level and column are updated in place, and the line-layout
    functions that say what a sequence of `println` calls at given depths
    appends to the buffer. */
module Writers {
  import opened Wrappers
  import opened Text

  /** Four spaces per indentation level. */
  function Padding(level: nat): (r: string)
  {
    seq(4 * level, _ => ' ')
  }

  /** The length of the text after the last newline of `s`. */
  function LastLineLength(s: string): nat
  {
    match LastIndexOf(s, '\n')
    case None => |s|
    case Some(k) => |s| - (k + 1)
  }

  /** The column `print` records, as written: the padded starting column plus
      the length of the contents, less everything up to and including the last
      newline of the contents. */
  function ColumnAfter(column: int, indentation: int, contents: string): int
  {
    var start := if column == 0 then indentation * 4 else column;
    match LastIndexOf(contents, '\n')
    case None => start + |contents|
    case Some(k) => start + |contents| - (k + 1)
  }

  /** The column the bookkeeping evidently means to keep: the length of the
      text after the last newline once the contents are appended. */
  function IntendedColumnAfter(column: int, indentation: int, contents: string): int
  {
    var start := if column == 0 then indentation * 4 else column;
    match LastIndexOf(contents, '\n')
    case None => start + |contents|
    case Some(k) => |contents| - (k + 1)
  }

  /** Appending newline-free text lengthens the last line by its length. */
  lemma LastLineAppendFree(s: string, t: string)
    requires '\n' !in t
    ensures LastLineLength(s + t) == LastLineLength(s) + |t|
  {
    var st := s + t;
    if |t| > 0 {
      assert st[|st| - 1] == t[|t| - 1];
      assert st[..|st| - 1] == s + t[..|t| - 1];
      LastLineAppendFree(s, t[..|t| - 1]);
    } else {
      assert st == s;
    }
  }

  /** Appending text that holds a newline leaves as last line what follows
      the text's own last newline. */
  lemma LastLineAppendBreak(s: string, t: string)
    requires '\n' in t
    ensures LastLineLength(s + t) == |t| - (LastIndexOf(t, '\n').value + 1)
  {
    var st := s + t;
    var k := LastIndexOf(t, '\n').value;
    assert st[|s| + k] == '\n';
    assert st[|s| + k + 1..] == t[k + 1..];
  }

  /** While the contents hold no newline, the recorded column is the length
      of the buffer's last line, provided it was before. */
  lemma ColumnAfterTracks(buffer: string, column: int, indentation: int, contents: string)
    requires column == LastLineLength(buffer) && (column == 0 ==> indentation >= 0)
    requires '\n' !in contents
    ensures ColumnAfter(column, indentation, contents)
         == LastLineLength(buffer + (if column == 0 then Padding(indentation) else "") + contents)
  {
    var pad := if column == 0 then Padding(indentation) else "";
    assert '\n' !in pad;
    assert '\n' !in pad + contents;
    assert buffer + pad + contents == buffer + (pad + contents);
    LastLineAppendFree(buffer, pad + contents);
  }

  /** The intended bookkeeping tracks the last line for every contents. */
  lemma IntendedColumnTracks(buffer: string, column: int, indentation: int, contents: string)
    requires column == LastLineLength(buffer) && (column == 0 ==> indentation >= 0)
    ensures IntendedColumnAfter(column, indentation, contents)
         == LastLineLength(buffer + (if column == 0 then Padding(indentation) else "") + contents)
  {
    var pad := if column == 0 then Padding(indentation) else "";
    assert buffer + pad + contents == (buffer + pad) + contents;
    if '\n' in contents {
      LastLineAppendBreak(buffer + pad, contents);
    } else {
      ColumnAfterTracks(buffer, column, indentation, contents);
    }
  }

  /** As written the column drifts: printing "a\n" at indentation 1 on a fresh
      line records column 4 although the buffer ends with a newline, so the next
      `print` is not indented. */
  lemma ColumnDrift()
    ensures ColumnAfter(0, 1, "a\n") == 4
    ensures LastLineLength("" + Padding(1) + "a\n") == 0
    ensures IntendedColumnAfter(0, 1, "a\n") == 0
  {
    assert LastIndexOf("a\n", '\n') == Some(1);
    LastLineAppendBreak(Padding(1), "a\n");
  }

  // ---------------------------------------------------------------------------
  // Line layout: what a renderer's `println` calls append

  /** One `println` of `text`, `depth` levels deeper than the writer's
      indentation when the renderer started. */
  datatype Line = Line(depth: nat, text: string)

  function Shift(lines: seq<Line>, levels: nat): (r: seq<Line>)
    ensures |r| == |lines|
    ensures forall i :: 0 <= i < |r| ==> r[i] == Line(lines[i].depth + levels, lines[i].text)
  {
    if |lines| == 0 then [] else [Line(lines[0].depth + levels, lines[0].text)] + Shift(lines[1..], levels)
  }

  /** The texts of the lines at depth 0, in order. */
  function TopLevel(lines: seq<Line>): seq<string>
  {
    if |lines| == 0 then []
    else (if lines[0].depth == 0 then [lines[0].text] else []) + TopLevel(lines[1..])
  }

  lemma {:induction false} TopLevelAppend(a: seq<Line>, b: seq<Line>)
    ensures TopLevel(a + b) == TopLevel(a) + TopLevel(b)
  {
    if |a| > 0 {
      assert (a + b)[1..] == a[1..] + b;
      TopLevelAppend(a[1..], b);
    } else {
      assert a + b == b;
    }
  }

  /** Shifted lines have no line at depth 0. */
  lemma {:induction false} TopLevelShift(lines: seq<Line>, levels: nat)
    requires levels > 0
    ensures TopLevel(Shift(lines, levels)) == []
  {
    if |lines| > 0 {
      assert Shift(lines, levels)[1..] == Shift(lines[1..], levels);
      TopLevelShift(lines[1..], levels);
    }
  }

  /** What one `println(text)` appends at a given column and level. */
  function LineText(column: int, level: int, text: string): string
    requires column == 0 ==> level >= 0
  {
    (if column == 0 then Padding(level) else "") + text + "\n"
  }

  /** What the lines append when printed one `println` each, starting at the
      given indentation and column. `print` traps when it pads at a negative
      indentation, so the indentation is taken to be non-negative; every
      line's level is then non-negative too. */
  function Layout(lines: seq<Line>, indentation: int, column: int): string
    requires indentation >= 0
  {
    if |lines| == 0 then ""
    else LineText(column, indentation + lines[0].depth, lines[0].text) + Layout(lines[1..], indentation, 0)
  }

  /** Printing two runs of lines appends their two layouts; only the first
      line of the whole can start mid-line. */
  lemma {:induction false} LayoutAppend(a: seq<Line>, b: seq<Line>, indentation: int, column: int)
    requires indentation >= 0
    ensures Layout(a + b, indentation, column)
         == Layout(a, indentation, column) + Layout(b, indentation, if |a| == 0 then column else 0)
  {
    if |a| == 0 {
      assert a + b == b;
    } else {
      var ab := a + b;
      assert ab[0] == a[0];
      assert ab[1..] == a[1..] + b;
      LayoutAppend(a[1..], b, indentation, 0);
      Regroup(LineText(column, indentation + a[0].depth, a[0].text), Layout(a[1..], indentation, 0), Layout(b, indentation, 0));
    }
  }

  /** Printing lines one level deeper is printing them with the indentation
      raised by that many levels. */
  lemma {:induction false} LayoutShift(lines: seq<Line>, levels: nat, indentation: int, column: int)
    requires indentation >= 0
    ensures Layout(Shift(lines, levels), indentation, column) == Layout(lines, indentation + levels, column)
  {
    if |lines| > 0 {
      var shifted := Shift(lines, levels);
      assert shifted[0] == Line(lines[0].depth + levels, lines[0].text);
      assert shifted[1..] == Shift(lines[1..], levels);
      LayoutShift(lines[1..], levels, indentation, 0);
      assert indentation + shifted[0].depth == indentation + levels + lines[0].depth;
    }
  }

  /** Laying out one line after others: the first line's text, then the rest
      from column 0. */
  lemma LayoutCons(line: Line, rest: seq<Line>, indentation: int, column: int)
    requires indentation >= 0
    ensures Layout([line] + rest, indentation, column)
         == LineText(column, indentation + line.depth, line.text) + Layout(rest, indentation, 0)
  {
    assert ([line] + rest)[1..] == rest;
  }

  /** Printing one more line appends that line's text. */
  lemma LayoutSnoc(lines: seq<Line>, k: nat, indentation: int, column: int)
    requires k < |lines| && indentation >= 0
    ensures Layout(lines[..k + 1], indentation, column)
         == Layout(lines[..k], indentation, column)
            + LineText(if k == 0 then column else 0, indentation + lines[k].depth, lines[k].text)
  {
    var c := if k == 0 then column else 0;
    var last := LineText(c, indentation + lines[k].depth, lines[k].text);
    assert lines[..k + 1] == lines[..k] + [lines[k]];
    LayoutAppend(lines[..k], [lines[k]], indentation, column);
    assert Layout([lines[k]], indentation, c) == last + Layout([], indentation, 0);
    assert last + Layout([], indentation, 0) == last;
  }

  /** A buffer holding the first k lines' layout, extended by the next line's
      text, holds the first k + 1 lines' layout. */
  lemma LayoutExtend(start: string, before: string, after: string, lines: seq<Line>, k: nat, indentation: int, column: int)
    requires k < |lines| && indentation >= 0
    requires before == start + Layout(lines[..k], indentation, column)
    requires after == before + LineText(if k == 0 then column else 0, indentation + lines[k].depth, lines[k].text)
    ensures after == start + Layout(lines[..k + 1], indentation, column)
  {
    LayoutSnoc(lines, k, indentation, column);
    Regroup(start, Layout(lines[..k], indentation, column),
            LineText(if k == 0 then column else 0, indentation + lines[k].depth, lines[k].text));
  }

  /** Buffers snapshotted before and after each `println` of a run of lines:
      the k-th snapshot holds the first k lines' layout. */
  lemma {:induction false} LayoutSteps(buffers: seq<string>, lines: seq<Line>, k: nat, indentation: int, column: int)
    requires |buffers| == |lines| + 1 && k <= |lines| && indentation >= 0
    requires forall i :: 0 <= i < |lines| ==>
               buffers[i + 1] == buffers[i] + LineText(if i == 0 then column else 0, indentation + lines[i].depth, lines[i].text)
    ensures buffers[k] == buffers[0] + Layout(lines[..k], indentation, column)
    ensures k == |lines| ==> buffers[k] == buffers[0] + Layout(lines, indentation, column)
  {
    if k == 0 {
      assert lines[..0] == [];
    } else {
      LayoutSteps(buffers, lines, k - 1, indentation, column);
      LayoutExtend(buffers[0], buffers[k - 1], buffers[k], lines, k - 1, indentation, column);
    }
    assert k == |lines| ==> lines[..k] == lines;
  }

  /** A buffer holding a prefix's layout, extended by the layout of more
      lines, holds the layout of the prefix followed by those lines. */
  lemma LayoutAppendExtend(start: string, before: string, after: string, prefix: seq<Line>, next: seq<Line>,
                           indentation: int, column: int)
    requires indentation >= 0
    requires before == start + Layout(prefix, indentation, column)
    requires after == before + Layout(next, indentation, if |prefix| == 0 then column else 0)
    ensures after == start + Layout(prefix + next, indentation, column)
  {
    LayoutAppend(prefix, next, indentation, column);
    Regroup(start, Layout(prefix, indentation, column), Layout(next, indentation, if |prefix| == 0 then column else 0));
  }

  /** A buffer extended by a header line's text and then by the layout of
      the lines after it holds the layout of the header line followed by those
      lines. */
  lemma HeadExtend(start: string, middle: string, after: string, header: string, rest: seq<Line>,
                   indentation: int, column: int)
    requires indentation >= 0
    requires middle == start + LineText(column, indentation, header)
    requires after == middle + Layout(rest, indentation, 0)
    ensures after == start + Layout([Line(0, header)] + rest, indentation, column)
  {
    LayoutCons(Line(0, header), rest, indentation, column);
    Regroup(start, LineText(column, indentation, header), Layout(rest, indentation, 0));
  }

  /** Regrouping a concatenation. */
  lemma Regroup<T>(a: seq<T>, b: seq<T>, c: seq<T>)
    ensures a + (b + c) == (a + b) + c
  {
  }

  /** A header line followed by a body one level deeper, as every renderer
      writes `println(header); indent(); body; outdent()`. */
  function Section(header: string, body: seq<Line>): seq<Line>
  {
    [Line(0, header)] + Shift(body, 1)
  }

  /** A section's only depth-0 line is its header. */
  lemma SectionTopLevel(header: string, body: seq<Line>)
    ensures TopLevel(Section(header, body)) == [header]
  {
    var r := Section(header, body);
    assert r[1..] == Shift(body, 1);
    TopLevelShift(body, 1);
  }

  /** The layout of a section is the header's line followed by the body laid
      out one level deeper from column 0. */
  lemma SectionLayout(header: string, body: seq<Line>, indentation: int, column: int)
    requires indentation >= 0
    ensures Layout(Section(header, body), indentation, column)
         == LineText(column, indentation, header) + Layout(body, indentation + 1, 0)
  {
    var r := Section(header, body);
    assert r[1..] == Shift(body, 1);
    LayoutShift(body, 1, indentation, 0);
  }

  /** Sections one after another, the i-th body under the i-th header. */
  function Sections(headers: seq<string>, bodies: seq<seq<Line>>): seq<Line>
    requires |headers| == |bodies|
  {
    if |headers| == 0 then []
    else Sections(headers[..|headers| - 1], bodies[..|headers| - 1])
         + Section(headers[|headers| - 1], bodies[|headers| - 1])
  }

  /** The depth-0 lines of consecutive sections are their headers, in order. */
  lemma {:induction false} SectionsTopLevel(headers: seq<string>, bodies: seq<seq<Line>>)
    requires |headers| == |bodies|
    ensures TopLevel(Sections(headers, bodies)) == headers
  {
    if |headers| > 0 {
      var n := |headers| - 1;
      SectionsTopLevel(headers[..n], bodies[..n]);
      TopLevelAppend(Sections(headers[..n], bodies[..n]), Section(headers[n], bodies[n]));
      SectionTopLevel(headers[n], bodies[n]);
      assert headers == headers[..n] + [headers[n]];
    }
  }

  /** One more section after the others. */
  lemma SectionsSnoc(headers: seq<string>, bodies: seq<seq<Line>>, header: string, body: seq<Line>)
    requires |headers| == |bodies|
    ensures Sections(headers + [header], bodies + [body]) == Sections(headers, bodies) + Section(header, body)
  {
    var h, b := headers + [header], bodies + [body];
    assert h[..|headers|] == headers && b[..|headers|] == bodies;
  }

  /** A buffer holding a prefix's layout, extended by a section's header line
      and its body one level deeper, holds the layout of the prefix followed
      by the section. */
  lemma SectionExtend(start: string, before: string, after: string, prefix: seq<Line>,
                      header: string, body: seq<Line>, indentation: int, column: int, at: int)
    requires indentation >= 0 && at == if |prefix| == 0 then column else 0
    requires before == start + Layout(prefix, indentation, column)
    requires after == before + LineText(at, indentation, header) + Layout(body, indentation + 1, 0)
    ensures after == start + Layout(prefix + Section(header, body), indentation, column)
  {
    var head, rest := LineText(at, indentation, header), Layout(body, indentation + 1, 0);
    LayoutAppend(prefix, Section(header, body), indentation, column);
    SectionLayout(header, body, indentation, at);
    Regroup(before, head, rest);
    Regroup(start, Layout(prefix, indentation, column), head + rest);
  }

  // ---------------------------------------------------------------------------
  // The writer

  class StringWriter {
    var buffer: string
    var indentation: int
    var column: int

    /** A new writer is empty, at indentation 0 and column 0. */
    constructor ()
      ensures buffer == "" && indentation == 0 && column == 0
    {
      buffer := "";
      indentation := 0;
      column := 0;
    }

    /** `toString`: the contents so far; nothing changes. */
    method ToString() returns (s: string)
      ensures s == buffer
    {
      s := buffer;
    }

    /** `print`: at column 0 pad with four spaces per level (a negative level
        traps), then append the contents verbatim and update the column. */
    method Print(contents: string)
      requires column == 0 ==> indentation >= 0
      modifies this
      ensures buffer == old(buffer) + (if old(column) == 0 then Padding(old(indentation)) else "") + contents
      ensures indentation == old(indentation)
      ensures column == ColumnAfter(old(column), old(indentation), contents)
    {
      if column == 0 {
        for i := 0 to indentation
          invariant buffer == old(buffer) + Padding(i)
          invariant indentation == old(indentation) && column == old(column)
        {
          buffer := buffer + "    ";
        }
        column := indentation * 4;
      }
      buffer := buffer + contents;
      column := column + |contents|;
      var last := LastIndexOf(contents, '\n');
      if last.Some? {
        column := column - (last.value + 1);
      }
    }

    /** `println`: `print`, then a newline, and the column is 0 again. */
    method Println(contents: string)
      requires column == 0 ==> indentation >= 0
      modifies this
      ensures buffer == old(buffer) + LineText(old(column), old(indentation), contents)
      ensures indentation == old(indentation) && column == 0
    {
      Print(contents);
      buffer := buffer + "\n";
      column := 0;
    }

    /** `indent`: one level deeper; nothing else changes. */
    method Indent()
      modifies this
      ensures indentation == old(indentation) + 1
      ensures buffer == old(buffer) && column == old(column)
    {
      indentation := indentation + 1;
    }

    /** `outdent`: one level shallower; nothing else changes. */
    method Outdent()
      modifies this
      ensures indentation == old(indentation) - 1
      ensures buffer == old(buffer) && column == old(column)
    {
      indentation := indentation - 1;
    }
  }

  /** `indent` followed by `outdent` gives back the writer's state; the buffer
      only ever grows. */
  method IndentOutdent(w: StringWriter)
    modifies w
    ensures w.buffer == old(w.buffer) && w.indentation == old(w.indentation) && w.column == old(w.column)
  {
    w.Indent();
    w.Outdent();
  }
}
