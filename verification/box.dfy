/** `wrapInBox`: every reply is drawn as a fixed-width box inside a Markdown
    code block. Widths are "visual lengths": UTF-16 code units plus one per
    surrogate pair, zero-width joiner (U+200D) and variation selector
    (U+FE0F), the source's guess at how wide emoji render. */
module Box {
  import opened Text

  /** Inner width of the box. */
  const BoxWidth := 22

  type CodeUnit = x: int | 0 <= x < 0x1_0000

  predicate IsHighSurrogate(u: CodeUnit) { 0xD800 <= u <= 0xDBFF }
  predicate IsLowSurrogate(u: CodeUnit) { 0xDC00 <= u <= 0xDFFF }

  /** The UTF-16 code units of one character: one below U+10000, otherwise a
      high surrogate followed by a low one. */
  function Utf16Char(c: char): (u: seq<CodeUnit>)
    ensures c as int < 0x1_0000 ==> u == [c as int] && !IsHighSurrogate(u[0])
    ensures c as int >= 0x1_0000 ==> |u| == 2 && IsHighSurrogate(u[0]) && IsLowSurrogate(u[1])
  {
    var v := c as int;
    if v < 0x1_0000 then [v]
    else [0xD800 + (v - 0x1_0000) / 0x400, 0xDC00 + (v - 0x1_0000) % 0x400]
  }

  /** A JavaScript string as its sequence of UTF-16 code units; `str.length` is its length. */
  function Utf16(s: string): seq<CodeUnit> {
    if |s| == 0 then [] else Utf16Char(s[0]) + Utf16(s[1..])
  }

  /** The number of matches of `/[\uD800-\uDBFF][\uDC00-\uDFFF]|\u200D|\uFE0F/g`:
      a left-to-right scan that consumes a surrogate pair as one match and a
      joiner or variation selector as another. */
  function EmojiMatches(u: seq<CodeUnit>): nat
    decreases |u|
  {
    if |u| == 0 then 0
    else if |u| >= 2 && IsHighSurrogate(u[0]) && IsLowSurrogate(u[1]) then 1 + EmojiMatches(u[2..])
    else if u[0] == 0x200D || u[0] == 0xFE0F then 1 + EmojiMatches(u[1..])
    else EmojiMatches(u[1..])
  }

  /** `getVisualLength(str)`: `str.length` plus the number of matches. It
      counts each character once, astral characters three times (two code
      units plus one match) and joiners and variation selectors twice. */
  function VisualLength(s: string): (v: nat)
    ensures v == |s| + 2 * Astral(s) + Joiners(s)
  {
    Utf16Counts(s);
    |Utf16(s)| + EmojiMatches(Utf16(s))
  }

  /** Characters outside the Basic Multilingual Plane (two code units each). */
  function Astral(s: string): nat {
    if |s| == 0 then 0 else (if s[0] as int >= 0x1_0000 then 1 else 0) + Astral(s[1..])
  }

  /** Zero-width joiners and variation selectors-16. */
  function Joiners(s: string): nat {
    if |s| == 0 then 0 else (if s[0] == '\U{200D}' || s[0] == '\U{FE0F}' then 1 else 0) + Joiners(s[1..])
  }

  lemma {:induction false} Utf16Counts(s: string)
    ensures |Utf16(s)| + EmojiMatches(Utf16(s)) == |s| + 2 * Astral(s) + Joiners(s)
    decreases |s|
  {
    if |s| > 0 {
      Utf16Counts(s[1..]);
      var head := Utf16Char(s[0]);
      var rest := Utf16(s[1..]);
      assert Utf16(s) == head + rest;
      if s[0] as int >= 0x1_0000 {
        assert (head + rest)[2..] == rest;
      } else {
        assert (head + rest)[1..] == rest;
      }
    }
  }

  lemma {:induction false} CountsAppend(a: string, b: string)
    ensures Astral(a + b) == Astral(a) + Astral(b)
    ensures Joiners(a + b) == Joiners(a) + Joiners(b)
    decreases |a|
  {
    if |a| > 0 {
      assert (a + b)[1..] == a[1..] + b;
      CountsAppend(a[1..], b);
    } else {
      assert a + b == b;
    }
  }

  /** Visual length adds up over concatenation. */
  lemma VisualLengthAppend(a: string, b: string)
    ensures VisualLength(a + b) == VisualLength(a) + VisualLength(b)
  {
    CountsAppend(a, b);
  }

  lemma {:induction false} SpacesVisualLength(n: nat)
    ensures VisualLength(Spaces(n)) == n
    decreases n
  {
    if n > 0 {
      assert Spaces(n) == Spaces(n - 1) + " ";
      SpacesVisualLength(n - 1);
      VisualLengthAppend(Spaces(n - 1), " ");
    }
  }

  /** `padLine(text)`: `text` followed by spaces up to the box width. Text
      already as wide as the box is left alone; shorter text comes out
      exactly as wide as the box. */
  function PadLine(t: string): (r: string)
    ensures StartsWith(r, t)
    ensures forall i :: |t| <= i < |r| ==> r[i] == ' '
    ensures VisualLength(t) >= BoxWidth ==> r == t
    ensures VisualLength(t) < BoxWidth ==> VisualLength(r) == BoxWidth
  {
    var len := VisualLength(t);
    var padding := if BoxWidth - len > 0 then BoxWidth - len else 0;
    VisualLengthAppend(t, Spaces(padding));
    SpacesVisualLength(padding);
    assert (t + Spaces(padding))[..|t|] == t;
    t + Spaces(padding)
  }

  /** The horizontal rule, `"═".repeat(BOX_WIDTH + 2)`. */
  function Border(): string { Repeat('\U{2550}', BoxWidth + 2) }

  function TopBorder(): string { "\U{2554}" + Border() + "\U{2557}" }
  function Separator(): string { "\U{2560}" + Border() + "\U{2563}" }
  function BottomBorder(): string { "\U{255A}" + Border() + "\U{255D}" }

  /** One boxed row, `║ text ║`. */
  function Row(text: string): string { "\U{2551} " + text + " \U{2551}" }

  /** The row for one line of content: trimmed, blank lines as a row of spaces. */
  function ContentRow(line: string): string {
    var text := Trim(line);
    if text == "" then Row(Spaces(BoxWidth)) else Row(PadLine(text))
  }

  /** The content rows of a list of lines, `lines.map(...)`; the source appends each with a newline. */
  function ContentLines(lines: seq<string>): (rows: seq<string>)
    ensures |rows| == |lines|
    ensures forall i :: 0 <= i < |lines| ==> rows[i] == ContentRow(lines[i])
  {
    if |lines| == 0 then [] else [ContentRow(lines[0])] + ContentLines(lines[1..])
  }

  /** Each string followed by a newline, concatenated. */
  function Terminated(rows: seq<string>): string {
    if |rows| == 0 then "" else rows[0] + "\n" + Terminated(rows[1..])
  }

  /** `wrapInBox(title, content)`: the fence, the top border, the title row,
      the separator, one row per line of content and the bottom border are
      each appended with a newline, then the closing fence without one.
      Upper-casing is ASCII only. The result is the box's lines joined
      with newlines. */
  function WrapInBox(title: string, content: string): (r: string)
    ensures r == Join(BoxLines(title, content), '\n')
  {
    var head := ["```", TopBorder(), Row(PadLine(Upper(title))), Separator()]
      + ContentLines(Split(content, '\n')) + [BottomBorder()];
    TerminatedJoin(head, ["```"]);
    assert head + ["```"] == BoxLines(title, content);
    Terminated(head) + "```"
  }

  /** The lines of a box: the fence, top border, title row, separator, one
      row per line of content, bottom border and the closing fence. */
  function BoxLines(title: string, content: string): seq<string> {
    ["```", TopBorder(), Row(PadLine(Upper(title))), Separator()]
      + ContentLines(Split(content, '\n'))
      + [BottomBorder(), "```"]
  }

  lemma {:induction false} TerminatedJoin(rows: seq<string>, tail: seq<string>)
    requires |tail| >= 1
    ensures Terminated(rows) + Join(tail, '\n') == Join(rows + tail, '\n')
    decreases |rows|
  {
    if |rows| == 0 {
      assert rows + tail == tail;
    } else {
      TerminatedJoin(rows[1..], tail);
      var all := rows + tail;
      assert all[1..] == rows[1..] + tail;
    }
  }

  /** A row built from newline-free text has no newline. */
  lemma RowNoNewline(text: string)
    requires '\n' !in text
    ensures '\n' !in Row(text)
  {
  }

  lemma ContentRowNoNewline(line: string)
    requires '\n' !in line
    ensures '\n' !in ContentRow(line)
  {
    var text := Trim(line);
    assert '\n' !in text by {
      var i := SkipSpace(line, 0);
      assert text == line[i..i + |text|];
    }
    RowNoNewline(if text == "" then Spaces(BoxWidth) else PadLine(text));
  }

  /** Splitting a box at its newlines gives back its lines, so a box of
      `n` content lines has exactly `n + 6` lines, in the stated order,
      provided the title itself has no newline. */
  lemma BoxShape(title: string, content: string)
    requires '\n' !in title
    ensures Split(WrapInBox(title, content), '\n') == BoxLines(title, content)
    ensures |Split(WrapInBox(title, content), '\n')| == |Split(content, '\n')| + 6
  {
    var lines := Split(content, '\n');
    var ls := BoxLines(title, content);
    RowNoNewline(PadLine(Upper(title)));
    forall i | 0 <= i < |lines|
      ensures '\n' !in ContentLines(lines)[i]
    {
      ContentRowNoNewline(lines[i]);
    }
    forall i | 0 <= i < |ls|
      ensures '\n' !in ls[i]
    {
      if 4 <= i < 4 + |lines| {
        assert ls[i] == ContentLines(lines)[i - 4];
      }
    }
    SplitJoin(ls, '\n');
  }

  /** Every content row is at least as wide as the box plus its frame, and
      exactly that wide unless its trimmed text overflows the box. */
  lemma ContentRowWidth(line: string)
    ensures VisualLength(Trim(line)) < BoxWidth ==> VisualLength(ContentRow(line)) == BoxWidth + 4
    ensures VisualLength(Trim(line)) >= BoxWidth ==> VisualLength(ContentRow(line)) == VisualLength(Trim(line)) + 4
  {
    var text := Trim(line);
    var body := if text == "" then Spaces(BoxWidth) else PadLine(text);
    SpacesVisualLength(BoxWidth);
    VisualLengthAppend("\U{2551} ", body);
    VisualLengthAppend("\U{2551} " + body, " \U{2551}");
  }
}
