/** Lines, fences and level-2 headings of a Markdown text (`report/sections.rs`). */
module Markdown {
  import opened RustText

  // ------------------------------------------------------------------ trimming

  /** White_Space of the Unicode character database. */
  predicate Blank(s: string) {
    forall c | c in s :: IsSpace(c)
  }

  function TrimEnd(s: string): string {
    if s != "" && IsSpace(s[|s| - 1]) then TrimEnd(s[..|s| - 1]) else s
  }

  function TrimStart(s: string): string {
    if s != "" && IsSpace(s[0]) then TrimStart(s[1..]) else s
  }

  function Trim(s: string): string { TrimStart(TrimEnd(s)) }

  /** Non-empty and unchanged by `TrimEnd`. */
  predicate EndsInk(s: string) {
    s != "" && !IsSpace(s[|s| - 1])
  }

  lemma {:induction false} TrimEndIs(s: string)
    ensures TrimEnd(s) == "" || EndsInk(TrimEnd(s))
    ensures TrimEnd(s) <= s && Blank(s[|TrimEnd(s)|..])
  {
    if s != "" && IsSpace(s[|s| - 1]) {
      var n := |s| - 1;
      TrimEndIs(s[..n]);
      assert s[|TrimEnd(s)|..] == s[..n][|TrimEnd(s)|..] + [s[n]];
    }
  }

  lemma {:induction false} TrimEndDrops(s: string, ws: string)
    requires Blank(ws)
    ensures TrimEnd(s + ws) == TrimEnd(s)
  {
    if ws != "" {
      var n := |ws| - 1;
      assert IsSpace(ws[n]);
      assert (s + ws)[..|s + ws| - 1] == s + ws[..n];
      TrimEndDrops(s, ws[..n]);
    } else {
      assert s + ws == s;
    }
  }

  lemma TrimEndOf(s: string, ws: string)
    requires (s == "" || EndsInk(s)) && Blank(ws)
    ensures TrimEnd(s + ws) == s
  {
    TrimEndDrops(s, ws);
  }

  lemma {:induction false} TrimStartKeepsTail(s: string, ws: string)
    requires EndsInk(s)
    ensures EndsInk(TrimStart(s)) && TrimStart(s + ws) == TrimStart(s) + ws
  {
    if IsSpace(s[0]) {
      assert (s + ws)[1..] == s[1..] + ws;
      TrimStartKeepsTail(s[1..], ws);
    }
  }

  lemma {:induction false} TrimStartBlank(s: string)
    requires Blank(s)
    ensures TrimStart(s) == ""
  {
    if s != "" {
      assert s[0] in s;
      TrimStartBlank(s[1..]);
    }
  }

  // --------------------------------------------------------------------- lines

  /** Where the first line of a non-empty text ends, its newline included. */
  function LineEnd(s: string): (i: nat)
    requires s != ""
    ensures 0 < i <= |s| && '\n' !in s[..i - 1] && (i < |s| ==> s[i - 1] == '\n')
  {
    if s[0] == '\n' || |s| == 1 then 1 else 1 + LineEnd(s[1..])
  }

  /** `split_inclusive('\n')`. */
  function Lines(s: string): seq<string> {
    if s == "" then [] else [s[..LineEnd(s)]] + Lines(s[LineEnd(s)..])
  }

  predicate EndsLine(s: string) {
    s == "" || s[|s| - 1] == '\n'
  }

  /** A line: text without a newline, then optionally one newline. */
  predicate IsLine(s: string) {
    s != "" && '\n' !in s[..|s| - 1]
  }

  lemma FrontOfConcat<T>(a: seq<T>, b: seq<T>)
    requires b != []
    ensures (a + b)[..|a + b| - 1] == a + b[..|b| - 1] && (a + b)[|a + b| - 1] == b[|b| - 1]
  {
  }

  function Concat(parts: seq<string>): string {
    if parts == [] then "" else Concat(parts[..|parts| - 1]) + parts[|parts| - 1]
  }

  lemma {:induction false} ConcatAppends(a: seq<string>, b: seq<string>)
    ensures Concat(a + b) == Concat(a) + Concat(b)
  {
    if b == [] {
      assert a + b == a;
    } else {
      FrontOfConcat(a, b);
      ConcatAppends(a, b[..|b| - 1]);
    }
  }

  lemma {:induction false} LinesKeepText(s: string)
    ensures Concat(Lines(s)) == s
  {
    if s != "" {
      var i := LineEnd(s);
      LinesKeepText(s[i..]);
      ConcatStarts(s[..i], Lines(s[i..]));
      assert s == s[..i] + s[i..];
    }
  }

  lemma ConcatStarts(first: string, rest: seq<string>)
    ensures Concat([first] + rest) == first + Concat(rest)
  {
    ConcatAppends([first], rest);
    assert [first][..0] == [];
    assert Concat([first]) == "" + first;
  }

  lemma Slices(a: string, b: string, i: nat)
    requires i <= |a|
    ensures (a + b)[..i] == a[..i] && (a + b)[i..] == a[i..] + b
  {
  }

  lemma LineEndStays(a: string, b: string)
    requires a != "" && EndsLine(a)
    ensures a + b != "" && LineEnd(a + b) == LineEnd(a)
  {
    var i := LineEnd(a);
    Slices(a, b, i);
    Slices(a, b, i - 1);
    assert a[i - 1] == '\n';
  }

  lemma {:induction false} LinesAppend(a: string, b: string)
    requires EndsLine(a)
    ensures Lines(a + b) == Lines(a) + Lines(b)
  {
    if a == "" {
      assert a + b == b;
    } else {
      var i := LineEnd(a);
      LineEndStays(a, b);
      Slices(a, b, i);
      LinesAppend(a[i..], b);
      calc {
        Lines(a + b);
        [a[..i]] + Lines(a[i..] + b);
        [a[..i]] + (Lines(a[i..]) + Lines(b));
        [a[..i]] + Lines(a[i..]) + Lines(b);
      }
    }
  }

  lemma OneLine(s: string)
    requires IsLine(s)
    ensures Lines(s) == [s]
  {
    assert s[..|s|] == s && s[|s|..] == "";
  }

  /** Every piece is a line and all but the last end with a newline. */
  lemma {:induction false} LinesAreLines(s: string)
    ensures forall k | 0 <= k < |Lines(s)| :: IsLine(Lines(s)[k]) && (k < |Lines(s)| - 1 ==> EndsLine(Lines(s)[k]))
  {
    if s != "" {
      var i := LineEnd(s);
      assert s[..i][..i - 1] == s[..i - 1];
      LinesAreLines(s[i..]);
    }
  }

  // ------------------------------------------------------------------ scanning

  predicate StartsWith(s: string, prefix: string) { prefix <= s }

  predicate IsFence(line: string) {
    var t := TrimStart(line);
    StartsWith(t, "```") || StartsWith(t, "~~~")
  }

  /** A fence line is three backticks or three tildes behind any white space. */
  lemma {:induction false} FenceExactly(line: string)
    ensures IsFence(line) <==> exists k :: MarkedAt(line, k)
  {
    if line != "" && IsSpace(line[0]) {
      FenceExactly(line[1..]);
      if k :| MarkedAt(line[1..], k) {
        assert forall i | 0 < i < k + 1 :: line[i] == line[1..][i - 1];
        assert line[k + 1..][..3] == line[1..][k..][..3];
        assert MarkedAt(line, k + 1);
      }
      if k :| MarkedAt(line, k) {
        assert k > 0 by { assert "```"[0] == '`' && "~~~"[0] == '~'; }
        assert line[k..][..3] == line[1..][k - 1..][..3];
        assert MarkedAt(line[1..], k - 1);
      }
    } else {
      assert TrimStart(line) == line && line[0..] == line;
      if StartsWith(line, "```") { assert line[..3] == "```"; }
      if StartsWith(line, "~~~") { assert line[..3] == "~~~"; }
      if IsFence(line) { assert MarkedAt(line, 0); }
      if k :| MarkedAt(line, k) { assert k == 0; }
    }
  }

  predicate MarkedAt(line: string, k: int) {
    0 <= k <= |line| && (forall i | 0 <= i < k :: IsSpace(line[i])) && |line| - k >= 3 && line[k..][..3] in {"```", "~~~"}
  }

  predicate IsHeading(line: string) { StartsWith(line, "## ") }

  function HeadingText(line: string): string
    requires IsHeading(line)
  {
    Trim(line[3..])
  }

  datatype Section = Section(heading: string, text: string)

  /** `Split` together with the fence flag of the scan. */
  datatype Split = Split(preamble: string, sections: seq<Section>, inFence: bool)

  const EMPTY := Split("", [], false)

  function Feed(st: Split, line: string): Split {
    var inFence := if IsFence(line) then !st.inFence else st.inFence;
    if !inFence && IsHeading(line) then
      Split(st.preamble, st.sections + [Section(HeadingText(line), line)], inFence)
    else if st.sections != [] then
      Split(st.preamble, Extend(st.sections, line), inFence)
    else
      Split(st.preamble + line, [], inFence)
  }

  /** Adds `more` to the text of the last section. */
  function Extend(sections: seq<Section>, more: string): seq<Section>
    requires sections != []
  {
    var n := |sections| - 1;
    sections[n := Section(sections[n].heading, sections[n].text + more)]
  }

  function Scan(lines: seq<string>): Split {
    if lines == [] then EMPTY else Feed(Scan(lines[..|lines| - 1]), lines[|lines| - 1])
  }

  function SplitOf(text: string): Split { Scan(Lines(text)) }

  /** `split_markdown`. */
  method SplitMarkdown(markdown: string) returns (preamble: string, sections: seq<Section>)
    ensures preamble == SplitOf(markdown).preamble && sections == SplitOf(markdown).sections
  {
    preamble, sections := "", [];
    var inFence := false;
    var lines := Lines(markdown);
    for k := 0 to |lines|
      invariant Split(preamble, sections, inFence) == Scan(lines[..k])
    {
      assert Scan(lines[..k + 1]) == Feed(Scan(lines[..k]), lines[k]) by { assert lines[..k + 1][..k] == lines[..k]; }
      var line := lines[k];
      if IsFence(line) { inFence := !inFence; }
      if !inFence && IsHeading(line) {
        sections := sections + [Section(HeadingText(line), line)];
      } else if sections != [] {
        sections := Extend(sections, line);
      } else {
        preamble := preamble + line;
      }
    }
    assert lines[..|lines|] == lines;
  }

  function Texts(sections: seq<Section>): seq<string> {
    seq(|sections|, i requires 0 <= i < |sections| => sections[i].text)
  }

  function Content(st: Split): string { st.preamble + Concat(Texts(st.sections)) }

  lemma FeedKeepsContent(st: Split, line: string)
    ensures Content(Feed(st, line)) == Content(st) + line
  {
    var n := |st.sections| - 1;
    var old_, new_ := Texts(st.sections), Texts(Feed(st, line).sections);
    if |new_| > |old_| {
      assert new_[..|new_| - 1] == old_;
    } else if old_ != [] {
      assert new_[..n] == old_[..n];
      assert new_[n] == old_[n] + line;
    }
  }

  lemma {:induction false} ScanKeepsContent(lines: seq<string>)
    ensures Content(Scan(lines)) == Concat(lines)
  {
    if lines != [] {
      ScanKeepsContent(lines[..|lines| - 1]);
      FeedKeepsContent(Scan(lines[..|lines| - 1]), lines[|lines| - 1]);
    }
  }

  /** Nothing is lost or added: preamble and sections put together are the input. */
  lemma SplitKeepsText(text: string)
    ensures Content(SplitOf(text)) == text
  {
    ScanKeepsContent(Lines(text));
    LinesKeepText(text);
  }

  // ------------------------------------------------------------ fence parity

  function Fences(lines: seq<string>): nat {
    if lines == [] then 0 else Fences(lines[..|lines| - 1]) + if IsFence(lines[|lines| - 1]) then 1 else 0
  }

  lemma {:induction false} OpenIffOdd(lines: seq<string>)
    ensures Scan(lines).inFence <==> Fences(lines) % 2 == 1
  {
    if lines != [] { OpenIffOdd(lines[..|lines| - 1]); }
  }

  // ------------------------------------------------------------ joining scans

  /** What scanning the second text after the first gives, when the first ends outside a fence. */
  function Merge(a: Split, b: Split): Split {
    if a.sections == [] then Split(a.preamble + b.preamble, b.sections, b.inFence)
    else Split(a.preamble, Extend(a.sections, b.preamble) + b.sections, b.inFence)
  }

  lemma FeedMerges(a: Split, b: Split, line: string)
    ensures Feed(Merge(a, b), line) == Merge(a, Feed(b, line))
  {
    var m := Merge(a, b);
    if b.sections != [] {
      var n := |m.sections| - 1;
      assert m.sections[n] == b.sections[|b.sections| - 1];
      if a.sections != [] {
        assert Extend(m.sections, line) == Extend(a.sections, b.preamble) + Extend(b.sections, line);
      }
    } else if a.sections != [] {
      assert m.sections == Extend(a.sections, b.preamble);
      assert (a.sections[|a.sections| - 1].text + b.preamble) + line == a.sections[|a.sections| - 1].text + (b.preamble + line);
    }
  }

  lemma {:induction false} ScanAppends(a: seq<string>, b: seq<string>)
    requires !Scan(a).inFence
    ensures Scan(a + b) == Merge(Scan(a), Scan(b))
  {
    if b == [] {
      assert a + b == a;
      MergeEmpty(Scan(a));
    } else {
      FrontOfConcat(a, b);
      ScanAppends(a, b[..|b| - 1]);
      FeedMerges(Scan(a), Scan(b[..|b| - 1]), b[|b| - 1]);
    }
  }

  lemma MergeEmpty(a: Split)
    requires !a.inFence
    ensures Merge(a, EMPTY) == a
  {
    if a.sections != [] {
      var last := a.sections[|a.sections| - 1];
      assert last.text + "" == last.text;
      assert Extend(a.sections, "") + [] == a.sections;
    }
  }

  /** Texts scan independently when the first is whole lines and leaves no fence open. */
  lemma SplitAppends(a: string, b: string)
    requires EndsLine(a) && !SplitOf(a).inFence
    ensures SplitOf(a + b) == Merge(SplitOf(a), SplitOf(b))
  {
    LinesAppend(a, b);
    ScanAppends(Lines(a), Lines(b));
  }

  // ------------------------------------------------------- sections on their own

  /** The preamble and every section, scanned alone, give just themselves; only the last
      piece can leave a fence open. */
  ghost predicate Standalone(st: Split) {
    && SplitOf(st.preamble) == Split(st.preamble, [], st.sections == [] && st.inFence)
    && forall i | 0 <= i < |st.sections| :: Alone(st.sections[i], i == |st.sections| - 1 && st.inFence)
  }

  predicate Alone(s: Section, open: bool) {
    SplitOf(s.text) == Split("", [s], open)
  }

  predicate WholeLines(st: Split) {
    EndsLine(st.preamble) && forall i | 0 <= i < |st.sections| :: EndsLine(st.sections[i].text)
  }

  lemma ScanOneMore(text: string, line: string)
    requires EndsLine(text) && IsLine(line)
    ensures SplitOf(text + line) == Feed(SplitOf(text), line)
  {
    LinesAppend(text, line);
    OneLine(line);
    assert Lines(text + line)[..|Lines(text)|] == Lines(text);
  }

  lemma HeadingIsNoFence(line: string)
    requires IsHeading(line)
    ensures !IsFence(line)
  {
    assert line[0] == '#';
  }

  lemma HeadingStandsAlone(line: string)
    requires IsHeading(line) && IsLine(line)
    ensures Alone(Section(HeadingText(line), line), false)
  {
    HeadingIsNoFence(line);
    ScanOneMore("", line);
    assert "" + line == line && SplitOf("") == EMPTY;
    assert EMPTY.sections + [Section(HeadingText(line), line)] == [Section(HeadingText(line), line)];
  }

  lemma ExtendedStandsAlone(s: Section, open: bool, line: string)
    requires Alone(s, open) && EndsLine(s.text) && IsLine(line)
    requires !(IsHeading(line) && !(if IsFence(line) then !open else open))
    ensures Alone(Section(s.heading, s.text + line), if IsFence(line) then !open else open)
  {
    ScanOneMore(s.text, line);
  }

  lemma FeedStandalone(st: Split, line: string)
    requires Standalone(st) && WholeLines(st) && IsLine(line)
    ensures Standalone(Feed(st, line))
  {
    var after := Feed(st, line);
    var n := |st.sections| - 1;
    if IsHeading(line) { HeadingIsNoFence(line); }
    if !after.inFence && IsHeading(line) {
      HeadingStandsAlone(line);
      forall i | 0 <= i < |after.sections| ensures Alone(after.sections[i], i == |after.sections| - 1 && after.inFence) {
        assert i <= n ==> after.sections[i] == st.sections[i] && Alone(st.sections[i], i == n && st.inFence);
      }
    } else if st.sections != [] {
      assert Alone(st.sections[n], st.inFence);
      ExtendedStandsAlone(st.sections[n], st.inFence, line);
      forall i | 0 <= i < n ensures Alone(after.sections[i], false) {
        assert after.sections[i] == st.sections[i] && Alone(st.sections[i], i == n && st.inFence);
      }
    } else {
      ScanOneMore(st.preamble, line);
    }
  }

  lemma FeedKeepsWholeLines(st: Split, line: string)
    requires WholeLines(st) && line != "" && EndsLine(line)
    ensures WholeLines(Feed(st, line))
  {
  }

  lemma {:induction false} ScanStandalone(lines: seq<string>)
    requires forall k | 0 <= k < |lines| :: IsLine(lines[k]) && (k < |lines| - 1 ==> EndsLine(lines[k]))
    ensures Standalone(Scan(lines))
    ensures lines == [] || EndsLine(lines[|lines| - 1]) ==> WholeLines(Scan(lines))
  {
    if lines == [] {
      assert Lines("") == [];
    } else {
      ScanStandalone(lines[..|lines| - 1]);
      FeedStandalone(Scan(lines[..|lines| - 1]), lines[|lines| - 1]);
      if EndsLine(lines[|lines| - 1]) { FeedKeepsWholeLines(Scan(lines[..|lines| - 1]), lines[|lines| - 1]); }
    }
  }

  lemma SplitStandalone(text: string)
    ensures Standalone(SplitOf(text))
  {
    LinesAreLines(text);
    ScanStandalone(Lines(text));
  }

  // ----------------------------------------------- what trimming does to a scan

  /** A scan without its texts. */
  datatype Shape = Shape(bare: bool, headings: seq<string>, inFence: bool)

  function Headings(sections: seq<Section>): seq<string> {
    seq(|sections|, i requires 0 <= i < |sections| => sections[i].heading)
  }

  /** The last heading is empty. */
  predicate EndsBare(s: Shape) {
    s.headings != [] && s.headings[|s.headings| - 1] == ""
  }

  function ShapeOf(st: Split): Shape {
    Shape(st.preamble == "", Headings(st.sections), st.inFence)
  }

  function FeedShape(s: Shape, line: string): Shape {
    var inFence := if IsFence(line) then !s.inFence else s.inFence;
    if !inFence && IsHeading(line) then Shape(s.bare, s.headings + [HeadingText(line)], inFence)
    else Shape(s.bare && s.headings != [], s.headings, inFence)
  }

  lemma BlankIsPlain(line: string)
    requires Blank(line)
    ensures !IsFence(line) && !IsHeading(line)
  {
    TrimStartBlank(line);
    if line != "" { assert line[0] in line; }
  }

  lemma BlankKeepsShape(st: Split, line: string)
    requires (st.preamble != "" || st.sections != []) && line != "" && Blank(line)
    ensures ShapeOf(Feed(st, line)) == ShapeOf(st)
    ensures Feed(st, line).preamble != "" || Feed(st, line).sections != []
  {
    BlankIsPlain(line);
    if st.sections != [] { assert Headings(st.sections) != []; }
  }

  lemma ScanLast(a: seq<string>, b: seq<string>)
    requires b != []
    ensures Scan(a + b) == Feed(Scan(a + b[..|b| - 1]), b[|b| - 1])
  {
    FrontOfConcat(a, b);
  }

  /** Once something was scanned, blank lines leave the shape alone. */
  lemma {:induction false} BlankLinesKeepShape(lines: seq<string>, blanks: seq<string>)
    requires Scan(lines).preamble != "" || Scan(lines).sections != []
    requires forall b | b in blanks :: b != "" && Blank(b)
    ensures var st := Scan(lines + blanks);
            (st.preamble != "" || st.sections != []) && ShapeOf(st) == ShapeOf(Scan(lines))
  {
    if blanks == [] {
      assert lines + blanks == lines;
    } else {
      var n := |blanks| - 1;
      ScanLast(lines, blanks);
      assert blanks[n] in blanks && forall b | b in blanks[..n] :: b in blanks;
      BlankLinesKeepShape(lines, blanks[..n]);
      BlankKeepsShape(Scan(lines + blanks[..n]), blanks[n]);
    }
  }

  lemma {:induction false} LinesOfBlank(ws: string)
    requires Blank(ws)
    ensures forall b | b in Lines(ws) :: b != "" && Blank(b)
  {
    if ws != "" { LinesOfBlank(ws[LineEnd(ws)..]); }
  }

  /** No prefix of ink is completed by trailing space. */
  lemma InkPrefix(s: string, ws: string, prefix: string)
    requires EndsInk(s) && Blank(ws) && forall c | c in prefix :: !IsSpace(c)
    ensures StartsWith(s + ws, prefix) <==> StartsWith(s, prefix)
  {
    if |s| < |prefix| {
      assert prefix[|s|] in prefix;
      assert ws != "" ==> (s + ws)[|s|] == ws[0] && ws[0] in ws;
    } else {
      assert (s + ws)[..|prefix|] == s[..|prefix|];
    }
  }

  lemma FenceIgnoresTail(s: string, ws: string)
    requires EndsInk(s) && Blank(ws)
    ensures IsFence(s + ws) <==> IsFence(s)
  {
    TrimStartKeepsTail(s, ws);
    InkPrefix(TrimStart(s), ws, "```");
    InkPrefix(TrimStart(s), ws, "~~~");
  }

  /** Trailing space makes a heading only out of a bare `##`. */
  lemma HeadingIgnoresTail(s: string, ws: string)
    requires EndsInk(s) && Blank(ws)
    ensures IsHeading(s + ws) <==> IsHeading(s) || (s == "##" && ws != "" && ws[0] == ' ')
    ensures IsHeading(s) ==> HeadingText(s + ws) == HeadingText(s)
    ensures s == "##" && ws != "" && ws[0] == ' ' ==> HeadingText(s + ws) == ""
  {
    InkPrefix(s, ws, "##");
    if |s| >= 3 {
      assert (s + ws)[..3] == s[..3];
      assert (s + ws)[3..] == s[3..] + ws;
      TrimEndDrops(s[3..], ws);
    } else if |s| == 2 {
      assert ws != "" ==> (s + ws)[2] == ws[0];
      if s == "##" && ws != "" {
        assert (s + ws)[3..] == "" + ws[1..];
        TrimEndDrops("", ws[1..]);
      }
    } else {
      assert ws != "" ==> (s + ws)[1] == ws[0] && ws[0] in ws;
    }
  }

  lemma ShapeIgnoresTail(s: Shape, line: string, tail: string)
    requires EndsInk(line) && Blank(tail)
    ensures var a, b := FeedShape(s, line + tail), FeedShape(s, line);
            a == b || EndsBare(a)
  {
    FenceIgnoresTail(line, tail);
    HeadingIgnoresTail(line, tail);
  }

  lemma NewlineKeepsShape(s: Shape, line: string, tail: string)
    requires EndsInk(line) && tail <= "\n"
    ensures FeedShape(s, line + tail) == FeedShape(s, line)
  {
    FenceIgnoresTail(line, tail);
    HeadingIgnoresTail(line, tail);
  }

  /** Where the last line of `s` starts. */
  function LastLine(s: string): (i: nat)
    ensures i <= |s| && EndsLine(s[..i]) && '\n' !in s[i..]
  {
    if s == "" || s[|s| - 1] == '\n' then |s| else LastLine(s[..|s| - 1])
  }

  lemma LinesOfLast(w: string, ws: string)
    requires w != "" && '\n' !in w && Blank(ws)
    ensures exists tail: string, rest: seq<string> :: IsTail(w, ws, tail, rest)
  {
    var i := LineEnd(w + ws);
    forall k | 0 <= k < |w| ensures (w + ws)[k] != '\n' { assert w[k] in w; }
    assert (w + ws)[..i] == w + ws[..i - |w|];
    assert (w + ws)[i..] == ws[i - |w|..];
    LinesOfBlank(ws[i - |w|..]);
    assert IsTail(w, ws, ws[..i - |w|], Lines(ws[i - |w|..]));
  }

  ghost predicate IsTail(w: string, ws: string, tail: string, rest: seq<string>) {
    && Lines(w + ws) == [w + tail] + rest
    && Blank(tail) && tail <= ws && (forall b | b in rest :: b != "" && Blank(b))
  }

  /** Replacing the trailing space of a text by one newline keeps the shape of its scan,
      unless that text ends in an empty heading. */
  lemma TrimKeepsShape(r: string, ws: string)
    requires EndsInk(r) && Blank(ws)
    ensures var a, b := ShapeOf(SplitOf(r + ws)), ShapeOf(SplitOf(r + "\n"));
            a == b || EndsBare(a)
  {
    var i := LastLine(r);
    var u, w := r[..i], r[i..];
    assert EndsInk(w);
    assert r + ws == u + (w + ws) && r + "\n" == u + (w + "\n");
    var tail := ShapeAtEnd(u, w, ws);
    var tail' := ShapeAtEnd(u, w, "\n");
    var before := ShapeOf(Scan(Lines(u)));
    ShapeIgnoresTail(before, w, tail);
    NewlineKeepsShape(before, w, tail');
  }

  lemma ShapeAtEnd(u: string, w: string, ws: string) returns (tail: string)
    requires EndsLine(u) && EndsInk(w) && '\n' !in w && Blank(ws)
    ensures Blank(tail) && tail <= ws
    ensures ShapeOf(SplitOf(u + (w + ws))) == FeedShape(ShapeOf(Scan(Lines(u))), w + tail)
  {
    LinesAppend(u, w + ws);
    LinesOfLast(w, ws);
    var rest;
    tail, rest :| IsTail(w, ws, tail, rest);
    assert Lines(u + (w + ws)) == Lines(u) + [w + tail] + rest;
    LastLineShape(Lines(u), w, tail, rest);
  }

  lemma LastLineShape(before: seq<string>, w: string, tail: string, rest: seq<string>)
    requires EndsInk(w) && Blank(tail) && forall b | b in rest :: b != "" && Blank(b)
    ensures ShapeOf(Scan(before + [w + tail] + rest)) == FeedShape(ShapeOf(Scan(before)), w + tail)
  {
    var line := w + tail;
    assert (before + [line])[..|before|] == before;
    BlankLinesKeepShape(before + [line], rest);
  }

  // ------------------------------------------------------- joining trimmed pieces

  lemma BlankHasNoSection(text: string)
    requires Blank(text)
    ensures SplitOf(text).sections == []
  {
    LinesOfBlank(text);
    NoHeadingNoSection(Lines(text));
  }

  lemma {:induction false} NoHeadingNoSection(lines: seq<string>)
    requires forall b | b in lines :: Blank(b)
    ensures Scan(lines).sections == []
  {
    if lines != [] {
      var n := |lines| - 1;
      assert forall b | b in lines[..n] :: b in lines;
      NoHeadingNoSection(lines[..n]);
      assert lines[n] in lines;
      BlankIsPlain(lines[n]);
    }
  }

  /** Trimming keeps the shape of a text that is not blank and ends in no empty heading. */
  lemma TrimmedShape(text: string)
    requires TrimEnd(text) != ""
    requires !EndsBare(ShapeOf(SplitOf(text)))
    ensures EndsInk(TrimEnd(text)) && ShapeOf(SplitOf(TrimEnd(text) + "\n")) == ShapeOf(SplitOf(text))
  {
    var r := TrimEnd(text);
    var ws := Trailing(text);
    TrimKeepsShape(r, ws);
  }

  lemma Trailing(text: string) returns (ws: string)
    ensures text == TrimEnd(text) + ws && Blank(ws)
    ensures TrimEnd(text) == "" || EndsInk(TrimEnd(text))
  {
    TrimEndIs(text);
    ws := text[|TrimEnd(text)|..];
  }

  lemma NotBlank(s: Section, open: bool)
    requires Alone(s, open)
    ensures TrimEnd(s.text) != ""
  {
    TrimEndIs(s.text);
    if TrimEnd(s.text) == "" {
      assert s.text[0..] == s.text;
      BlankHasNoSection(s.text);
    }
  }

  /** A trimmed section scans as that section again. */
  lemma TrimmedSection(s: Section, open: bool)
    requires Alone(s, open) && s.heading != ""
    ensures var r := TrimEnd(s.text); EndsInk(r) && Alone(Section(s.heading, r + "\n"), open)
  {
    var r := TrimEnd(s.text);
    NotBlank(s, open);
    assert ShapeOf(SplitOf(s.text)).headings == [s.heading];
    TrimmedShape(s.text);
    SplitKeepsText(r + "\n");
    OneSection(SplitOf(r + "\n"), s.heading, open);
  }

  lemma OneSection(st: Split, heading: string, open: bool)
    requires ShapeOf(st) == Shape(true, [heading], open)
    ensures st == Split("", [Section(heading, Content(st))], open)
  {
    assert |st.sections| == |ShapeOf(st).headings| == 1;
    assert st.sections[0].heading == ShapeOf(st).headings[0];
    assert Texts(st.sections)[..0] == [];
    var text := st.sections[0].text;
    assert Concat(Texts(st.sections)) == "" + text == text;
    assert st.sections == [Section(heading, text)] && "" + text == text;
  }

  /** A trimmed preamble scans as a preamble again. */
  lemma TrimmedPreamble(preamble: string, open: bool)
    requires SplitOf(preamble) == Split(preamble, [], open) && TrimEnd(preamble) != ""
    ensures var r := TrimEnd(preamble); EndsInk(r) && SplitOf(r + "\n") == Split(r + "\n", [], open)
  {
    var r := TrimEnd(preamble);
    assert ShapeOf(SplitOf(preamble)).headings == [];
    TrimmedShape(preamble);
    var st := SplitOf(r + "\n");
    assert |st.sections| == |ShapeOf(st).headings| == 0;
    SplitKeepsText(r + "\n");
  }

  /** `parts.join("\n\n")`. */
  function Join(parts: seq<string>): string
    requires parts != []
  {
    if |parts| == 1 then parts[0] else Join(parts[..|parts| - 1]) + "\n\n" + parts[|parts| - 1]
  }

  /** The scans of the parts, one after the other. */
  function Chain(parts: seq<string>): Split
    requires parts != []
  {
    var n := |parts| - 1;
    if n == 0 then SplitOf(parts[0] + "\n") else Merge(Feed(Chain(parts[..n]), "\n"), SplitOf(parts[n] + "\n"))
  }

  predicate Closed(part: string) { !SplitOf(part + "\n").inFence }

  lemma JoinedText(a: string, b: string)
    ensures (a + "\n\n" + b) + "\n" == ((a + "\n") + "\n") + (b + "\n")
  {
  }

  lemma SplitAfterPart(a: string, b: string)
    requires !SplitOf(a + "\n").inFence
    ensures SplitOf(((a + "\n") + "\n") + (b + "\n")) == Merge(Feed(SplitOf(a + "\n"), "\n"), SplitOf(b + "\n"))
  {
    ScanOneMore(a + "\n", "\n");
    BlankIsPlain("\n");
    SplitAppends((a + "\n") + "\n", b + "\n");
  }

  /** If no part but the last leaves a fence open, the joined text scans part by part. */
  lemma {:induction false} JoinScansByPart(parts: seq<string>)
    requires parts != [] && forall k | 0 <= k < |parts| - 1 :: Closed(parts[k])
    ensures SplitOf(Join(parts) + "\n") == Chain(parts)
    ensures Chain(parts).inFence == !Closed(parts[|parts| - 1])
  {
    var n := |parts| - 1;
    if n > 0 {
      JoinScansByPart(parts[..n]);
      assert Closed(parts[n - 1]);
      JoinedText(Join(parts[..n]), parts[n]);
      SplitAfterPart(Join(parts[..n]), parts[n]);
    }
  }

  /** A trimmed section that scans as itself. */
  ghost predicate ScansAlone(s: Section, open: bool) {
    EndsInk(s.text) && Alone(Section(s.heading, s.text + "\n"), open)
  }

  function Gapped(s: Section): Section { Section(s.heading, s.text + "\n\n") }

  /** Sections set out with one blank line after each but the last. */
  function Spaced(picked: seq<Section>): seq<Section> {
    if picked == [] then []
    else
      var n := |picked| - 1;
      seq(n, k requires 0 <= k < n => Gapped(picked[k])) + [Section(picked[n].heading, picked[n].text + "\n")]
  }

  /** A preamble and sections as the printed report holds them. */
  function Laid(pre: string, picked: seq<Section>, open: bool): Split {
    Split(if pre == "" then "" else if picked == [] then pre + "\n" else pre + "\n\n", Spaced(picked), open)
  }

  function Pieces(pre: string, picked: seq<Section>): seq<string> {
    (if pre == "" then [] else [pre]) + Texts(picked)
  }

  lemma FedLaid(pre: string, picked: seq<Section>)
    requires pre != "" || picked != []
    ensures Feed(Laid(pre, picked, false), "\n") ==
            Split(if pre == "" then "" else pre + "\n\n", seq(|picked|, k requires 0 <= k < |picked| => Gapped(picked[k])), false)
  {
    BlankIsPlain("\n");
    var n := |picked| - 1;
    var fed := Feed(Laid(pre, picked, false), "\n");
    if picked != [] {
      Doubled(picked[n].text);
      assert fed.sections == seq(n + 1, k requires 0 <= k < n + 1 => Gapped(picked[k]));
    } else {
      Doubled(pre);
    }
  }

  lemma Doubled(s: string)
    ensures (s + "\n") + "\n" == s + "\n\n" && s + "" == s
  {
  }

  lemma MergeSection(a: Split, s: Section, open: bool)
    ensures Merge(a, Split("", [s], open)) == Split(a.preamble, a.sections + [s], open)
  {
    Doubled(a.preamble);
    if a.sections != [] {
      Doubled(a.sections[|a.sections| - 1].text);
      assert Extend(a.sections, "") == a.sections;
    }
  }

  lemma LaidGrows(pre: string, picked: seq<Section>, s: Section, open: bool)
    requires pre != "" || picked != []
    ensures Merge(Feed(Laid(pre, picked, false), "\n"), Split("", [Section(s.heading, s.text + "\n")], open)) == Laid(pre, picked + [s], open)
  {
    var fed := Feed(Laid(pre, picked, false), "\n");
    FedLaid(pre, picked);
    MergeSection(fed, Section(s.heading, s.text + "\n"), open);
    assert Spaced(picked + [s]) == fed.sections + [Section(s.heading, s.text + "\n")];
  }

  lemma PiecesGrow(pre: string, picked: seq<Section>, s: Section)
    requires pre != "" || picked != []
    ensures Join(Pieces(pre, picked + [s])) == Join(Pieces(pre, picked)) + "\n\n" + s.text
  {
    var all := Pieces(pre, picked + [s]);
    assert Texts(picked + [s]) == Texts(picked) + [s.text];
    assert all == Pieces(pre, picked) + [s.text];
    assert all[..|all| - 1] == Pieces(pre, picked);
  }

  lemma LaidMore(pre: string, picked: seq<Section>, s: Section, open: bool)
    requires (pre != "" || picked != []) && ScansAlone(s, open)
    requires SplitOf(Join(Pieces(pre, picked)) + "\n") == Laid(pre, picked, false)
    ensures SplitOf(Join(Pieces(pre, picked + [s])) + "\n") == Laid(pre, picked + [s], open)
  {
    var j := Join(Pieces(pre, picked));
    PiecesGrow(pre, picked, s);
    JoinedText(j, s.text);
    SplitAfterPart(j, s.text);
    LaidGrows(pre, picked, s, open);
  }

  /** Pieces that scan as themselves, all but the last closed, are found again in the text
      they are joined to. */
  lemma {:induction false} LaidScans(pre: string, picked: seq<Section>, open: bool)
    requires pre != "" || picked != []
    requires pre != "" ==> SplitOf(pre + "\n") == Split(pre + "\n", [], picked == [] && open)
    requires forall k | 0 <= k < |picked| :: ScansAlone(picked[k], k == |picked| - 1 && open)
    ensures SplitOf(Join(Pieces(pre, picked)) + "\n") == Laid(pre, picked, open)
  {
    var n := |picked| - 1;
    if picked == [] {
      assert Pieces(pre, picked) == [pre];
    } else {
      var front, s := picked[..n], picked[n];
      assert picked == front + [s] && ScansAlone(s, open);
      if pre == "" && front == [] {
        assert picked == [s];
      } else {
        assert forall k | 0 <= k < n :: ScansAlone(picked[k], false);
        LaidScans(pre, front, false);
        LaidMore(pre, front, s, open);
      }
    }
  }

  // ---------------------------------------------- a fence left open in the middle

  lemma {:induction false} InkStays(s: string, i: nat)
    requires i < |s| && !IsSpace(s[i])
    ensures i < |TrimEnd(s)|
  {
    if IsSpace(s[|s| - 1]) { InkStays(s[..|s| - 1], i); }
  }

  /** Section `k` is still there and its text only got longer. */
  ghost predicate Grows(a: Split, b: Split, k: nat) {
    k < |a.sections| && k < |b.sections| && a.sections[k].text <= b.sections[k].text
  }

  lemma {:induction false} ScanGrows(a: seq<string>, b: seq<string>, k: nat)
    requires k < |Scan(a).sections|
    ensures Grows(Scan(a), Scan(a + b), k)
  {
    if b == [] {
      assert a + b == a;
    } else {
      FrontOfConcat(a, b);
      ScanGrows(a, b[..|b| - 1], k);
    }
  }

  lemma {:induction false} JoinAppends(a: seq<string>, b: seq<string>)
    requires a != [] && b != []
    ensures Join(a + b) == Join(a) + "\n\n" + Join(b)
  {
    var n := |b| - 1;
    assert (a + b)[..|a + b| - 1] == a + b[..n];
    if n == 0 {
      assert a + b[..0] == a;
    } else {
      JoinAppends(a, b[..n]);
    }
  }

  lemma {:induction false} JoinStarts(parts: seq<string>)
    requires parts != []
    ensures parts[0] <= Join(parts)
  {
    if |parts| > 1 { JoinStarts(parts[..|parts| - 1]); }
  }

  lemma LinesOfJoined(a: string, b: string) returns (first: string, rest: seq<string>)
    requires IsHeading(b)
    ensures IsHeading(first)
    ensures Lines((a + "\n\n" + b) + "\n") == (Lines(a + "\n") + ["\n"] + [first]) + rest
  {
    var lines := Lines(b + "\n");
    assert IsHeading(b + "\n");
    first, rest := lines[0], lines[1..];
    JoinedText(a, b);
    OneLine("\n");
    LinesAppend(a + "\n", "\n");
    LinesAppend((a + "\n") + "\n", b + "\n");
    assert (Lines(a + "\n") + ["\n"]) + lines == (Lines(a + "\n") + ["\n"] + [first]) + rest;
  }

  /** When a fence is left open, the next section is swallowed by the one before it. */
  lemma Swallowed(a: string, b: string)
    requires SplitOf(a + "\n").inFence && SplitOf(a + "\n").sections != [] && IsHeading(b)
    ensures var st, all := SplitOf(a + "\n"), SplitOf((a + "\n\n" + b) + "\n");
            var k := |st.sections| - 1;
            |all.sections| > k && |TrimEnd(all.sections[k].text)| > |st.sections[k].text|
  {
    var st, k := SplitOf(a + "\n"), |SplitOf(a + "\n").sections| - 1;
    var first, rest := LinesOfJoined(a, b);
    var head := Lines(a + "\n") + ["\n"] + [first];
    ScanGrows(head, rest, k);
    InkAfter(st.sections[k].text, first, Scan(head + rest).sections[k].text);
  }

  lemma InkAfter(before: string, line: string, text: string)
    requires IsHeading(line) && before + "\n" + line <= text
    ensures |TrimEnd(text)| > |before|
  {
    assert text[|before| + 1] == (before + "\n" + line)[|before| + 1] == line[0] == '#';
    InkStays(text, |before| + 1);
  }

  lemma {:induction false} PlainFirst(lines: seq<string>)
    requires lines != [] && lines[0] != "" && !IsHeading(lines[0])
    ensures Scan(lines).preamble != ""
  {
    if |lines| == 1 {
      assert lines[..0] == [];
    } else {
      PlainFirst(lines[..|lines| - 1]);
    }
  }

  /** The text of a section begins with its heading line. */
  lemma AloneStarts(s: Section, open: bool)
    requires Alone(s, open)
    ensures IsHeading(s.text)
  {
    assert SplitOf("") == EMPTY;
    var first := Lines(s.text)[0];
    if !IsHeading(first) { PlainFirst(Lines(s.text)); }
    assert first == s.text[..LineEnd(s.text)];
  }

  lemma ScansAloneStarts(s: Section, open: bool)
    requires ScansAlone(s, open)
    ensures IsHeading(s.text)
  {
    AloneStarts(Section(s.heading, s.text + "\n"), open);
    assert (s.text + "\n")[2] == ' ' && (s.text + "\n")[..3] == "## ";
    assert (s.text + "\n")[..3] == s.text[..3];
  }

  lemma PiecesSplit(pre: string, head: seq<Section>, tail: seq<Section>)
    requires head != [] && tail != []
    ensures Join(Pieces(pre, head + tail)) == Join(Pieces(pre, head)) + "\n\n" + Join(Texts(tail))
  {
    assert Texts(head + tail) == Texts(head) + Texts(tail);
    assert Pieces(pre, head + tail) == Pieces(pre, head) + Texts(tail);
    JoinAppends(Pieces(pre, head), Texts(tail));
  }

  lemma JoinIsHeading(tail: seq<Section>)
    requires tail != [] && ScansAlone(tail[0], false)
    ensures IsHeading(Join(Texts(tail)))
  {
    ScansAloneStarts(tail[0], false);
    JoinStarts(Texts(tail));
    PrefixHeading(tail[0].text, Join(Texts(tail)));
  }

  /** When a section other than the last leaves a fence open, it is not found again. */
  lemma LaidIsLost(pre: string, head: seq<Section>, tail: seq<Section>)
    requires head != [] && tail != [] && ScansAlone(tail[0], false)
    requires SplitOf(Join(Pieces(pre, head)) + "\n") == Laid(pre, head, true)
    ensures var all := SplitOf(Join(Pieces(pre, head + tail)) + "\n");
            var j := |head| - 1;
            |all.sections| > j && TrimEnd(all.sections[j].text) != head[j].text
  {
    PiecesSplit(pre, head, tail);
    JoinIsHeading(tail);
    Swallowed(Join(Pieces(pre, head)), Join(Texts(tail)));
  }

  lemma PrefixHeading(a: string, b: string)
    requires IsHeading(a) && a <= b
    ensures IsHeading(b)
  {
    assert b[..3] == a[..3];
  }
}
