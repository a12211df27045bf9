/** The current renderer, RenderMarkdown in render/bean.go:43-374: one fold
    over the lines, with the inline pass, the block chain and the paragraph
    buffer. The terminal width is a parameter and wrap.WrapString an
    uninterpreted function applied to paragraph chunks at the very end. */
module Render {
  import opened Text
  import Ansi
  import Inline
  import opened Blocks
  import opened Lists
  import Spacing
  import Spans

  /** A piece of oBuffer: literal text, or paragraph text that went through
      wrap.WrapString when pBuffer was merged. */
  datatype Chunk = Raw(text: string) | Wrapped(paragraph: string)

  /** prevIndentMultiplier, prevListWasOrdered, orderedIterator and its history. */
  datatype ListState = ListState(level: nat, ordered: bool, counter: Counter)

  /** resetListVariables (render/bean.go:109-114). */
  const ListReset: ListState := ListState(0, false, Counter(1, []))

  /** oBuffer, prevElements, pBuffer and the list variables. */
  datatype State = State(out: seq<Chunk>, recent: Spacing.Recent, para: string, list: ListState)

  const Start: State := State([], Spacing.Initial, "", ListReset)

  /** Between lines the history holds one saved counter per level above the
      root, and every counter is at least 1. */
  predicate ValidList(ls: ListState) {
    && |ls.counter.history| == ls.level
    && ls.counter.value >= 1
    && forall i | 0 <= i < |ls.counter.history| :: ls.counter.history[i] >= 1
  }

  predicate Valid(st: State) {
    ValidList(st.list)
  }

  /** mergeBuffers (render/bean.go:117-122). */
  function Flush(st: State): (r: State)
    ensures r.para == "" && r.recent == st.recent && r.list == st.list
    ensures st.out <= r.out && |r.out| <= |st.out| + 1
    ensures |r.out| == |st.out| + 1 <==> st.para != ""
    ensures |r.out| == |st.out| + 1 ==> r.out[|st.out|] == Wrapped(st.para)
  {
    if |st.para| > 0 then st.(out := st.out + [Wrapped(st.para)], para := "") else st
  }

  /** Flushing twice is flushing once. */
  lemma FlushIdempotent(st: State)
    ensures Flush(Flush(st)) == Flush(st)
  {
  }

  /** A block element: pBuffer is merged first, then the block's text is written. */
  function Emit(st: State, text: string): (r: State)
    ensures r.para == "" && r.recent == st.recent && r.list == st.list
    ensures r.out == Flush(st).out + [Raw(text)]
  {
    var f := Flush(st);
    f.(out := f.out + [Raw(text)])
  }

  // ---------------------------------------------------------------------------
  // Paragraphs

  /** What a non-blank paragraph line adds after its lead
      (render/bean.go:147-156). `strings.TrimRight(s, "  ")` takes a set of
      characters, so ONE trailing space already makes a hard break. */
  function LineBody(s: string): (r: string)
    ensures |s| > 0 && s[|s| - 1] == ' ' ==> r == TrimRight(s, " ") + "\n"
    ensures !(|s| > 0 && s[|s| - 1] == ' ') && HasSuffix(s, "<br>") ==> r == s[..|s| - 4] + "\n"
    ensures !(|s| > 0 && s[|s| - 1] == ' ') && !HasSuffix(s, "<br>") ==> r == s + " "
    ensures |r| > 0 && r[|r| - 1] in {'\n', ' '}
  {
    TrimRightCutsetIsOneSpace(s);
    if TrimRight(s, "  ") != s then TrimRight(s, " ") + "\n"
    else if HasSuffix(s, "<br>") then s[..|s| - 4] + "\n"
    else s + " "
  }

  /** renderParagraph (render/bean.go:125-161). A blank line records a blank,
      resets the list state and merges pBuffer; any other line appends its
      lead and body to pBuffer, resets the list state and records a paragraph. */
  function Paragraph(st: State, s: string): (r: State)
    ensures r.list == ListReset
    ensures IsBlank(s) ==> r == Flush(st).(recent := Spacing.Record(st.recent, Spacing.Blank), list := ListReset)
    ensures !IsBlank(s) ==> r.out == st.out && r.recent == Spacing.Record(st.recent, Spacing.Paragraph)
    ensures !IsBlank(s) ==> r.para == st.para + Spacing.ParagraphLead(st.recent) + LineBody(s)
  {
    if IsBlank(s) then
      Flush(st.(recent := Spacing.Record(st.recent, Spacing.Blank), list := ListReset))
    else
      st.(para := st.para + Spacing.ParagraphLead(st.recent) + LineBody(s), list := ListReset, recent := Spacing.Record(st.recent, Spacing.Paragraph))
  }

  // ---------------------------------------------------------------------------
  // List items

  /** The list part of a list item (render/bean.go:313-343, 356): the new list
      variables and the bullet. */
  function Item(ls: ListState, item: ListItem): (r: (ListState, string))
    requires ValidList(ls) && IndentShape(item.indent)
    requires IndentLevel(item.indent) <= ls.level + 1
    ensures ValidList(r.0) && r.0.level == IndentLevel(item.indent)
    ensures r.0.ordered == item.marker.Ordered?
    ensures item.marker.Unordered? ==> r.1 == Ansi.Bullet
    ensures item.marker.Ordered? ==> r.1 == Decimal(r.0.counter.value) + ". "
  {
    var level := IndentLevel(item.indent);
    LevelZeroIsRoot(item.indent);
    RebaseKeepsDepth(ls.counter, ls.level, level);
    match item.marker
    case Unordered(_) =>
      var c :=
        if item.indent == "" then Counter(1, [])
        else if level != ls.level then Rebase(ls.counter, ls.level, level)
        else ls.counter;
      (ListState(level, false, c), Ansi.Bullet)
    case Ordered(_) =>
      var c :=
        if level == ls.level then (if ls.ordered then Counter(ls.counter.value + 1, ls.counter.history) else ls.counter)
        else Rebase(ls.counter, ls.level, level);
      (ListState(level, true, c), Decimal(c.value) + ". ")
  }

  // ---------------------------------------------------------------------------
  // One line

  /** The outcome of one line: the loop goes on, or an over-indented list item
      hit the `break` at render/bean.go:310 and the loop is left. */
  datatype Step = Next(st: State) | Stop(st: State)

  /** The text of a header (render/bean.go:293-297), after its lead. */
  function HeaderText(h: Header): string {
    var bar := Replicate(Ansi.RuleChar, h.level);
    Ansi.Bold + bar + h.text + bar + Ansi.Reset + "\n"
  }

  /** One iteration of the line loop (render/bean.go:225-369) on the line with
      index i; first is i == 0. */
  function Line(st: State, first: bool, line: string, width: nat): (r: Step)
    requires Valid(st)
    ensures Valid(r.st)
    ensures r.Stop? ==> r.st == st
    ensures st.out <= r.st.out
  {
    Block(st, first, Inline.InlinePass(line), width)
  }

  /** The block chain (render/bean.go:288-368) on the line s after its inline
      pass. */
  function Block(st: State, first: bool, s: string, width: nat): (r: Step)
    requires Valid(st)
    ensures Valid(r.st)
    ensures r.Stop? ==> r.st == st
    ensures st.out <= r.st.out
  {
    match MatchHeader(s)
    case Some(h) =>
      Next(Emit(st.(list := ListReset, recent := Spacing.Record(st.recent, Spacing.Header)), Spacing.HeaderLead(first, st.recent) + HeaderText(h)))
    case None =>
      if IsRule(s) then
        Next(Emit(st.(list := ListReset, recent := Spacing.Record(st.recent, Spacing.Rule)), Spacing.HeaderLead(first, st.recent) + Replicate(Ansi.RuleChar, width) + "\n\n"))
      else
        match MatchList(s)
        case Some(item) =>
          var level := IndentLevel(item.indent);
          if st.list.level + 1 < level then Stop(st)
          else
            var next := Item(st.list, item); var ls, bullet := next.0, next.1;
            var text := Spacing.ListLead(first, st.recent) + Replicate(' ', 4 * level) + bullet + item.text + "\n";
            Next(Emit(st.(list := ls, recent := Spacing.Record(st.recent, Spacing.ListItem)), text))
        case None =>
          Next(Paragraph(st, s))
  }

  // ---------------------------------------------------------------------------
  // The whole document

  /** The state after the lines, and whether the loop was left early. */
  datatype Run = Run(st: State, halted: bool)

  function Fold(lines: seq<string>, width: nat): (r: Run)
    ensures Valid(r.st)
    decreases |lines|
  {
    if |lines| == 0 then Run(Start, false)
    else
      var prior := Fold(lines[..|lines| - 1], width);
      if prior.halted then prior
      else
        match Line(prior.st, |lines| == 1, lines[|lines| - 1], width)
        case Next(st) => Run(st, false)
        case Stop(st) => Run(st, true)
  }

  /** oBuffer after the final mergeBuffers (render/bean.go:371-373). */
  function Chunks(lines: seq<string>, width: nat): seq<Chunk> {
    Flush(Fold(lines, width).st).out
  }

  /** The output string, wrap standing for wrap.WrapString. */
  function Flatten(chunks: seq<Chunk>, wrap: (string, nat) -> string, width: nat): string {
    if |chunks| == 0 then ""
    else
      Flatten(chunks[..|chunks| - 1], wrap, width) +
      match chunks[|chunks| - 1]
      case Raw(t) => t
      case Wrapped(p) => wrap(p, width)
  }

  function RenderMarkdown(lines: seq<string>, width: nat, wrap: (string, nat) -> string): string {
    Flatten(Chunks(lines, width), wrap, width)
  }

  // ---------------------------------------------------------------------------
  // Leaving the loop early

  /** A halted prefix makes the fold skip the last line. */
  lemma FoldHalted(lines: seq<string>, width: nat)
    requires |lines| > 0 && Fold(lines[..|lines| - 1], width).halted
    ensures Fold(lines, width) == Fold(lines[..|lines| - 1], width)
  {
  }

  /** Once the loop is left, later lines change nothing. */
  lemma {:induction false} HaltedStaysHalted(lines: seq<string>, more: seq<string>, width: nat)
    requires Fold(lines, width).halted
    ensures Fold(lines + more, width) == Fold(lines, width)
    decreases |more|
  {
    if |more| > 0 {
      var m := |more| - 1;
      var ls := lines + more;
      assert ls[..|ls| - 1] == lines + more[..m];
      HaltedStaysHalted(lines, more[..m], width);
      FoldHalted(ls, width);
    } else {
      assert lines + more == lines;
    }
  }

  /** An over-indented list item ends the rendering: neither it nor any later
      line is written, but the pending paragraph text is still merged
      (render/bean.go:307-311, 371-373). */
  lemma StopDropsTheRest(lines: seq<string>, line: string, more: seq<string>, width: nat)
    requires !Fold(lines, width).halted
    requires Line(Fold(lines, width).st, |lines| == 0, line, width).Stop?
    ensures Chunks(lines + [line] + more, width) == Chunks(lines, width)
  {
    var ls := lines + [line];
    assert ls[..|ls| - 1] == lines;
    assert Fold(ls, width) == Run(Fold(lines, width).st, true);
    HaltedStaysHalted(ls, more, width);
  }

  /** An item more than one level deeper than the previous one stops the loop;
      after a non-list line the previous level is 0, so an opening item may
      still be indented by one level. */
  lemma TooDeepStops(st: State, first: bool, line: string, width: nat, item: ListItem)
    requires Valid(st)
    requires var s := Inline.InlinePass(line); MatchHeader(s).None? && !IsRule(s) && MatchList(s) == Some(item)
    ensures Line(st, first, line, width).Stop? <==> IndentLevel(item.indent) > st.list.level + 1
    ensures st.list == ListReset ==> (Line(st, first, line, width).Stop? <==> IndentLevel(item.indent) >= 2)
  {
  }

  // ---------------------------------------------------------------------------
  // Lines of each kind

  /** A line without any inline marker goes through the inline pass unchanged. */
  lemma PlainLineUntouched(s: string)
    requires '`' !in s && '*' !in s && '_' !in s && '~' !in s
    ensures Inline.InlinePass(s) == s
  {
    Spans.NoMarkerNoSpan(Spans.CodeSpan, s);
    Spans.NoMarkerNoSpan(Spans.Bold, s);
    Spans.NoMarkerNoSpan(Spans.Italic, s);
    Spans.NoMarkerNoSpan(Spans.Strike, s);
  }

  /** A rule line, of any length from three, renders as the lead and a full
      width of '─' followed by an empty line, and resets the list state
      (render/bean.go:299-302). */
  lemma RuleLine(st: State, first: bool, line: string, width: nat)
    requires Valid(st) && IsRule(line)
    ensures Line(st, first, line, width) == Next(Emit(
      st.(list := ListReset, recent := Spacing.Record(st.recent, Spacing.Rule)),
      Spacing.HeaderLead(first, st.recent) + Replicate(Ansi.RuleChar, width) + "\n\n"))
  {
    RuleSurvivesInlinePass(line);
    RuleIsNoHeader(line);
  }

  /** A header renders as its lead, then bold, '─' repeated level times (1 to
      6), the text, the same bar and the reset, and ends the list
      (render/bean.go:289-298). */
  lemma HeaderLine(st: State, first: bool, line: string, width: nat)
    requires Valid(st) && MatchHeader(Inline.InlinePass(line)).Some?
    ensures var h := MatchHeader(Inline.InlinePass(line)).value;
      && 1 <= h.level <= 6
      && Line(st, first, line, width) == Next(Emit(
        st.(list := ListReset, recent := Spacing.Record(st.recent, Spacing.Header)),
        Spacing.HeaderLead(first, st.recent)
        + (Ansi.Bold + Replicate(Ansi.RuleChar, h.level) + h.text + Replicate(Ansi.RuleChar, h.level) + Ansi.Reset + "\n")))
  {
  }

  /** A line that starts with a letter and has no inline markers is
      paragraph text (render/bean.go:360-363). */
  lemma TextLine(st: State, first: bool, line: string, width: nat)
    requires Valid(st) && |line| > 0 && ('a' <= line[0] <= 'z' || 'A' <= line[0] <= 'Z')
    requires '`' !in line && '*' !in line && '_' !in line && '~' !in line
    ensures Line(st, first, line, width) == Next(Paragraph(st, line))
  {
    PlainLineUntouched(line);
    LetterIsNoBlock(line);
  }

  /** A line starting with a letter is no header, rule or list item. */
  lemma LetterIsNoBlock(s: string)
    requires |s| > 0 && ('a' <= s[0] <= 'z' || 'A' <= s[0] <= 'Z')
    ensures MatchHeader(s).None? && !IsRule(s) && MatchList(s).None?
  {
    assert SpaceRun(s) == 0;
    assert CharRun(s, 0, '#') == 0;
    assert DigitRun(s, 0) == 0;
    assert MarkerAt(s, 0).None?;
  }

  /** A whitespace-only line is none of the block elements and has no
      inline markup. */
  lemma BlankIsPlain(s: string)
    requires IsBlank(s)
    ensures Inline.InlinePass(s) == s
    ensures MatchHeader(s).None? && !IsRule(s) && MatchList(s).None?
  {
    assert '`' !in s && '*' !in s && '_' !in s && '~' !in s by {
      forall i | 0 <= i < |s| ensures s[i] !in {'`', '*', '_', '~'} {
        assert IsUnicodeSpace(s[i]);
      }
    }
    PlainLineUntouched(s);
    BlankIsNoHeader(s);
    BlankIsNoList(s);
  }

  lemma BlankIsNoHeader(s: string)
    requires IsBlank(s)
    ensures MatchHeader(s).None?
  {
    var k := SpaceRun(s);
    if k < |s| {
      assert IsUnicodeSpace(s[k]);
    }
    assert CharRun(s, k, '#') == 0;
  }

  lemma BlankIsNoList(s: string)
    requires IsBlank(s)
    ensures MatchList(s).None?
  {
    var k := SpaceRun(s);
    if k < |s| {
      assert IsUnicodeSpace(s[k]);
    }
    NoMarkerAt(s, k);
  }

  /** A whitespace-only line adds nothing to pBuffer: it merges the pending
      paragraph, records a blank and ends the list (render/bean.go:127-136). */
  lemma BlankLine(st: State, first: bool, line: string, width: nat)
    requires Valid(st) && IsBlank(line)
    ensures Line(st, first, line, width)
      == Next(Flush(st).(recent := Spacing.Record(st.recent, Spacing.Blank), list := ListReset))
  {
    BlankIsPlain(line);
  }

  /** A valid list item renders as an optional newline, four spaces per
      level, the bullet and the text, and leaves the new level behind
      (render/bean.go:345-357). */
  lemma ListLine(st: State, first: bool, line: string, width: nat, item: ListItem)
    requires Valid(st)
    requires var s := Inline.InlinePass(line); MatchHeader(s).None? && !IsRule(s) && MatchList(s) == Some(item)
    requires IndentLevel(item.indent) <= st.list.level + 1
    ensures var level := IndentLevel(item.indent);
      var next := Item(st.list, item); var ls, bullet := next.0, next.1;
      var lead := Spacing.ListLead(first, st.recent);
      && lead in {"", "\n"}
      && (lead == "\n" <==> !first && (st.recent.last == Spacing.Paragraph || (st.recent.last == Spacing.Blank && st.recent.before != Spacing.Header)))
      && ls.level == level
      && Line(st, first, line, width) == Next(Emit(
        st.(list := ls, recent := Spacing.Record(st.recent, Spacing.ListItem)),
        lead + Replicate(' ', 4 * level) + bullet + item.text + "\n"))
  {
    ListBlock(st, first, Inline.InlinePass(line), width, item);
  }

  /** ListLine for a line after its inline pass. */
  lemma ListBlock(st: State, first: bool, s: string, width: nat, item: ListItem)
    requires Valid(st)
    requires MatchHeader(s).None? && !IsRule(s) && MatchList(s) == Some(item)
    requires IndentLevel(item.indent) <= st.list.level + 1
    ensures var level := IndentLevel(item.indent);
      var next := Item(st.list, item); var ls, bullet := next.0, next.1;
      Block(st, first, s, width) == Next(Emit(
        st.(list := ls, recent := Spacing.Record(st.recent, Spacing.ListItem)),
        Spacing.ListLead(first, st.recent) + Replicate(' ', 4 * level) + bullet + item.text + "\n"))
  {
  }

  // ---------------------------------------------------------------------------
  // Ordered numbering

  /** The bullets of successive root items (empty indent), from list state ls. */
  function RootBullets(ls: ListState, items: seq<ListItem>): seq<string>
    requires ValidList(ls) && ls.level == 0
    requires forall i | 0 <= i < |items| :: items[i].indent == ""
    decreases |items|
  {
    if |items| == 0 then []
    else
      assert IndentShape(items[0].indent);
      var (ls', b) := Item(ls, items[0]);
      [b] + RootBullets(ls', items[1..])
  }

  /** Root ordered items after an ordered item with counter v are numbered
      v + 1, v + 2, ... whatever digits they were written with. */
  lemma {:induction false} RootOrderedContinues(v: nat, items: seq<ListItem>)
    requires v >= 1
    requires forall i | 0 <= i < |items| :: items[i].indent == "" && items[i].marker.Ordered?
    ensures |RootBullets(ListState(0, true, Counter(v, [])), items)| == |items|
    ensures forall i | 0 <= i < |items| ::
      RootBullets(ListState(0, true, Counter(v, [])), items)[i] == Decimal(v + 1 + i) + ". "
    decreases |items|
  {
    if |items| > 0 {
      var ls := ListState(0, true, Counter(v, []));
      assert IndentShape(items[0].indent);
      assert Item(ls, items[0]) == (ListState(0, true, Counter(v + 1, [])), Decimal(v + 1) + ". ");
      RootOrderedContinues(v + 1, items[1..]);
      var rest := RootBullets(ListState(0, true, Counter(v + 1, [])), items[1..]);
      assert RootBullets(ls, items) == [Decimal(v + 1) + ". "] + rest;
    }
  }

  /** After a reset, root ordered items are numbered 1, 2, 3, ... */
  lemma RootOrderedCountsFromOne(items: seq<ListItem>)
    requires forall i | 0 <= i < |items| :: items[i].indent == "" && items[i].marker.Ordered?
    ensures |RootBullets(ListReset, items)| == |items|
    ensures forall i | 0 <= i < |items| :: RootBullets(ListReset, items)[i] == Decimal(i + 1) + ". "
  {
    if |items| > 0 {
      assert IndentShape(items[0].indent);
      assert Item(ListReset, items[0]) == (ListState(0, true, Counter(1, [])), Decimal(1) + ". ");
      RootOrderedContinues(1, items[1..]);
      var rest := RootBullets(ListState(0, true, Counter(1, [])), items[1..]);
      assert RootBullets(ListReset, items) == [Decimal(1) + ". "] + rest;
    }
  }

  /** "d. t" at the root is an ordered list item and nothing else. */
  lemma OrderedLineFacts(d: string, t: string)
    requires IsNumeral(d) && PlainText(t)
    ensures var line := d + ". " + t;
      && Inline.InlinePass(line) == line
      && MatchHeader(line).None? && !IsRule(line)
      && MatchList(line) == Some(ListItem("", Ordered(d), t))
  {
    var line := d + ". " + t;
    assert line[0] == d[0];
    PlainLineUntouched(line);
    assert SpaceRun(line) == 0;
    assert CharRun(line, 0, '#') == 0;
    assert line[..0] == "";
    assert MarkerText(Ordered(d)) <= line[0..];
    assert ListShape(line, 0, Ordered(d));
    assert line[|d| + 2..] == t;
  }

  /** The list state and bullet of one more root ordered item after k of them. */
  lemma OrderedItem(ls: ListState, k: nat, d: string, t: string)
    requires k == 0 ==> ls == ListReset
    requires k > 0 ==> ls == ListState(0, true, Counter(k, []))
    ensures IndentShape("") && IndentLevel("") == 0
    ensures Item(ls, ListItem("", Ordered(d), t)) == (ListState(0, true, Counter(k + 1, [])), Decimal(k + 1) + ". ")
  {
    assert IndentShape("");
  }

  /** The line "d. t" as one more root ordered item after k of them: the list
      state counts k + 1 and the line comes out numbered k + 1. */
  lemma OrderedLine(st: State, first: bool, k: nat, line: string, d: string, t: string, width: nat)
    requires Valid(st) && IsNumeral(d) && PlainText(t) && line == d + ". " + t
    requires k == 0 ==> st.list == ListReset
    requires k > 0 ==> st.list == ListState(0, true, Counter(k, []))
    ensures Line(st, first, line, width) == Next(Emit(
      st.(list := ListState(0, true, Counter(k + 1, [])), recent := Spacing.Record(st.recent, Spacing.ListItem)),
      Spacing.ListLead(first, st.recent) + Replicate(' ', 4 * 0) + (Decimal(k + 1) + ". ") + t + "\n"))
  {
    var item := ListItem("", Ordered(d), t);
    OrderedLineFacts(d, t);
    OrderedItem(st.list, k, d, t);
    ListBlock(st, first, line, width, item);
  }

  /** A root item that opens the document or continues a list has no lead. */
  lemma OrderedText(first: bool, recent: Spacing.Recent, k: nat, t: string)
    requires first || recent.last == Spacing.ListItem
    ensures Spacing.ListLead(first, recent) + Replicate(' ', 4 * 0) + (Decimal(k + 1) + ". ") + t + "\n"
      == Decimal(k + 1) + ". " + t + "\n"
  {
    assert Spacing.ListLead(first, recent) == "" && Replicate(' ', 4 * 0) == "";
  }

  /** One more root ordered item after k of them. */
  function OrderedStep(st: State, first: bool, k: nat, line: string, d: string, t: string, width: nat): (r: State)
    requires Valid(st) && IsNumeral(d) && PlainText(t) && line == d + ". " + t
    requires first <==> k == 0
    requires AfterOrdered(st, k)
    ensures Line(st, first, line, width) == Next(r)
    ensures r.out == st.out + [Raw(Decimal(k + 1) + ". " + t + "\n")]
    ensures AfterOrdered(r, k + 1)
  {
    OrderedLine(st, first, k, line, d, t, width);
    OrderedText(first, st.recent, k, t);
    var text := Decimal(k + 1) + ". " + t + "\n";
    Emit(st.(list := ListState(0, true, Counter(k + 1, [])), recent := Spacing.Record(st.recent, Spacing.ListItem)), text)
  }

  /** The output of a root ordered list with the given item texts: item i,
      counting from 0, is numbered i + 1. */
  function Numbered(texts: seq<string>): (r: seq<Chunk>)
    ensures |r| == |texts|
  {
    if |texts| == 0 then []
    else
      var n := |texts| - 1;
      Numbered(texts[..n]) + [Raw(Decimal(n + 1) + ". " + texts[n] + "\n")]
  }

  lemma {:induction false} NumberedAt(texts: seq<string>, i: nat)
    requires i < |texts|
    ensures Numbered(texts)[i] == Raw(Decimal(i + 1) + ". " + texts[i] + "\n")
    decreases |texts|
  {
    var n := |texts| - 1;
    if i < n {
      NumberedAt(texts[..n], i);
    }
  }

  /** The state after k root ordered items. */
  predicate AfterOrdered(st: State, k: nat) {
    && st.para == ""
    && (k == 0 ==> st.list == ListReset)
    && (k > 0 ==> st.list == ListState(0, true, Counter(k, [])) && st.recent.last == Spacing.ListItem)
  }

  /** The run after root ordered items with the given texts: not halted,
      numbered output, list state counting them. */
  predicate OrderedRun(r: Run, texts: seq<string>) {
    !r.halted && r.st.out == Numbered(texts) && AfterOrdered(r.st, |texts|)
  }

  /** Root ordered items are numbered 1, 2, 3, ... in the output, whatever
      numbers they were written with, and each is one line
      (render/bean.go:329-343, 353). */
  lemma {:induction false} RootOrderedDocument(lines: seq<string>, digits: seq<string>, texts: seq<string>, width: nat)
    requires OrderedLines(lines, digits, texts)
    ensures OrderedRun(Fold(lines, width), texts)
    decreases |lines|
  {
    if |lines| > 0 {
      var n := |lines| - 1;
      OrderedLinesSplit(lines, digits, texts);
      RootOrderedDocument(lines[..n], digits[..n], texts[..n], width);
      OrderedFold(lines, digits[n], texts, width);
    }
  }

  /** The fold over one more root ordered item. */
  lemma OrderedFold(lines: seq<string>, d: string, texts: seq<string>, width: nat)
    requires |lines| == |texts| > 0
    requires var n := |lines| - 1; IsNumeral(d) && PlainText(texts[n]) && lines[n] == d + ". " + texts[n]
    requires OrderedRun(Fold(lines[..|lines| - 1], width), texts[..|lines| - 1])
    ensures OrderedRun(Fold(lines, width), texts)
  {
    var n := |lines| - 1;
    var st := Fold(lines[..n], width).st;
    var st' := OrderedStep(st, |lines| == 1, n, lines[n], d, texts[n], width);
    FoldNext(lines, width, st');
  }

  /** Whatever numbers a root ordered list is written with, item i is
      rendered as i + 1 (render/bean.go:329-343). */
  lemma RootOrderedRenumbers(lines: seq<string>, digits: seq<string>, texts: seq<string>, width: nat)
    requires OrderedLines(lines, digits, texts)
    ensures |Chunks(lines, width)| == |lines|
    ensures forall i | 0 <= i < |lines| :: Chunks(lines, width)[i] == Raw(Decimal(i + 1) + ". " + texts[i] + "\n")
  {
    RootOrderedDocument(lines, digits, texts, width);
    forall i | 0 <= i < |lines| ensures Numbered(texts)[i] == Raw(Decimal(i + 1) + ". " + texts[i] + "\n") {
      NumberedAt(texts, i);
    }
  }

  /** A root unordered item restarts the numbering: it leaves the same list
      state as a reset (render/bean.go:316-320). */
  lemma RootUnorderedRestarts(ls: ListState, item: ListItem)
    requires ValidList(ls) && item.indent == "" && item.marker.Unordered?
    ensures Item(ls, item) == (ListReset, Ansi.Bullet)
  {
    assert IndentShape(item.indent);
  }

  // ---------------------------------------------------------------------------
  // Documents of rules

  /** The rule's bar: width '─' characters and an empty line. */
  function Bar(width: nat): Chunk {
    Raw(Replicate(Ansi.RuleChar, width) + "\n\n")
  }

  /** An ordered item at the level of the list counts on from the item before
      it only when that item was ordered too; after an unordered item it
      takes the counter as it stands (render/bean.go:331-340). */
  lemma SameLevelOrdered(ls: ListState, item: ListItem)
    requires ValidList(ls) && IndentShape(item.indent) && IndentLevel(item.indent) == ls.level
    requires item.marker.Ordered?
    ensures var c := if ls.ordered then Counter(ls.counter.value + 1, ls.counter.history) else ls.counter;
      Item(ls, item) == (ListState(ls.level, true, c), Decimal(c.value) + ". ")
  {
  }

  /** n bars in a row. */
  function Bars(n: nat, width: nat): (r: seq<Chunk>)
    ensures |r| == n && forall i | 0 <= i < n :: r[i] == Bar(width)
  {
    if n == 0 then [] else Bars(n - 1, width) + [Bar(width)]
  }

  /** The run after n rules: not halted, nothing pending, n bars written. */
  predicate RuleRun(r: Run, n: nat, width: nat) {
    && !r.halted && r.st.para == ""
    && r.st.out == Bars(n, width)
    && (n > 0 ==> r.st.recent.last == Spacing.Rule)
  }

  /** Consecutive rules each render as a full-width bar and an empty line, with
      nothing between them (render/bean.go:194-222, 299-302; test/hr_test.go:20-58). */
  lemma {:induction false} RulesStack(lines: seq<string>, width: nat)
    requires forall i | 0 <= i < |lines| :: IsRule(lines[i])
    ensures RuleRun(Fold(lines, width), |lines|, width)
    decreases |lines|
  {
    if |lines| > 0 {
      RulesStack(lines[..|lines| - 1], width);
      RuleFold(lines, width);
    }
  }

  /** The fold over one more rule. */
  lemma RuleFold(lines: seq<string>, width: nat)
    requires |lines| > 0 && IsRule(lines[|lines| - 1])
    requires RuleRun(Fold(lines[..|lines| - 1], width), |lines| - 1, width)
    ensures RuleRun(Fold(lines, width), |lines|, width)
  {
    var n := |lines| - 1;
    var st := Fold(lines[..n], width).st;
    var st' := RuleStep(st, |lines| == 1, lines[n], width);
    FoldNext(lines, width, st');
  }

  /** A rule that opens the document or follows a rule has no lead. */
  lemma RuleText(first: bool, recent: Spacing.Recent, width: nat)
    requires first || recent.last == Spacing.Rule
    ensures Spacing.HeaderLead(first, recent) + Replicate(Ansi.RuleChar, width) + "\n\n"
      == Replicate(Ansi.RuleChar, width) + "\n\n"
  {
    assert Spacing.HeaderLead(first, recent) == "";
  }

  /** One rule after rules: the bar is appended and nothing else is pending. */
  function RuleStep(st: State, first: bool, line: string, width: nat): (r: State)
    requires Valid(st) && IsRule(line) && st.para == ""
    requires !first ==> st.recent.last == Spacing.Rule
    ensures Line(st, first, line, width) == Next(r)
    ensures r.out == st.out + [Bar(width)]
    ensures r.para == "" && r.recent.last == Spacing.Rule
  {
    RuleLine(st, first, line, width);
    RuleText(first, st.recent, width);
    Emit(st.(list := ListReset, recent := Spacing.Record(st.recent, Spacing.Rule)), Replicate(Ansi.RuleChar, width) + "\n\n")
  }

  /** The fold takes the state a non-stopping last line leaves. */
  lemma FoldNext(lines: seq<string>, width: nat, st: State)
    requires |lines| > 0 && !Fold(lines[..|lines| - 1], width).halted
    requires Line(Fold(lines[..|lines| - 1], width).st, |lines| == 1, lines[|lines| - 1], width) == Next(st)
    ensures Fold(lines, width) == Run(st, false)
  {
  }
  /** The fold of a one-line document. */
  lemma FoldFirst(line: string, width: nat, st: State)
    requires Line(Start, true, line, width) == Next(st)
    ensures Fold([line], width) == Run(st, false)
  {
    assert [line][..0] == [];
  }

  /** The run after a document's first lines when they were one paragraph
      still pending: nothing written, the paragraph buffer holds p. */
  predicate TextRun(r: Run, p: string) {
    !r.halted && r.st.out == [] && r.st.para == p && r.st.recent == Spacing.Initial && r.st.list == ListReset
  }

  /** A document opening with plain text holds that text, followed by one
      space, in the paragraph buffer (render/bean.go:125-161). */
  lemma FirstTextLine(line: string, width: nat)
    requires |line| > 0 && ('a' <= line[0] <= 'z' || 'A' <= line[0] <= 'Z')
    requires '`' !in line && '*' !in line && '_' !in line && '~' !in line
    requires line[|line| - 1] != ' ' && !HasSuffix(line, "<br>")
    ensures TextRun(Fold([line], width), line + " ")
  {
    assert !IsBlank(line) by { assert !IsUnicodeSpace(line[0]); }
    var st := Paragraph(Start, line);
    assert LineBody(line) == line + " ";
    assert Start.para + Spacing.ParagraphLead(Start.recent) == "";
    TextLine(Start, true, line, width);
    FoldFirst(line, width, st);
  }

  /** A rule after a pending paragraph: the paragraph is written, then the
      bar with an empty line before it. */
  lemma RuleAfterPending(prior: seq<string>, rule: string, width: nat, p: string)
    requires |prior| > 0 && p != "" && IsRule(rule) && TextRun(Fold(prior, width), p)
    ensures var r := Fold(prior + [rule], width);
      !r.halted && r.st.para == "" && r.st.out == [Wrapped(p), Raw("\n\n" + Replicate(Ansi.RuleChar, width) + "\n\n")]
  {
    var s1 := Fold(prior, width).st;
    RuleLine(s1, false, rule, width);
    var lead := Spacing.HeaderLead(false, s1.recent);
    assert lead == "\n\n";
    var s2 := Emit(s1.(list := ListReset, recent := Spacing.Record(s1.recent, Spacing.Rule)),
      lead + Replicate(Ansi.RuleChar, width) + "\n\n");
    assert s2.out == [Wrapped(p)] + [Raw(lead + Replicate(Ansi.RuleChar, width) + "\n\n")];
    FoldAppend(prior, rule, width, s2);
  }

  /** A rule after a text line closes the paragraph and is set off from it
      by an empty line (render/bean.go:215-218, 299-302). */
  lemma RuleAfterText(line: string, rule: string, width: nat)
    requires |line| > 0 && ('a' <= line[0] <= 'z' || 'A' <= line[0] <= 'Z')
    requires '`' !in line && '*' !in line && '_' !in line && '~' !in line
    requires line[|line| - 1] != ' ' && !HasSuffix(line, "<br>")
    requires IsRule(rule)
    ensures Chunks([line, rule], width)
      == [Wrapped(line + " "), Raw("\n\n" + Replicate(Ansi.RuleChar, width) + "\n\n")]
  {
    FirstTextLine(line, width);
    RuleAfterPending([line], rule, width, line + " ");
    assert [line] + [rule] == [line, rule];
  }

  /** FoldNext for a line appended to a document. */
  lemma FoldAppend(prior: seq<string>, line: string, width: nat, st: State)
    requires !Fold(prior, width).halted
    requires Line(Fold(prior, width).st, |prior| == 0, line, width) == Next(st)
    ensures Fold(prior + [line], width) == Run(st, false)
  {
    var lines := prior + [line];
    assert lines[..|lines| - 1] == prior;
    FoldNext(lines, width, st);
  }

}
