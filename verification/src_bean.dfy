/** The older renderer of src/bean.go (RenderMarkdown, lines 39-228). Each
    line is matched once against six regular expressions; the elements that
    matched are then applied in a fixed order to a working copy of the line,
    each by matching its regular expression again on that copy. There is no
    paragraph buffer: every line yields its text at once. */
module SrcBean {
  import opened Text
  import Ansi
  import opened Spans
  import opened Blocks
  import opened Lists

  // ---------------------------------------------------------------------------
  // List variables

  /** prevIndentMultiplier, orderedIterator and orderedIteratorHistory. */
  datatype Vars = Vars(prev: nat, counter: Counter)

  /** The values resetPreloopVariables sets, which are also the initial ones
      (src/bean.go:44-48, 86-90). The counter starts at 0, not 1. */
  const Reset: Vars := Vars(0, Counter(0, []))

  /** Between lines the history holds one saved counter per level above the
      root. */
  predicate Valid(v: Vars) {
    |v.counter.history| == v.prev
  }

  /** calcIndentMultiplier's verdict (src/bean.go:52-69): an item may go at
      most one level deeper than the previous one. */
  predicate ValidIndent(v: Vars, indent: string) {
    IndentLevel(indent) <= v.prev + 1
  }

  /** The list-item case of the element loop for a valid item
      (src/bean.go:186-218): the new list variables and the bullet. */
  function ItemVars(v: Vars, item: ListItem): (r: (Vars, string))
    requires Valid(v) && IndentShape(item.indent) && ValidIndent(v, item.indent)
    ensures Valid(r.0) && r.0.prev == IndentLevel(item.indent)
    ensures item.marker.Unordered? ==> r.1 == Ansi.Bullet
    ensures item.marker.Ordered? ==> r.1 == Decimal(r.0.counter.value) + ". "
  {
    var level := IndentLevel(item.indent);
    LevelZeroIsRoot(item.indent);
    RebaseKeepsDepth(v.counter, v.prev, level);
    match item.marker
    case Unordered(_) =>
      var c :=
        if item.indent == "" then Counter(0, [])
        else if level != v.prev then Rebase(v.counter, v.prev, level)
        else v.counter;
      (Vars(level, c), Ansi.Bullet)
    case Ordered(_) =>
      var c := if level == v.prev then Counter(v.counter.value + 1, v.counter.history) else Rebase(v.counter, v.prev, level);
      (Vars(level, c), Decimal(c.value) + ". ")
  }

  // ---------------------------------------------------------------------------
  // Paragraphs

  /** renderParagraph (src/bean.go:92-109) without its reset of the list
      variables, which the caller does. Unlike render/bean.go the line is
      written untrimmed before its hard break. */
  function ParagraphText(s: string): (r: string)
    ensures IsBlank(s) ==> r == "\n\n"
    ensures !IsBlank(s) ==> |r| > 0 && r[|r| - 1] in {'\n', ' '}
    ensures !IsBlank(s) && s[|s| - 1] == ' ' ==> r == s + "\n"
    ensures !IsBlank(s) && s[|s| - 1] != ' ' && HasSuffix(s, "<br>") ==> r == s[..|s| - 4] + "\n"
    ensures !IsBlank(s) && s[|s| - 1] != ' ' && !HasSuffix(s, "<br>") ==> r == s + " "
  {
    TrimRightCutsetIsOneSpace(s);
    if IsBlank(s) then "\n\n"
    else if TrimRight(s, "  ") != s then s + "\n"
    else if HasSuffix(s, "<br>") then s[..|s| - 4] + "\n"
    else s + " "
  }

  // ---------------------------------------------------------------------------
  // The elements of a line

  /** The regular expressions of src/bean.go:113-123, numbered there 1, 2, 7,
      8, 9 and 10. */
  datatype Element = H1 | H2 | BoldSpan | ItalicSpan | StrikeSpan | Item

  /** Whether the element's regular expression matches s (MatchString). */
  predicate Matches(e: Element, s: string) {
    match e
    case H1 => HeaderOf(s, 1).Some?
    case H2 => HeaderOf(s, 2).Some?
    case BoldSpan => FindSpan(FlankedBold, s).Some?
    case ItalicSpan => FindSpan(FlankedItalic, s).Some?
    case StrikeSpan => FindSpan(Strike, s).Some?
    case Item => MatchList(s).Some?
  }

  /** The six tests in order, keeping those that match (src/bean.go:129-147). */
  function Matched(s: string): seq<Element> {
    (if Matches(H1, s) then [H1] else []) +
    (if Matches(H2, s) then [H2] else []) +
    (if Matches(BoldSpan, s) then [BoldSpan] else []) +
    (if Matches(ItalicSpan, s) then [ItalicSpan] else []) +
    (if Matches(StrikeSpan, s) then [StrikeSpan] else []) +
    (if Matches(Item, s) then [Item] else [])
  }

  /** internalOutput, doNotRenderParagraph and the list variables while the
      matched elements are applied. */
  datatype Work = Work(text: string, block: bool, vars: Vars)

  /** What an element does once its regular expression matched the working
      text again: the submatches it rewrites the text with. */
  function Effect(e: Element, w: Work): (r: Option<Work>)
    requires Valid(w.vars)
    ensures r.Some? <==> Matches(e, w.text)
    ensures r.Some? ==> Valid(r.value.vars)
  {
    if e == Item then ItemEffect(w) else StyleEffect(e, w)
  }

  /** The elements other than the list item, which leave the list variables
      alone. */
  function StyleEffect(e: Element, w: Work): (r: Option<Work>)
    requires e != Item
    ensures r.Some? <==> Matches(e, w.text)
    ensures r.Some? ==> r.value.vars == w.vars
  {
    match e
    case H1 => HeaderEffect(w, 1)
    case H2 => HeaderEffect(w, 2)
    case BoldSpan => SpanEffect(FlankedBold, w)
    case ItalicSpan => SpanEffect(FlankedItalic, w)
    case StrikeSpan => SpanEffect(Strike, w)
  }

  /** `h1` and `h2` (src/bean.go:156-163): the header text in bold, level 1
      also underlined, on a line of its own. */
  function HeaderEffect(w: Work, level: nat): (r: Option<Work>)
    ensures r.Some? <==> HeaderOf(w.text, level).Some?
    ensures r.Some? ==> r.value.vars == w.vars && r.value.block
  {
    match HeaderOf(w.text, level)
    case Some(t) =>
      var style := if level == 1 then Ansi.Bold + Ansi.Underline else Ansi.Bold;
      Some(w.(text := style + t + Ansi.Reset + "\n", block := true))
    case None => None
  }

  /** Bold, italic and strikethrough (src/bean.go:164-175): the line rebuilt
      around the styled span. */
  function SpanEffect(p: Pattern, w: Work): (r: Option<Work>)
    ensures r.Some? <==> FindSpan(p, w.text).Some?
    ensures r.Some? ==> r.value.vars == w.vars && r.value.block == w.block
  {
    match FindSpan(p, w.text)
    case Some(sp) => Some(w.(text := Rewrite(p, w.text, sp)))
    case None => None
  }

  /** The list element (src/bean.go:176-218): an over-indented item is left
      alone; a valid one replaces the text and sets the list variables. */
  function ItemEffect(w: Work): (r: Option<Work>)
    requires Valid(w.vars)
    ensures r.Some? <==> MatchList(w.text).Some?
    ensures r.Some? ==> Valid(r.value.vars)
  {
    match MatchList(w.text)
    case Some(item) =>
      if !ValidIndent(w.vars, item.indent) then Some(w) else Some(ItemWork(w.vars, item))
    case None => None
  }

  /** A valid list item: indented by four spaces per level, its bullet, its
      text and a newline (src/bean.go:186-218). */
  function ItemWork(v: Vars, item: ListItem): (r: Work)
    requires Valid(v) && IndentShape(item.indent) && ValidIndent(v, item.indent)
    ensures Valid(r.vars) && r.block
  {
    Work(ItemHead(v, item) + "\n", true, ItemVars(v, item).0)
  }

  /** A valid list item without its newline: the indentation, the bullet and
      the text. */
  function ItemHead(v: Vars, item: ListItem): string
    requires Valid(v) && IndentShape(item.indent) && ValidIndent(v, item.indent)
  {
    Replicate(' ', 4 * IndentLevel(item.indent)) + ItemVars(v, item).1 + item.text
  }

  /** The element loop as written (src/bean.go:152-220): a regular expression
      that no longer matches the working text makes FindStringSubmatch return
      nil, and indexing it panics; None stands for that panic. */
  function Apply(es: seq<Element>, w: Work): (r: Option<Work>)
    requires Valid(w.vars)
    ensures r.Some? ==> Valid(r.value.vars)
    decreases |es|
  {
    if |es| == 0 then Some(w)
    else
      match Effect(es[0], w)
      case None => None
      case Some(w') => Apply(es[1..], w')
  }

  /** What one line writes and the list variables after it
      (src/bean.go:128-225). */
  datatype LineOut = LineOut(text: string, vars: Vars)

  /** One line, as written; None when the line panics. */
  function LineStep(v: Vars, line: string): (r: Option<LineOut>)
    requires Valid(v)
    ensures r.Some? ==> Valid(r.value.vars)
  {
    LineOf(v, line, Matched(line))
  }

  /** One line once the elements it matched are known: the working text is
      written as it is after a header or a list item, and through
      renderParagraph otherwise (src/bean.go:150-152, 221-225). */
  function LineOf(v: Vars, line: string, es: seq<Element>): (r: Option<LineOut>)
    requires Valid(v)
    ensures r.Some? ==> Valid(r.value.vars)
  {
    match Apply(es, Work(line, false, v))
    case None => None
    case Some(w) =>
      if w.block then Some(LineOut(w.text, w.vars)) else Some(LineOut(ParagraphText(w.text), Reset))
  }

  /** The whole loop: the output so far and the list variables, or the index
      of the line that panicked. */
  datatype Outcome = Done(out: string, vars: Vars) | Panicked(at: nat)

  function Run(lines: seq<string>): (r: Outcome)
    ensures r.Done? ==> Valid(r.vars)
    ensures r.Panicked? ==> r.at < |lines|
    decreases |lines|
  {
    if |lines| == 0 then Done("", Reset)
    else
      var n := |lines| - 1;
      match Run(lines[..n])
      case Panicked(i) => Panicked(i)
      case Done(out, v) =>
        match LineStep(v, lines[n])
        case None => Panicked(n)
        case Some(o) => Done(out + o.text, o.vars)
  }

  /** RenderMarkdown as written: the output, or None when it panics. */
  function RenderMarkdown(lines: seq<string>): Option<string> {
    match Run(lines)
    case Done(out, _) => Some(out)
    case Panicked(_) => None
  }

  // ---------------------------------------------------------------------------
  // The list variables

  /** A root unordered item clears the counter and its history, leaving the
      variables as a reset does (src/bean.go:193-196). */
  lemma RootUnorderedClears(v: Vars, item: ListItem)
    requires Valid(v) && item.indent == "" && item.marker.Unordered?
    ensures IndentShape(item.indent) && ValidIndent(v, item.indent)
    ensures ItemVars(v, item) == (Reset, Ansi.Bullet)
  {
    assert IndentShape(item.indent);
  }

  /** An ordered item at the level of the previous one counts one up
      (src/bean.go:204-206), and the first one after a reset is numbered 1,
      because the counter is reset to 0. */
  lemma SameLevelOrderedCounts(v: Vars, item: ListItem)
    requires Valid(v) && IndentShape(item.indent) && IndentLevel(item.indent) == v.prev
    requires item.marker.Ordered?
    ensures ValidIndent(v, item.indent)
    ensures ItemVars(v, item).0 == Vars(v.prev, Counter(v.counter.value + 1, v.counter.history))
    ensures ItemVars(v, item).1 == Decimal(v.counter.value + 1) + ". "
    ensures v == Reset ==> ItemVars(v, item).1 == "1. "
  {
  }

  /** One nested item of either kind and then an ordered item back at the
      outer level: the outer numbering resumes where it stopped
      (src/bean.go:71-84, 197-210). */
  lemma NestedItemResumes(v: Vars, inner: ListItem, outer: ListItem)
    requires Valid(v) && IndentShape(inner.indent) && IndentShape(outer.indent)
    requires IndentLevel(inner.indent) == v.prev + 1 && IndentLevel(outer.indent) == v.prev
    requires outer.marker.Ordered?
    ensures ValidIndent(v, inner.indent)
    ensures var w := ItemVars(v, inner).0;
      && ValidIndent(w, outer.indent)
      && ItemVars(w, outer).0 == Vars(v.prev, Counter(v.counter.value + 1, v.counter.history))
      && ItemVars(w, outer).1 == Decimal(v.counter.value + 1) + ". "
  {
    LevelZeroIsRoot(inner.indent);
    InThenOutResumes(v.counter, v.prev);
  }

  // ---------------------------------------------------------------------------
  // Which elements a line matches

  /** Of the six patterns exactly e's matches s. */
  predicate MatchesOnly(s: string, e: Element) {
    && (Matches(H1, s) <==> e == H1)
    && (Matches(H2, s) <==> e == H2)
    && (Matches(BoldSpan, s) <==> e == BoldSpan)
    && (Matches(ItalicSpan, s) <==> e == ItalicSpan)
    && (Matches(StrikeSpan, s) <==> e == StrikeSpan)
    && (Matches(Item, s) <==> e == Item)
  }

  /** None of the six patterns matches s. */
  predicate MatchesNone(s: string) {
    && !Matches(H1, s) && !Matches(H2, s) && !Matches(BoldSpan, s)
    && !Matches(ItalicSpan, s) && !Matches(StrikeSpan, s) && !Matches(Item, s)
  }

  lemma MatchedOnly(s: string, e: Element)
    requires MatchesOnly(s, e)
    ensures Matched(s) == [e]
  {
  }

  lemma MatchedNone(s: string)
    requires MatchesNone(s)
    ensures Matched(s) == []
  {
  }

  /** A line without '*', '_' and '~' matches none of the span patterns. */
  predicate Unmarked(s: string) {
    '*' !in s && '_' !in s && '~' !in s
  }

  lemma UnmarkedNoSpans(s: string)
    requires Unmarked(s)
    ensures !Matches(BoldSpan, s) && !Matches(ItalicSpan, s) && !Matches(StrikeSpan, s)
  {
    NoMarkerNoSpan(FlankedBold, s);
    NoMarkerNoSpan(FlankedItalic, s);
    NoMarkerNoSpan(Strike, s);
  }

  /** An unmarked list item line is matched as a list item only. */
  lemma UnmarkedItem(s: string)
    requires Unmarked(s) && MatchList(s).Some?
    ensures MatchesOnly(s, Item)
  {
    UnmarkedNoSpans(s);
    ListIsNoHeader(s);
  }

  /** An unmarked header line of level 1 or 2 is matched as that header only:
      `## ` does not match `^\s*# `. */
  lemma UnmarkedHeader(s: string)
    requires Unmarked(s) && MatchHeader(s).Some? && MatchHeader(s).value.level in {1, 2}
    ensures MatchesOnly(s, if MatchHeader(s).value.level == 1 then H1 else H2)
  {
    UnmarkedNoSpans(s);
    HeaderIsNoList(s);
  }

  /** An unmarked line that is neither header nor list item matches nothing. */
  lemma UnmarkedText(s: string)
    requires Unmarked(s) && MatchHeader(s).None? && MatchList(s).None?
    ensures MatchesNone(s)
  {
    UnmarkedNoSpans(s);
  }

  // ---------------------------------------------------------------------------
  // One line

  /** A line matched as a list item only: a valid one is written indented by
      four spaces per level with its bullet and its text, and sets the list
      variables; an over-indented one hits the `break` and is written as a
      paragraph, which resets them (src/bean.go:179-186, 215-225). */
  lemma ItemLine(v: Vars, s: string)
    requires Valid(v) && MatchesOnly(s, Item)
    ensures MatchList(s).Some? && IndentShape(MatchList(s).value.indent)
    ensures var item := MatchList(s).value;
      ValidIndent(v, item.indent) ==>
        var next := ItemVars(v, item);
        LineStep(v, s) == Some(LineOut(Replicate(' ', 4 * IndentLevel(item.indent)) + next.1 + item.text + "\n", next.0))
    ensures !ValidIndent(v, MatchList(s).value.indent) ==> LineStep(v, s) == Some(LineOut(ParagraphText(s), Reset))
  {
    MatchedOnly(s, Item);
    ItemStep(v, s);
  }

  /** ItemLine once the matched elements are known. */
  lemma ItemStep(v: Vars, s: string)
    requires Valid(v) && MatchList(s).Some?
    ensures IndentShape(MatchList(s).value.indent)
    ensures var item := MatchList(s).value;
      ValidIndent(v, item.indent) ==>
        var next := ItemVars(v, item);
        LineOf(v, s, [Item]) == Some(LineOut(Replicate(' ', 4 * IndentLevel(item.indent)) + next.1 + item.text + "\n", next.0))
    ensures !ValidIndent(v, MatchList(s).value.indent) ==> LineOf(v, s, [Item]) == Some(LineOut(ParagraphText(s), Reset))
  {
    var w := Work(s, false, v);
    ApplySingle(Item, w);
    EffectIsItem(w);
    var item := MatchList(s).value;
    assert item.indent == s[..|item.indent|];
    if ValidIndent(v, item.indent) {
      assert ItemEffect(w) == Some(ItemWork(v, item));
    } else {
      assert ItemEffect(w) == Some(w);
    }
  }

  /** A line matched as a header only is written as the styled header text
      and leaves the list variables alone: a header does not end a list in
      this renderer (src/bean.go:156-163). */
  lemma HeaderLine(v: Vars, s: string)
    requires Valid(v) && (MatchesOnly(s, H1) || MatchesOnly(s, H2))
    ensures MatchHeader(s).Some?
    ensures MatchesOnly(s, H1) ==> LineStep(v, s) == Some(LineOut(Ansi.Bold + Ansi.Underline + MatchHeader(s).value.text + Ansi.Reset + "\n", v))
    ensures MatchesOnly(s, H2) ==> LineStep(v, s) == Some(LineOut(Ansi.Bold + MatchHeader(s).value.text + Ansi.Reset + "\n", v))
  {
    if MatchesOnly(s, H1) {
      MatchedOnly(s, H1);
      ApplySingle(H1, Work(s, false, v));
    } else {
      MatchedOnly(s, H2);
      ApplySingle(H2, Work(s, false, v));
    }
  }

  lemma EffectIsItem(w: Work)
    requires Valid(w.vars)
    ensures Effect(Item, w) == ItemEffect(w)
  {
  }

  lemma EffectIsBold(w: Work)
    requires Valid(w.vars)
    ensures Effect(BoldSpan, w) == SpanEffect(FlankedBold, w)
  {
  }

  lemma ApplySingle(e: Element, w: Work)
    requires Valid(w.vars)
    ensures Apply([e], w) == Effect(e, w)
  {
    assert [e][1..] == [];
  }

  /** A line that matches nothing is a paragraph line: its paragraph text is
      written at once and the list variables are reset (src/bean.go:221-222). */
  lemma TextLine(v: Vars, s: string)
    requires Valid(v) && MatchesNone(s)
    ensures LineStep(v, s) == Some(LineOut(ParagraphText(s), Reset))
  {
    MatchedNone(s);
  }

  // ---------------------------------------------------------------------------
  // Root ordered lists

  /** "d. t" with plain t is matched as a root ordered item only. */
  lemma OrderedLineMatches(d: string, t: string)
    requires IsNumeral(d) && PlainText(t)
    ensures Matched(d + ". " + t) == [Item]
    ensures MatchList(d + ". " + t) == Some(ListItem("", Ordered(d), t))
  {
    OrderedLineShape(d, t);
    NumeralLineUnmarked(d, t);
    UnmarkedItem(d + ". " + t);
    MatchedOnly(d + ". " + t, Item);
  }

  lemma NumeralLineUnmarked(d: string, t: string)
    requires IsNumeral(d) && PlainText(t)
    ensures Unmarked(d + ". " + t)
  {
    assert forall i | 0 <= i < |d| :: d[i] != '*' && d[i] != '_' && d[i] != '~';
  }

  /** The line "d. t" after k root ordered items (k = 0: after a reset) is
      numbered k + 1, whatever d says, and the counter moves on to k + 1
      (src/bean.go:202-215). */
  lemma OrderedLine(k: nat, d: string, t: string)
    requires IsNumeral(d) && PlainText(t)
    ensures LineStep(Vars(0, Counter(k, [])), d + ". " + t)
      == Some(LineOut(Decimal(k + 1) + ". " + t + "\n", Vars(0, Counter(k + 1, []))))
  {
    var line := d + ". " + t;
    var v := Vars(0, Counter(k, []));
    var item := ListItem("", Ordered(d), t);
    OrderedLineMatches(d, t);
    ItemStep(v, line);
    assert IndentShape("") && IndentLevel("") == 0;
    SameLevelOrderedCounts(v, item);
    RootItemText(Decimal(k + 1) + ". ", t);
  }

  /** At the root the indent adds nothing to the item's text. */
  lemma RootItemText(bullet: string, t: string)
    ensures Replicate(' ', 4 * 0) + bullet + t + "\n" == bullet + t + "\n"
  {
    assert Replicate(' ', 4 * 0) == "";
  }

  /** The output of a root ordered list with the given item texts: item i,
      counting from 0, is numbered i + 1. */
  function Listed(texts: seq<string>): string {
    if |texts| == 0 then ""
    else
      var n := |texts| - 1;
      Listed(texts[..n]) + (Decimal(n + 1) + ". " + texts[n] + "\n")
  }

  /** A document of root ordered items is numbered 1, 2, 3, ... whatever
      numbers it was written with, one line per item, and never panics
      (src/bean.go:202-215; test/list_test.go:37-40). */
  lemma {:induction false} OrderedDocument(lines: seq<string>, digits: seq<string>, texts: seq<string>)
    requires OrderedLines(lines, digits, texts)
    ensures Run(lines) == Done(Listed(texts), Vars(0, Counter(|texts|, [])))
    decreases |lines|
  {
    if |lines| > 0 {
      var n := |lines| - 1;
      OrderedLinesSplit(lines, digits, texts);
      OrderedDocument(lines[..n], digits[..n], texts[..n]);
      OrderedLine(n, digits[n], texts[n]);
      RunSnoc(lines, Listed(texts[..n]), Vars(0, Counter(n, [])),
        LineOut(Decimal(n + 1) + ". " + texts[n] + "\n", Vars(0, Counter(n + 1, []))));
    }
  }

  /** The loop after one more line that does not panic. */
  lemma RunSnoc(lines: seq<string>, out: string, v: Vars, o: LineOut)
    requires |lines| > 0 && Run(lines[..|lines| - 1]) == Done(out, v)
    requires LineStep(v, lines[|lines| - 1]) == Some(o)
    ensures Run(lines) == Done(out + o.text, o.vars)
  {
  }

  // ---------------------------------------------------------------------------
  // A list item the bold rewrite breaks

  /** A bullet item whose text starts with a bold span and goes on after it. */
  const BoldItem: string := "- **abc** x"

  /** What the bold rewrite leaves of BoldItem: the space after the dash is
      consumed by the opening delimiter. */
  const BoldItemRewritten: string := Restyled('-')

  /** A character other than a marker, then " **abc** x": BoldItem, and the
      same line once its dash is a bullet. */
  predicate StarredShape(s: string) {
    && |s| == 11
    && s[0] != '*' && s[0] != '_' && s[0] != '~' && s[0] != '\n'
    && s[1] == ' ' && s[2] == '*' && s[3] == '*' && s[4] == 'a' && s[5] == 'b'
    && s[6] == 'c' && s[7] == '*' && s[8] == '*' && s[9] == ' ' && s[10] == 'x'
  }

  /** BoldItem character by character. */
  predicate BoldItemShape(s: string) {
    StarredShape(s) && s[0] == '-'
  }

  /** What the bold rewrite makes of a starred line starting with c. */
  function Restyled(c: char): string {
    [c] + Ansi.Bold + " abc " + Ansi.Reset + "x"
  }

  lemma BoldItemHasShape()
    ensures BoldItemShape(BoldItem)
  {
  }

  /** Where a starred line has stars; it has no other marker and no '\n'. */
  lemma BoldItemChars(s: string, i: nat)
    requires StarredShape(s) && i < |s|
    ensures s[i] == '*' <==> i == 2 || i == 3 || i == 7 || i == 8
    ensures s[i] != '_' && s[i] != '~' && s[i] != '\n'
  {
  }

  /** The only places a bold opening delimiter stands in a starred line are 1 and
      6, and an italic one stands nowhere: every star has a star beside it. */
  lemma BoldItemOpeners(s: string, a: nat)
    requires StarredShape(s)
    ensures Opens(FlankedBold, s, a) ==> a == 1 || a == 6
    ensures !Opens(FlankedItalic, s, a)
  {
    if a + 3 <= |s| {
      BoldItemChars(s, a);
      BoldItemChars(s, a + 1);
      BoldItemChars(s, a + 2);
      if Opens(FlankedBold, s, a) {
        assert s[a + 2] == s[a + 1];
      }
    }
  }

  lemma BoldItemOneLine(s: string)
    requires StarredShape(s)
    ensures LineEnd(s) == |s|
  {
    var k := LineEnd(s);
    if k < |s| {
      BoldItemChars(s, k);
    }
  }

  /** The one match of `[^*]\*\*[^*].+?[^*]\*\*[^*]` in a starred line: the
      opening delimiter " **a" at 1 and the closing markers at 7; the
      opener at 6 would need a closer past the end. */
  lemma BoldItemBold(s: string)
    requires StarredShape(s)
    ensures FindSpan(FlankedBold, s) == Some(Span(1, 7))
  {
    BoldItemOneLine(s);
    assert RunOf(s, 2, 4, '*') && RunOf(s, 7, 9, '*');
    assert Encloses(FlankedBold, s, 1, 7);
    forall a: nat, b: nat | a != 1
      ensures !Encloses(FlankedBold, s, a, b)
    {
      BoldItemOpeners(s, a);
    }
    forall b: nat | b < 7
      ensures !Encloses(FlankedBold, s, 1, b)
    {
    }
  }

  /** `[^*]\*[^*].+?[^*]\*[^*]` matches nowhere in a starred line. */
  lemma BoldItemNoItalic(s: string)
    requires StarredShape(s)
    ensures FindSpan(FlankedItalic, s) == None
  {
    forall a: nat, b: nat
      ensures !Encloses(FlankedItalic, s, a, b)
    {
      BoldItemOpeners(s, a);
    }
  }

  lemma BoldItemNoStrike(s: string)
    requires StarredShape(s)
    ensures FindSpan(Strike, s) == None
  {
    forall i | 0 <= i < |s|
      ensures s[i] !in Strike.Markers()
    {
      BoldItemChars(s, i);
    }
    NoMarkerNoSpan(Strike, s);
  }

  /** BoldItem is a root bullet item and no header. */
  lemma BoldItemIsItem(s: string)
    requires BoldItemShape(s)
    ensures MatchList(s).Some? && MatchHeader(s).None?
  {
    assert s[..0] == "" && IndentShape("");
    UnorderedAt(s, 0, '-');
    assert ListShape(s, 0, Unordered('-'));
    ListIsNoHeader(s);
  }

  /** Of the six tests BoldItem passes the bold one and the list one. */
  lemma BoldItemTests(s: string)
    requires BoldItemShape(s)
    ensures !Matches(H1, s) && !Matches(H2, s) && Matches(BoldSpan, s)
    ensures !Matches(ItalicSpan, s) && !Matches(StrikeSpan, s) && Matches(Item, s)
  {
    BoldItemBlockTests(s);
    BoldItemSpanTests(s);
  }

  lemma BoldItemBlockTests(s: string)
    requires BoldItemShape(s)
    ensures !Matches(H1, s) && !Matches(H2, s) && Matches(Item, s)
  {
    BoldItemIsItem(s);
  }

  lemma BoldItemSpanTests(s: string)
    requires StarredShape(s)
    ensures Matches(BoldSpan, s) && !Matches(ItalicSpan, s) && !Matches(StrikeSpan, s)
  {
    BoldItemBold(s);
    BoldItemNoItalic(s);
    BoldItemNoStrike(s);
  }

  lemma BoldItemMatches(s: string)
    requires BoldItemShape(s)
    ensures Matched(s) == [BoldSpan, Item]
  {
    BoldItemTests(s);
    MatchedBoldThenItem(s);
  }

  lemma MatchedBoldThenItem(s: string)
    requires !Matches(H1, s) && !Matches(H2, s) && Matches(BoldSpan, s)
    requires !Matches(ItalicSpan, s) && !Matches(StrikeSpan, s) && Matches(Item, s)
    ensures Matched(s) == [BoldSpan, Item]
  {
  }

  /** The rewrite keeps group 1, the first character, drops the space before
      the stars into the opening escape and keeps "x" as group 3. */
  lemma BoldItemRewrite(s: string)
    requires StarredShape(s)
    ensures Rewrite(FlankedBold, s, Span(1, 7)) == Restyled(s[0])
  {
    BoldItemBold(s);
    assert s[..1] == [s[0]] && s[4..7] == "abc" && s[10..] == "x";
    assert Head("x") == "x";
  }

  /** A dash not followed by a space is no list marker. */
  lemma DashWithoutSpaceNoList(r: string)
    requires |r| >= 2 && r[0] == '-' && r[1] != ' '
    ensures MatchList(r) == None
  {
    assert SpaceRun(r) == 0;
    MarkersAgree(r, 0);
  }

  /** The bold element on BoldItem, for any list variables. */
  lemma BoldItemFirst(v: Vars, s: string)
    requires Valid(v) && BoldItemShape(s)
    ensures Effect(BoldSpan, Work(s, false, v)) == Some(Work(BoldItemRewritten, false, v))
  {
    EffectIsBold(Work(s, false, v));
    BoldItemBold(s);
    BoldItemRewrite(s);
  }

  lemma ItemEffectNone(w: Work)
    requires Valid(w.vars) && MatchList(w.text).None?
    ensures ItemEffect(w) == None
  {
  }

  /** The list element then finds no list item: the rewritten text starts
      with the dash and the escape character. */
  lemma BoldItemSecond(v: Vars, r: string)
    requires Valid(v) && |r| >= 2 && r[0] == '-' && r[1] != ' '
    ensures Effect(Item, Work(r, false, v)) == None
  {
    var w := Work(r, false, v);
    EffectIsItem(w);
    DashWithoutSpaceNoList(r);
    ItemEffectNone(w);
  }

  lemma RewrittenStart()
    ensures |BoldItemRewritten| >= 2 && BoldItemRewritten[0] == '-' && BoldItemRewritten[1] == '\U{1B}'
    ensures BoldItemRewritten[|BoldItemRewritten| - 1] == 'x'
  {
  }

  /** LineStep through the elements a line matched. */
  lemma LineStepOf(v: Vars, s: string, es: seq<Element>)
    requires Valid(v) && Matched(s) == es
    ensures LineStep(v, s) == LineOf(v, s, es)
  {
  }

  /** The bold then the list element: the list element panics. */
  lemma BoldThenItemPanics(v: Vars, s: string)
    requires Valid(v) && BoldItemShape(s)
    ensures Apply([BoldSpan, Item], Work(s, false, v)) == None
  {
    BoldItemFirst(v, s);
    RewrittenStart();
    BoldItemSecond(v, BoldItemRewritten);
    ApplySingle(Item, Work(BoldItemRewritten, false, v));
    assert [BoldSpan, Item][1..] == [Item];
  }

  /** On the list element the source indexes the nil result of
      FindStringSubmatch: whatever the list variables, BoldItem panics
      (src/bean.go:166-167, 179-181). */
  lemma BoldItemPanics(v: Vars)
    requires Valid(v)
    ensures LineStep(v, BoldItem) == None
  {
    var s := BoldItem;
    BoldItemHasShape();
    BoldItemMatches(s);
    LineStepOf(v, s, [BoldSpan, Item]);
    BoldThenItemPanics(v, s);
  }

  /** A one-line document is that line's step from the reset variables. */
  lemma RunSingle(line: string)
    ensures Run([line]) == match LineStep(Reset, line)
      case None => Panicked(0)
      case Some(o) => Done(o.text, o.vars)
  {
    assert [line][..0] == [];
  }

  /** The one-line document BoldItem makes RenderMarkdown panic. */
  lemma BoldItemDocumentPanics()
    ensures Run([BoldItem]) == Panicked(0)
    ensures RenderMarkdown([BoldItem]) == None
  {
    RunSingle(BoldItem);
    BoldItemPanics(Reset);
  }

  // ---------------------------------------------------------------------------
  // The loop with its re-matches guarded

  /** The element loop with each re-match guarded: an element whose regular
      expression no longer matches the working text is skipped instead of
      panicking. */
  function ApplyGuarded(es: seq<Element>, w: Work): (r: Work)
    requires Valid(w.vars)
    ensures Valid(r.vars)
    decreases |es|
  {
    if |es| == 0 then w
    else
      match Effect(es[0], w)
      case None => ApplyGuarded(es[1..], w)
      case Some(w') => ApplyGuarded(es[1..], w')
  }

  function LineStepGuarded(v: Vars, line: string): (r: LineOut)
    requires Valid(v)
    ensures Valid(r.vars)
  {
    var w := ApplyGuarded(Matched(line), Work(line, false, v));
    if w.block then LineOut(w.text, w.vars) else LineOut(ParagraphText(w.text), Reset)
  }

  /** The loop with guarded re-matches never panics. */
  function RunGuarded(lines: seq<string>): (r: Outcome)
    ensures r.Done? && Valid(r.vars)
    decreases |lines|
  {
    if |lines| == 0 then Done("", Reset)
    else
      var n := |lines| - 1;
      var prior := RunGuarded(lines[..n]);
      var o := LineStepGuarded(prior.vars, lines[n]);
      Done(prior.out + o.text, o.vars)
  }

  function RenderMarkdownGuarded(lines: seq<string>): string {
    RunGuarded(lines).out
  }

  /** Where the source does not panic, guarding changes nothing. */
  lemma {:induction false} ApplyGuardedAgrees(es: seq<Element>, w: Work)
    requires Valid(w.vars) && Apply(es, w).Some?
    ensures ApplyGuarded(es, w) == Apply(es, w).value
    decreases |es|
  {
    if |es| > 0 {
      ApplyGuardedAgrees(es[1..], Effect(es[0], w).value);
    }
  }

  lemma LineStepGuardedAgrees(v: Vars, line: string)
    requires Valid(v) && LineStep(v, line).Some?
    ensures LineStepGuarded(v, line) == LineStep(v, line).value
  {
    ApplyGuardedAgrees(Matched(line), Work(line, false, v));
  }

  /** On every document the source renders without panicking, the guarded
      loop writes the same output and ends with the same list variables. */
  lemma {:induction false} RunGuardedAgrees(lines: seq<string>)
    requires Run(lines).Done?
    ensures RunGuarded(lines) == Run(lines)
    decreases |lines|
  {
    if |lines| > 0 {
      var n := |lines| - 1;
      RunGuardedAgrees(lines[..n]);
      LineStepGuardedAgrees(Run(lines[..n]).vars, lines[n]);
    }
  }

  /** With the guard BoldItem is rendered: the bold span is styled and, the
      list pattern no longer matching, the line is a paragraph line. */
  lemma BoldItemGuarded()
    ensures RenderMarkdownGuarded([BoldItem]) == BoldItemRewritten + " "
  {
    RunGuardedSingle(BoldItem);
    BoldItemHasShape();
    BoldItemGuardedLine(BoldItem);
  }

  lemma RunGuardedSingle(line: string)
    ensures RunGuarded([line]) == Done(LineStepGuarded(Reset, line).text, LineStepGuarded(Reset, line).vars)
  {
    assert [line][..0] == [];
  }

  lemma BoldItemGuardedLine(s: string)
    requires BoldItemShape(s)
    ensures LineStepGuarded(Reset, s) == LineOut(BoldItemRewritten + " ", Reset)
  {
    BoldItemMatches(s);
    GuardedBoldThenItem(Reset, s);
    RewrittenStart();
    PlainParagraph(BoldItemRewritten);
  }

  /** The guarded loop on BoldItem: the bold element applies, the list
      element is skipped. */
  lemma GuardedBoldThenItem(v: Vars, s: string)
    requires Valid(v) && BoldItemShape(s)
    ensures ApplyGuarded([BoldSpan, Item], Work(s, false, v)) == Work(BoldItemRewritten, false, v)
  {
    BoldItemFirst(v, s);
    RewrittenStart();
    BoldItemSecond(v, BoldItemRewritten);
    assert [BoldSpan, Item][1..] == [Item];
    assert [Item][1..] == [];
  }

  /** A line that is not blank and ends in neither a space nor "<br>" is
      written with one trailing space. */
  lemma PlainParagraph(r: string)
    requires |r| > 0 && !IsUnicodeSpace(r[0]) && r[|r| - 1] != ' ' && r[|r| - 1] != '>'
    ensures ParagraphText(r) == r + " "
  {
    if TrimRight(r, "  ") != r {
      TrimRightCutsetIsOneSpace(r);
    }
    assert !HasSuffix(r, "<br>") by {
      if |r| >= 4 {
        assert r[|r| - 4..][3] == r[|r| - 1];
      }
    }
  }

  // ---------------------------------------------------------------------------
  // The loop with list items read from the original line

  /** The elements a list line matched other than the list item itself. */
  function Styles(es: seq<Element>): (r: seq<Element>)
    ensures forall e :: e in r <==> e in es && e != Item
  {
    if |es| == 0 then [] else (if es[0] == Item then [] else [es[0]]) + Styles(es[1..])
  }

  /** One line with the fix: a valid list item is read from the original line
      and written first, its indentation, bullet and text; the other elements
      the line matched are then applied to that, each skipped if its pattern
      no longer matches, and the item's newline comes last. Every other line
      goes through the guarded loop. */
  function LineStepFixed(v: Vars, line: string): (r: LineOut)
    requires Valid(v)
    ensures Valid(r.vars)
    ensures MatchList(line).None? ==> r == LineStepGuarded(v, line)
    ensures MatchList(line).Some? && ValidIndent(v, MatchList(line).value.indent) ==>
      && IndentShape(MatchList(line).value.indent)
      && r.vars == ItemVars(v, MatchList(line).value).0
      && |r.text| > 0 && r.text[|r.text| - 1] == '\n'
  {
    match MatchList(line)
    case Some(item) =>
      assert item.indent == line[..|item.indent|];
      if ValidIndent(v, item.indent) then
        var next := ItemVars(v, item).0;
        var w := ApplyGuarded(Styles(Matched(line)), Work(ItemHead(v, item), true, next));
        StylesKeepVars(Styles(Matched(line)), Work(ItemHead(v, item), true, next));
        LineOut(w.text + "\n", w.vars)
      else LineStepGuarded(v, line)
    case None => LineStepGuarded(v, line)
  }

  /** Elements other than the list item leave the list variables alone. */
  lemma {:induction false} StylesKeepVars(es: seq<Element>, w: Work)
    requires Valid(w.vars) && Item !in es
    ensures ApplyGuarded(es, w).vars == w.vars
    decreases |es|
  {
    if |es| > 0 {
      assert es[0] != Item;
      match Effect(es[0], w)
      case None => StylesKeepVars(es[1..], w);
      case Some(w') =>
        assert w'.vars == w.vars;
        StylesKeepVars(es[1..], w');
    }
  }

  /** The fixed loop over a document; like the guarded one it never panics. */
  function RunFixed(lines: seq<string>): (r: Outcome)
    ensures r.Done? && Valid(r.vars)
    decreases |lines|
  {
    if |lines| == 0 then Done("", Reset)
    else
      var n := |lines| - 1;
      var prior := RunFixed(lines[..n]);
      var o := LineStepFixed(prior.vars, lines[n]);
      Done(prior.out + o.text, o.vars)
  }

  function RenderMarkdownFixed(lines: seq<string>): string {
    RunFixed(lines).out
  }

  /** A line that is no list item, or a list item matching nothing else, is
      written by the fixed step as by the original where the original does
      not panic. */
  lemma LineStepFixedAgrees(v: Vars, line: string)
    requires Valid(v) && LineStep(v, line).Some?
    requires MatchList(line).None? || Matched(line) == [Item]
    ensures LineStepFixed(v, line) == LineStep(v, line).value
  {
    LineStepGuardedAgrees(v, line);
    if MatchList(line).Some? {
      var item := MatchList(line).value;
      ItemStep(v, line);
      LineStepOf(v, line, [Item]);
      if ValidIndent(v, item.indent) {
        assert Styles([Item]) == [];
      }
    }
  }

  /** Every line of the document is no list item or a list item matching
      nothing else. */
  predicate ItemsUnstyled(lines: seq<string>) {
    forall i | 0 <= i < |lines| :: MatchList(lines[i]).None? || Matched(lines[i]) == [Item]
  }

  /** On such a document the fixed loop gives the original's outcome wherever
      the original does not panic. */
  lemma {:induction false} RunFixedAgrees(lines: seq<string>)
    requires Run(lines).Done? && ItemsUnstyled(lines)
    ensures RunFixed(lines) == Run(lines)
    decreases |lines|
  {
    if |lines| > 0 {
      var n := |lines| - 1;
      assert ItemsUnstyled(lines[..n]) by {
        forall i | 0 <= i < n ensures MatchList(lines[..n][i]).None? || Matched(lines[..n][i]) == [Item] {
          assert lines[..n][i] == lines[i];
        }
      }
      RunFixedAgrees(lines[..n]);
      LineStepFixedAgrees(Run(lines[..n]).vars, lines[n]);
    }
  }

  /** With the fix BoldItem is a root bullet item with the bold applied to
      its text; as for every flanked span in this renderer, the space before
      the stars goes inside the bold escape. */
  lemma BoldItemFixed()
    ensures RenderMarkdownFixed([BoldItem]) == Restyled('\U{2022}') + "\n"
  {
    RunFixedSingle(BoldItem);
    BoldItemHasShape();
    BoldItemFixedLine(BoldItem);
  }

  lemma RunFixedSingle(line: string)
    ensures RunFixed([line]) == Done(LineStepFixed(Reset, line).text, LineStepFixed(Reset, line).vars)
  {
    assert [line][..0] == [];
  }

  lemma BoldItemFixedLine(s: string)
    requires BoldItemShape(s)
    ensures LineStepFixed(Reset, s).text == Restyled('\U{2022}') + "\n"
  {
    var item := ListItem("", Unordered('-'), s[2..]);
    BoldItemListItem(s);
    RootBulletHead(s[2..]);
    BoldItemMatches(s);
    assert Styles([BoldSpan, Item]) == [BoldSpan];
    FixedItemText(Reset, s, item);
    var h := ItemHead(Reset, item);
    BulletHead(s);
    BoldOnly(Work(h, true, ItemVars(Reset, item).0));
  }

  /** The fixed step on a valid list item writes the item's head with the
      other elements applied, then the newline. */
  lemma FixedItemText(v: Vars, s: string, item: ListItem)
    requires Valid(v) && MatchList(s) == Some(item) && IndentShape(item.indent) && ValidIndent(v, item.indent)
    ensures LineStepFixed(v, s).text
      == ApplyGuarded(Styles(Matched(s)), Work(ItemHead(v, item), true, ItemVars(v, item).0)).text + "\n"
  {
  }

  /** The bold element alone on a starred line. */
  lemma BoldOnly(w: Work)
    requires Valid(w.vars) && StarredShape(w.text)
    ensures ApplyGuarded([BoldSpan], w).text == Restyled(w.text[0])
  {
    EffectIsBold(w);
    BoldItemBold(w.text);
    BoldItemRewrite(w.text);
    assert [BoldSpan][1..] == [];
  }

  /** BoldItem's groups: no indent, the dash, and the text after "- ". */
  lemma BoldItemListItem(s: string)
    requires BoldItemShape(s)
    ensures MatchList(s) == Some(ListItem("", Unordered('-'), s[2..]))
  {
    BoldItemIsItem(s);
    assert s[..0] == "" && IndentShape("");
    UnorderedAt(s, 0, '-');
    assert ListShape(s, 0, Unordered('-'));
    BoldItemTextOneLine(s);
  }

  lemma BoldItemTextOneLine(s: string)
    requires BoldItemShape(s)
    ensures '\n' !in s[2..]
  {
    forall i | 0 <= i < |s| - 2 ensures s[2..][i] != '\n' {
      BoldItemChars(s, i + 2);
    }
  }

  /** A root bullet item from the reset variables starts with the bullet. */
  lemma RootBulletHead(t: string)
    ensures ValidIndent(Reset, "") && IndentShape("")
    ensures ItemHead(Reset, ListItem("", Unordered('-'), t)) == Ansi.Bullet + t
  {
    assert Replicate(' ', 0) == "";
  }

  /** The bullet before the rest of BoldItem keeps its star layout. */
  lemma BulletHead(s: string)
    requires BoldItemShape(s)
    ensures StarredShape(Ansi.Bullet + s[2..]) && (Ansi.Bullet + s[2..])[0] == '\U{2022}'
  {
    var h := Ansi.Bullet + s[2..];
    assert forall i | 2 <= i < |h| :: h[i] == s[i];
  }
}
