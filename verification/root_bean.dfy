/** The first renderer, RenderMarkdown of bean.go: level 1 and level 2
    headers and unordered list items, every other line echoed as it is. The
    only state between lines is whether the last one was written as a list
    item (lastLineType). */
module RootBean {
  import opened Text
  import opened Blocks
  import Ansi

  /** `^((\s\s\s\s)*|\t+)[-+*] (.*)` (bean.go:44): the list pattern of the
      later renderers without its ordered alternative. Groups 1 and 3 are the
      indent and the text. */
  function UnorderedItem(s: string): (r: Option<ListItem>)
    ensures r.Some? <==> MatchList(s).Some? && MatchList(s).value.marker.Unordered?
    ensures r.Some? ==> r == MatchList(s)
  {
    match MatchList(s)
    case Some(item) => if item.marker.Unordered? then Some(item) else None
    case None => None
  }

  /** The loop's state: what has been written and lastLineType == 1. */
  datatype State = State(out: string, afterItem: bool)

  /** What one line writes and lastLineType after it. */
  datatype LineOut = LineOut(text: string, afterItem: bool)

  /** The switch of bean.go:49-86. A list item is written with its raw indent
      after another list item; as the first item of a list it must be at the
      root, and an indented one is echoed (the `break`), lastLineType staying 0. */
  function Step(afterItem: bool, line: string): (r: LineOut)
    ensures |r.text| > 0 && r.text[|r.text| - 1] == '\n'
  {
    match HeaderOf(line, 1)
    case Some(t) => LineOut(Ansi.Bold + Ansi.Underline + t + Ansi.Reset + "\n", false)
    case None =>
      match HeaderOf(line, 2)
      case Some(t) => LineOut(Ansi.Bold + t + Ansi.Reset + "\n", false)
      case None =>
        match UnorderedItem(line)
        case Some(item) =>
          if afterItem then LineOut(item.indent + Ansi.Bullet + item.text + "\n", true)
          else if item.indent != "" then LineOut(line + "\n", false)
          else LineOut(Ansi.Bullet + item.text + "\n", true)
        case None => LineOut(line + "\n", false)
  }

  /** The loop over the lines (bean.go:47-87), lastLineType starting at 0. */
  function Run(lines: seq<string>): State
    decreases |lines|
  {
    if |lines| == 0 then State("", false)
    else
      var n := |lines| - 1;
      var prior := Run(lines[..n]);
      var o := Step(prior.afterItem, lines[n]);
      State(prior.out + o.text, o.afterItem)
  }

  /** RenderMarkdown (bean.go:34-90). */
  function RenderMarkdown(lines: seq<string>): string {
    Run(lines).out
  }

  // ---------------------------------------------------------------------------
  // One line

  /** A header line is never a list item. */
  lemma HeaderIsNoItem(line: string, level: nat)
    requires HeaderOf(line, level).Some?
    ensures UnorderedItem(line).None?
  {
    HeaderIsNoList(line);
  }

  /** lastLineType is 1 after a line exactly when the line is a list item
      written with a bullet: one after another item, or one at the root. */
  lemma StepAfterItem(afterItem: bool, line: string)
    ensures Step(afterItem, line).afterItem
      <==> UnorderedItem(line).Some? && (afterItem || UnorderedItem(line).value.indent == "")
  {
    if HeaderOf(line, 1).Some? {
      HeaderIsNoItem(line, 1);
    } else if HeaderOf(line, 2).Some? {
      HeaderIsNoItem(line, 2);
    }
  }

  /** Every line is written as one line: exactly one '\n', at the end. */
  lemma StepOneLine(afterItem: bool, line: string)
    requires '\n' !in line
    ensures CountIn(Step(afterItem, line).text, {'\n'}) == 1
  {
    var body := StepBody(afterItem, line);
    CountInAbsent(body, '\n');
    CountInConcat(body, "\n", {'\n'});
  }

  /** The written line is a body without '\n' followed by '\n'. */
  lemma StepBody(afterItem: bool, line: string) returns (body: string)
    requires '\n' !in line
    ensures Step(afterItem, line).text == body + "\n" && '\n' !in body
  {
    match HeaderOf(line, 1)
    case Some(t) =>
      body := Ansi.Bold + Ansi.Underline + t + Ansi.Reset;
    case None =>
      match HeaderOf(line, 2)
      case Some(t) =>
        body := Ansi.Bold + t + Ansi.Reset;
      case None =>
        match UnorderedItem(line)
        case Some(item) =>
          assert item.indent <= line;
          if afterItem {
            body := item.indent + Ansi.Bullet + item.text;
          } else if item.indent != "" {
            body := line;
          } else {
            body := Ansi.Bullet + item.text;
          }
        case None =>
          body := line;
  }

  /** A line the switch echoes: no header, and either no list item or an
      indented one. */
  predicate Echoed(line: string) {
    && HeaderOf(line, 1).None? && HeaderOf(line, 2).None?
    && (UnorderedItem(line).None? || UnorderedItem(line).value.indent != "")
  }

  /** Outside a list an echoed line is written unchanged and leaves
      lastLineType at 0. */
  lemma EchoStep(line: string)
    requires Echoed(line)
    ensures Step(false, line) == LineOut(line + "\n", false)
  {
  }

  /** A list item line: indent, symbol, space, text. */
  lemma BulletLineMatches(w: string, c: char, t: string)
    requires IndentShape(w) && c in {'-', '+', '*'} && '\n' !in t
    ensures var line := w + [c, ' '] + t;
      && UnorderedItem(line) == Some(ListItem(w, Unordered(c), t))
      && HeaderOf(line, 1).None? && HeaderOf(line, 2).None?
  {
    var line := w + [c, ' '] + t;
    assert line[..|w|] == w;
    assert line[|w|..] == [c, ' '] + t;
    UnorderedAt(line, |w|, c);
    assert ListShape(line, |w|, Unordered(c));
    assert line[|w| + 2..] == t;
    ListIsNoHeader(line);
  }

  /** A list item written with a bullet: after another item with its raw
      indent (tabs are kept), at the root without one (bean.go:68-82). */
  lemma BulletStep(afterItem: bool, w: string, c: char, t: string)
    requires IndentShape(w) && c in {'-', '+', '*'} && '\n' !in t
    requires afterItem || w == ""
    ensures Step(afterItem, w + [c, ' '] + t) == LineOut(w + Ansi.Bullet + t + "\n", true)
  {
    BulletLineMatches(w, c, t);
    if !afterItem {
      assert w + Ansi.Bullet + t + "\n" == Ansi.Bullet + t + "\n";
    }
  }

  // ---------------------------------------------------------------------------
  // Documents

  /** Each line followed by '\n': what `fmt.Println` of every line writes. */
  function Unlines(lines: seq<string>): string
    decreases |lines|
  {
    if |lines| == 0 then "" else Unlines(lines[..|lines| - 1]) + (lines[|lines| - 1] + "\n")
  }

  /** The output has one line per input line. */
  lemma {:induction false} LineCount(lines: seq<string>)
    requires forall i | 0 <= i < |lines| :: '\n' !in lines[i]
    ensures CountIn(RenderMarkdown(lines), {'\n'}) == |lines|
    decreases |lines|
  {
    if |lines| > 0 {
      var n := |lines| - 1;
      var prior := Run(lines[..n]);
      LineCount(lines[..n]);
      StepOneLine(prior.afterItem, lines[n]);
      CountInConcat(prior.out, Step(prior.afterItem, lines[n]).text, {'\n'});
    }
  }

  /** A document none of whose lines is a header or a root list item is
      echoed line by line, and lastLineType never becomes 1. */
  lemma {:induction false} EchoedDocument(lines: seq<string>)
    requires forall i | 0 <= i < |lines| :: Echoed(lines[i])
    ensures Run(lines) == State(Unlines(lines), false)
    decreases |lines|
  {
    if |lines| > 0 {
      var n := |lines| - 1;
      EchoedDocument(lines[..n]);
      EchoStep(lines[n]);
    }
  }

  /** The lines of an unordered list: line i is indents[i], symbols[i], a
      space and texts[i]; the first item is at the root. */
  predicate BulletLines(lines: seq<string>, indents: seq<string>, symbols: seq<char>, texts: seq<string>) {
    && |lines| == |indents| == |symbols| == |texts|
    && (|lines| > 0 ==> indents[0] == "")
    && forall i | 0 <= i < |lines| ::
      && IndentShape(indents[i]) && symbols[i] in {'-', '+', '*'} && '\n' !in texts[i]
      && lines[i] == indents[i] + [symbols[i], ' '] + texts[i]
  }

  lemma BulletLinesSplit(lines: seq<string>, indents: seq<string>, symbols: seq<char>, texts: seq<string>)
    requires BulletLines(lines, indents, symbols, texts) && |lines| > 0
    ensures var n := |lines| - 1;
      && BulletLines(lines[..n], indents[..n], symbols[..n], texts[..n])
      && IndentShape(indents[n]) && symbols[n] in {'-', '+', '*'} && '\n' !in texts[n]
      && lines[n] == indents[n] + [symbols[n], ' '] + texts[n]
      && (n == 0 ==> indents[n] == "")
  {
    var n := |lines| - 1;
    forall i | 0 <= i < n
      ensures && IndentShape(indents[..n][i]) && symbols[..n][i] in {'-', '+', '*'} && '\n' !in texts[..n][i]
        && lines[..n][i] == indents[..n][i] + [symbols[..n][i], ' '] + texts[..n][i]
    {
      assert lines[..n][i] == lines[i] && indents[..n][i] == indents[i];
      assert symbols[..n][i] == symbols[i] && texts[..n][i] == texts[i];
    }
  }

  /** The bulleted output of a list: each item's raw indent, the bullet and
      its text. */
  function Bulleted(indents: seq<string>, texts: seq<string>): string
    requires |indents| == |texts|
    decreases |texts|
  {
    if |texts| == 0 then ""
    else
      var n := |texts| - 1;
      Bulleted(indents[..n], texts[..n]) + (indents[n] + Ansi.Bullet + texts[n] + "\n")
  }

  /** A list whose first item is at the root is written item by item with
      bullets, every later item keeping its indent whatever its depth, and
      lastLineType is 1 after it. */
  lemma {:induction false} BulletDocument(lines: seq<string>, indents: seq<string>, symbols: seq<char>, texts: seq<string>)
    requires BulletLines(lines, indents, symbols, texts)
    ensures Run(lines) == State(Bulleted(indents, texts), |lines| > 0)
    decreases |lines|
  {
    if |lines| > 0 {
      var n := |lines| - 1;
      BulletLinesSplit(lines, indents, symbols, texts);
      BulletDocument(lines[..n], indents[..n], symbols[..n], texts[..n]);
      BulletStep(n > 0, indents[n], symbols[n], texts[n]);
    }
  }
}
