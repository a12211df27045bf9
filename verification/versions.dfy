/** The three renderers side by side: where they write the same thing and
    where they part ways. RootBean is bean.go, SrcBean is src/bean.go and
    Render is render/bean.go. */
module Versions {
  import opened Text
  import opened Blocks
  import Ansi
  import Lists
  import SrcBean
  import RootBean
  import Render

  // ---------------------------------------------------------------------------
  // Paragraph lines

  /** A paragraph line with a hard break is written whole by src/bean.go and
      trimmed by render/bean.go; otherwise the two write the same body. */
  lemma ParagraphVersions(s: string)
    requires !IsBlank(s)
    ensures |s| > 0
    ensures SrcBean.ParagraphText(s) != Render.LineBody(s) <==> s[|s| - 1] == ' '
    ensures s[|s| - 1] == ' ' ==>
      SrcBean.ParagraphText(s) == s + "\n" && Render.LineBody(s) == TrimRight(s, " ") + "\n"
  {
    TrimRightCutsetIsOneSpace(s);
    if s[|s| - 1] == ' ' {
      var t := TrimRight(s, " ");
      assert |t| < |s|;
      assert |SrcBean.ParagraphText(s)| != |Render.LineBody(s)|;
    }
  }

  // ---------------------------------------------------------------------------
  // Headers

  /** bean.go and src/bean.go write a header line alike; bean.go ends a list
      with it, src/bean.go keeps the list variables. */
  lemma HeaderVersions(v: SrcBean.Vars, afterItem: bool, s: string)
    requires SrcBean.Valid(v) && (SrcBean.MatchesOnly(s, SrcBean.H1) || SrcBean.MatchesOnly(s, SrcBean.H2))
    ensures SrcBean.LineStep(v, s) == Some(SrcBean.LineOut(RootBean.Step(afterItem, s).text, v))
    ensures !RootBean.Step(afterItem, s).afterItem
  {
    SrcBean.HeaderLine(v, s);
  }

  // ---------------------------------------------------------------------------
  // Ordered items

  /** bean.go knows no ordered list and echoes "d. t"; src/bean.go numbers it
      after the items before it. */
  lemma OrderedVersions(k: nat, afterItem: bool, d: string, t: string)
    requires IsNumeral(d) && PlainText(t)
    ensures RootBean.Step(afterItem, d + ". " + t) == RootBean.LineOut(d + ". " + t + "\n", false)
    ensures SrcBean.LineStep(SrcBean.Vars(0, Lists.Counter(k, [])), d + ". " + t)
      == Some(SrcBean.LineOut(Decimal(k + 1) + ". " + t + "\n", SrcBean.Vars(0, Lists.Counter(k + 1, []))))
  {
    OrderedLineShape(d, t);
    SrcBean.OrderedLine(k, d, t);
  }

  // ---------------------------------------------------------------------------
  // Items indented too deep

  /** An unmarked line holding an item indented by w. */
  lemma DeepItemFacts(w: string, c: char, t: string)
    requires IndentShape(w) && c in {'-', '+'} && PlainText(t)
    ensures var line := w + [c, ' '] + t;
      && MatchList(line) == Some(ListItem(w, Unordered(c), t))
      && MatchHeader(line).None?
      && SrcBean.Unmarked(line) && '`' !in line
  {
    var line := w + [c, ' '] + t;
    RootBean.BulletLineMatches(w, c, t);
    ListIsNoHeader(line);
    IndentUnmarked(w);
  }

  /** An indent holds no inline marker. */
  lemma IndentUnmarked(w: string)
    requires IndentShape(w)
    ensures SrcBean.Unmarked(w) && '`' !in w
  {
    forall i | 0 <= i < |w|
      ensures w[i] !in {'*', '_', '~', '`'}
    {
      assert IsRegexSpace(w[i]);
    }
  }

  /** An item two or more levels deeper than the list allows: render/bean.go
      leaves the loop, src/bean.go writes it as a paragraph line, bean.go
      echoes it when it opens a list. */
  lemma DeepItemVersions(w: string, c: char, t: string, v: SrcBean.Vars, st: Render.State, first: bool, width: nat)
    requires IndentShape(w) && c in {'-', '+'} && PlainText(t)
    requires SrcBean.Valid(v) && !SrcBean.ValidIndent(v, w)
    requires Render.Valid(st) && st.list.level + 1 < IndentLevel(w)
    ensures var line := w + [c, ' '] + t;
      && Render.Line(st, first, line, width).Stop?
      && SrcBean.LineStep(v, line) == Some(SrcBean.LineOut(SrcBean.ParagraphText(line), SrcBean.Reset))
      && RootBean.Step(false, line) == RootBean.LineOut(line + "\n", false)
  {
    var line := w + [c, ' '] + t;
    DeepItemFacts(w, c, t);
    Render.PlainLineUntouched(line);
    assert line[|w|] == c && line[|w| + 1] == ' ';
    MixedLineIsNoRule(line, |w|, |w| + 1);
    Render.TooDeepStops(st, first, line, width, ListItem(w, Unordered(c), t));
    SrcBean.UnmarkedItem(line);
    SrcBean.ItemLine(v, line);
    assert w != "" by {
      assert IndentLevel("") == 0;
    }
  }

  // ---------------------------------------------------------------------------
  // One-line documents (test/bean_test.go)

  /** "# t" in a document of its own. */
  lemma Header1Document(t: string)
    requires PlainText(t)
    ensures SrcBean.RenderMarkdown(["# " + t]) == Some(Ansi.Bold + Ansi.Underline + t + Ansi.Reset + "\n")
    ensures RootBean.RenderMarkdown(["# " + t]) == Ansi.Bold + Ansi.Underline + t + Ansi.Reset + "\n"
  {
    var s := "# " + t;
    HeaderShapeAt(s, 1, t);
    SrcBean.UnmarkedHeader(s);
    SrcBean.HeaderLine(SrcBean.Reset, s);
    SrcBean.RunSingle(s);
    RootSingle(s);
  }

  /** "## t" in a document of its own. */
  lemma Header2Document(t: string)
    requires PlainText(t)
    ensures SrcBean.RenderMarkdown(["## " + t]) == Some(Ansi.Bold + t + Ansi.Reset + "\n")
    ensures RootBean.RenderMarkdown(["## " + t]) == Ansi.Bold + t + Ansi.Reset + "\n"
  {
    var s := "## " + t;
    HeaderShapeAt(s, 2, t);
    SrcBean.UnmarkedHeader(s);
    SrcBean.HeaderLine(SrcBean.Reset, s);
    SrcBean.RunSingle(s);
    RootSingle(s);
  }

  /** The header of level n with plain text t. */
  lemma HeaderShapeAt(s: string, n: nat, t: string)
    requires n in {1, 2} && PlainText(t) && s == Replicate('#', n) + " " + t
    ensures MatchHeader(s) == Some(Header(n, t))
    ensures SrcBean.Unmarked(s)
  {
    assert s[n] == ' ' && s[n + 1..] == t;
    assert RunOf(s, 0, n, '#');
    assert HeaderShape(s, 0, n);
  }

  /** "- t" in a document of its own: a root bullet item in both. */
  lemma BulletDocument(t: string)
    requires PlainText(t)
    ensures SrcBean.RenderMarkdown(["- " + t]) == Some(Ansi.Bullet + t + "\n")
    ensures RootBean.RenderMarkdown(["- " + t]) == Ansi.Bullet + t + "\n"
  {
    var s := "- " + t;
    var item := ListItem("", Unordered('-'), t);
    DeepItemFacts("", '-', t);
    assert "" + ['-', ' '] + t == s;
    SrcBean.UnmarkedItem(s);
    SrcBean.ItemLine(SrcBean.Reset, s);
    assert IndentShape("") && IndentLevel("") == 0;
    SrcBean.RootUnorderedClears(SrcBean.Reset, item);
    SrcBean.RootItemText(Ansi.Bullet, t);
    SrcBean.RunSingle(s);
    RootBean.BulletStep(false, "", '-', t);
    RootSingle(s);
  }

  /** A text line that starts with a letter: src/bean.go writes it with a
      trailing space, bean.go echoes it. */
  lemma TextDocument(s: string)
    requires |s| > 0 && ('a' <= s[0] <= 'z' || 'A' <= s[0] <= 'Z')
    requires SrcBean.Unmarked(s) && s[|s| - 1] != ' ' && s[|s| - 1] != '>'
    ensures SrcBean.RenderMarkdown([s]) == Some(s + " ")
    ensures RootBean.RenderMarkdown([s]) == s + "\n"
  {
    Render.LetterIsNoBlock(s);
    SrcBean.UnmarkedText(s);
    SrcBean.TextLine(SrcBean.Reset, s);
    SrcBean.PlainParagraph(s);
    SrcBean.RunSingle(s);
    HeaderOfNone(s);
    RootSingle(s);
  }

  lemma HeaderOfNone(s: string)
    requires MatchHeader(s).None?
    ensures HeaderOf(s, 1).None? && HeaderOf(s, 2).None?
  {
  }

  /** bean.go on a one-line document. */
  lemma RootSingle(line: string)
    ensures RootBean.RenderMarkdown([line]) == RootBean.Step(false, line).text
  {
    var o := RootBean.Step(false, line);
    assert [line][..0] == [];
    assert RootBean.Run([line]) == RootBean.State("" + o.text, o.afterItem);
    assert "" + o.text == o.text;
  }

  /** The cases of test/bean_test.go:15-34 as the code writes them. */
  lemma BeanTestHeader1()
    ensures SrcBean.RenderMarkdown(["# " + "Heading 1"]) == Some(Ansi.Bold + Ansi.Underline + "Heading 1" + Ansi.Reset + "\n")
  {
    Header1Document("Heading 1");
  }

  lemma BeanTestHeader2()
    ensures SrcBean.RenderMarkdown(["## " + "Heading 2"]) == Some(Ansi.Bold + "Heading 2" + Ansi.Reset + "\n")
  {
    Header2Document("Heading 2");
  }

  /** The list case writes "• List item\n": the expected string in the test
      is that bullet misdecoded and without the newline. */
  lemma BeanTestList()
    ensures SrcBean.RenderMarkdown(["- " + "List item"]) == Some(Ansi.Bullet + "List item" + "\n")
  {
    BulletDocument("List item");
  }

  lemma BeanTestText()
    ensures SrcBean.RenderMarkdown(["Just a line of text."]) == Some("Just a line of text." + " ")
  {
    TextDocument("Just a line of text.");
  }
}
