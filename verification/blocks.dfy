/** The block-level patterns of the current renderer (render/bean.go:179-189),
    as explicit scanners, each characterised by the shape the regex accepts. */
module Blocks {
  import opened Text
  import Inline

  // ---------------------------------------------------------------------------
  // Headers: `^\s*(#{1,6}) (.*)`

  /** The header regex matches with `\s*` taking s[..k] and group 1 taking s[k..k + n]. */
  predicate HeaderShape(s: string, k: nat, n: nat) {
    && 1 <= n <= 6 && k + n < |s|
    && (forall i | 0 <= i < k :: IsRegexSpace(s[i]))
    && RunOf(s, k, k + n, '#') && s[k + n] == ' '
  }

  datatype Header = Header(level: nat, text: string)

  /** A header shape is unique: the spaces are the leading `\s` run, the hashes
      the whole run of '#' after it. */
  lemma HeaderShapeUnique(s: string, k: nat, n: nat)
    requires HeaderShape(s, k, n)
    ensures k == SpaceRun(s) && n == CharRun(s, k, '#')
  {
    assert s[k] == '#' && !IsRegexSpace(s[k]);
  }

  lemma HeaderShapesAgree(s: string)
    ensures forall k: nat, n: nat | HeaderShape(s, k, n) :: k == SpaceRun(s) && n == CharRun(s, SpaceRun(s), '#')
  {
    forall k: nat, n: nat | HeaderShape(s, k, n) ensures k == SpaceRun(s) && n == CharRun(s, SpaceRun(s), '#') {
      HeaderShapeUnique(s, k, n);
    }
  }

  /** `header.FindStringSubmatch`: the level (length of group 1) and the text
      (group 2). The text of a match is Head(s[SpaceRun(s) + level + 1..]), by
      the last clause applied to the shape the second one names. */
  function MatchHeader(s: string): (r: Option<Header>)
    ensures r.Some? ==> 1 <= r.value.level <= 6
    ensures r.Some? ==> HeaderShape(s, SpaceRun(s), r.value.level)
    ensures forall k: nat, n: nat | HeaderShape(s, k, n) :: r == Some(Header(n, Head(s[k + n + 1..])))
  {
    var k := SpaceRun(s);
    var n := CharRun(s, k, '#');
    HeaderShapesAgree(s);
    if 1 <= n <= 6 && k + n < |s| && s[k + n] == ' ' then
      assert HeaderShape(s, k, n);
      Some(Header(n, Head(s[k + n + 1..])))
    else
      None
  }

  /** `^\s*# (.*)` and `^\s*## (.*)` of the older renderers: a header of
      exactly that level, with its text. */
  function HeaderOf(s: string, level: nat): (r: Option<string>)
    ensures r.Some? <==> MatchHeader(s).Some? && MatchHeader(s).value.level == level
    ensures r.Some? ==> r.value == MatchHeader(s).value.text
  {
    match MatchHeader(s)
    case Some(h) => if h.level == level then Some(h.text) else None
    case None => None
  }

  /** Seven or more hashes are not a header, whatever follows them. */
  lemma SevenHashesNoHeader(s: string)
    requires CharRun(s, SpaceRun(s), '#') >= 7
    ensures MatchHeader(s).None?
  {
  }

  // ---------------------------------------------------------------------------
  // Rules: `^(?:-{3,}|\*{3,}|_{3,})$`

  /** The whole line is one of '-', '*', '_' repeated at least three times. */
  predicate IsRule(s: string) {
    |s| >= 3 && s[0] in {'-', '*', '_'} && forall i | 0 <= i < |s| :: s[i] == s[0]
  }

  /** A rule line is not a header. */
  lemma RuleIsNoHeader(s: string)
    requires IsRule(s)
    ensures MatchHeader(s).None?
  {
    assert SpaceRun(s) == 0 by {
      assert !IsRegexSpace(s[0]);
    }
    assert CharRun(s, 0, '#') == 0;
  }

  /** A rule line reaches the rule test unchanged: the inline loops leave a
      line of one repeated character alone (render/bean.go:249-253, 262-266). */
  lemma RuleSurvivesInlinePass(s: string)
    requires IsRule(s)
    ensures Inline.InlinePass(s) == s
    ensures IsRule(Inline.InlinePass(s))
  {
    Inline.RepeatedCharUntouched(s, s[0]);
  }

  /** A line holding two different characters is never a rule. */
  lemma MixedLineIsNoRule(s: string, i: nat, j: nat)
    requires i < |s| && j < |s| && s[i] != s[j]
    ensures !IsRule(s)
  {
  }

  // ---------------------------------------------------------------------------
  // List items: `^((?:\s{4})*|\t+)([-+*] |\d+\. )(.*)`

  datatype Marker = Unordered(symbol: char) | Ordered(digits: string)

  /** The characters of group 2. */
  function MarkerText(m: Marker): string {
    match m
    case Unordered(c) => [c, ' ']
    case Ordered(d) => d + ". "
  }

  predicate ValidMarker(m: Marker) {
    match m
    case Unordered(c) => c in {'-', '+', '*'}
    case Ordered(d) => |d| > 0 && forall i | 0 <= i < |d| :: IsDigit(d[i])
  }

  /** Group 1: whole groups of four `\s` characters, or one or more tabs. */
  predicate IndentShape(w: string) {
    && (forall i | 0 <= i < |w| :: IsRegexSpace(w[i]))
    && (|w| % 4 == 0 || (|w| > 0 && forall i | 0 <= i < |w| :: w[i] == '\t'))
  }

  /** The list regex matches with group 1 = s[..k] and group 2 = MarkerText(m). */
  predicate ListShape(s: string, k: nat, m: Marker) {
    k <= |s| && IndentShape(s[..k]) && ValidMarker(m) && MarkerText(m) <= s[k..]
  }

  datatype ListItem = ListItem(indent: string, marker: Marker, text: string)

  /** The digits of an ordered marker are the whole digit run at k. */
  lemma OrderedDigitsUnique(s: string, k: nat, d: string)
    requires k <= |s| && ValidMarker(Ordered(d)) && MarkerText(Ordered(d)) <= s[k..]
    ensures d == s[k..k + DigitRun(s, k)]
    ensures var n := DigitRun(s, k); n > 0 && k + n + 1 < |s| && s[k + n] == '.' && s[k + n + 1] == ' '
  {
    var n := DigitRun(s, k);
    var t := MarkerText(Ordered(d));
    assert forall i | 0 <= i < |t| :: s[k + i] == t[i];
    assert forall i | 0 <= i < |d| :: s[k + i] == d[i];
    assert s[k + |d|] == '.';
    assert s[k..k + n] == d;
  }

  lemma UnorderedAt(s: string, k: nat, c: char)
    requires k <= |s|
    ensures MarkerText(Unordered(c)) <= s[k..] <==> k + 1 < |s| && s[k] == c && s[k + 1] == ' '
  {
    if k + 1 < |s| {
      assert s[k..][..2] == [s[k], s[k + 1]];
    }
  }

  lemma OrderedAt(s: string, k: nat)
    requires k <= |s|
    requires var n := DigitRun(s, k); n > 0 && k + n + 1 < |s| && s[k + n] == '.' && s[k + n + 1] == ' '
    ensures var d := s[k..k + DigitRun(s, k)]; ValidMarker(Ordered(d)) && MarkerText(Ordered(d)) <= s[k..]
  {
    var n := DigitRun(s, k);
    var d := s[k..k + n];
    assert forall i | 0 <= i < |d| :: d[i] == s[k + i];
    assert d + ". " == s[k..][..n + 2];
  }

  /** The scan for group 2 at position k: `[-+*] ` first, then `\d+\. `. */
  function ScanMarker(s: string, k: nat): Option<Marker>
    requires k <= |s|
  {
    var n := DigitRun(s, k);
    if k + 1 < |s| && s[k] in {'-', '+', '*'} && s[k + 1] == ' ' then Some(Unordered(s[k]))
    else if n > 0 && k + n + 1 < |s| && s[k + n] == '.' && s[k + n + 1] == ' ' then Some(Ordered(s[k..k + n]))
    else None
  }

  lemma ScanMarkerSound(s: string, k: nat)
    requires k <= |s|
    ensures var r := ScanMarker(s, k); r.Some? ==> ValidMarker(r.value) && MarkerText(r.value) <= s[k..]
  {
    if k + 1 < |s| && s[k] in {'-', '+', '*'} && s[k + 1] == ' ' {
      UnorderedAt(s, k, s[k]);
    } else if ScanMarker(s, k).Some? {
      OrderedAt(s, k);
    }
  }

  lemma ScanMarkerComplete(s: string, k: nat)
    requires k <= |s|
    ensures forall m: Marker | ValidMarker(m) && MarkerText(m) <= s[k..] :: ScanMarker(s, k) == Some(m)
  {
    MarkersAgree(s, k);
  }

  /** Group 2 at position k. */
  function MarkerAt(s: string, k: nat): (r: Option<Marker>)
    requires k <= |s|
    ensures r.Some? ==> ValidMarker(r.value) && MarkerText(r.value) <= s[k..]
    ensures forall m: Marker | ValidMarker(m) && MarkerText(m) <= s[k..] :: r == Some(m)
  {
    ScanMarkerSound(s, k);
    ScanMarkerComplete(s, k);
    ScanMarker(s, k)
  }

  /** No marker starts at k when the character there is neither a bullet
      symbol nor a digit. */
  lemma NoMarkerAt(s: string, k: nat)
    requires k <= |s|
    requires k < |s| ==> !IsDigit(s[k]) && s[k] !in {'-', '+', '*'}
    ensures MarkerAt(s, k).None?
  {
    assert DigitRun(s, k) == 0;
  }

  /** Any marker group 2 can take at k is the one the scan above picks. */
  lemma MarkersAgree(s: string, k: nat)
    requires k <= |s|
    ensures forall m: Marker | ValidMarker(m) && MarkerText(m) <= s[k..] ::
      match m
      case Unordered(c) => k + 1 < |s| && s[k] == c && s[k + 1] == ' '
      case Ordered(d) =>
        && d == s[k..k + DigitRun(s, k)] && !(s[k] in {'-', '+', '*'})
        && var n := DigitRun(s, k); n > 0 && k + n + 1 < |s| && s[k + n] == '.' && s[k + n + 1] == ' '
  {
    forall m: Marker | ValidMarker(m) && MarkerText(m) <= s[k..]
      ensures match m
        case Unordered(c) => k + 1 < |s| && s[k] == c && s[k + 1] == ' '
        case Ordered(d) =>
          && d == s[k..k + DigitRun(s, k)] && !(s[k] in {'-', '+', '*'})
          && var n := DigitRun(s, k); n > 0 && k + n + 1 < |s| && s[k + n] == '.' && s[k + n + 1] == ' '
    {
      match m
      case Unordered(c) =>
        UnorderedAt(s, k, c);
      case Ordered(d) =>
        OrderedDigitsUnique(s, k, d);
        assert s[k] == d[0] && IsDigit(d[0]);
    }
  }

  /** The indent of a list shape is the whole leading `\s` run: a marker never
      starts with a `\s` character. */
  lemma ListIndentIsSpaceRun(s: string, k: nat, m: Marker)
    requires ListShape(s, k, m)
    ensures k == SpaceRun(s)
  {
    var t := MarkerText(m);
    assert s[k] == t[0];
    assert !IsRegexSpace(s[k]) by {
      if m.Ordered? {
        assert IsDigit(m.digits[0]);
      }
    }
    assert forall i | 0 <= i < k :: s[..k][i] == s[i];
  }

  lemma ListShapesAgree(s: string)
    ensures forall k: nat, m: Marker | ListShape(s, k, m) :: k == SpaceRun(s)
  {
    forall k: nat, m: Marker | ListShape(s, k, m) ensures k == SpaceRun(s) {
      ListIndentIsSpaceRun(s, k, m);
    }
  }

  /** `list.FindStringSubmatch`: groups 1, 2 and 3. */
  function MatchList(s: string): (r: Option<ListItem>)
    ensures r.Some? ==> ListShape(s, |r.value.indent|, r.value.marker)
    ensures r.Some? ==> r.value.indent == s[..|r.value.indent|]
    ensures r.Some? ==> r.value.text == Head(s[|r.value.indent| + |MarkerText(r.value.marker)|..])
    ensures forall k: nat, m: Marker | ListShape(s, k, m) :: r.Some? && |r.value.indent| == k && r.value.marker == m
  {
    var k := SpaceRun(s);
    ListShapesAgree(s);
    if !IndentShape(s[..k]) then None
    else
      match MarkerAt(s, k)
      case None => None
      case Some(m) =>
        assert ListShape(s, k, m) && |s[..k]| == k;
        Some(ListItem(s[..k], m, Head(s[k + |MarkerText(m)|..])))
  }

  /** calcIndentMultiplier's level: the number of tabs if there are any, else
      the indent's length divided by four. */
  function IndentLevel(w: string): nat {
    var tabs := CountIn(w, {'\t'});
    if tabs > 0 then tabs else |w| / 4
  }

  /** Level 0 is exactly the empty indent, so "root item" and "level 0" agree. */
  lemma LevelZeroIsRoot(w: string)
    requires IndentShape(w)
    ensures IndentLevel(w) == 0 <==> w == ""
  {
  }

  /** An indent of spaces only has one level per four spaces. */
  lemma SpaceIndentLevel(w: string)
    requires IndentShape(w) && forall i | 0 <= i < |w| :: w[i] == ' '
    ensures 4 * IndentLevel(w) == |w|
  {
    CountInNone(w, {'\t'});
  }

  // ---------------------------------------------------------------------------
  // Root ordered lists

  /** Text without inline markers or line breaks. */
  predicate PlainText(t: string) {
    '`' !in t && '*' !in t && '_' !in t && '~' !in t && '\n' !in t
  }

  predicate IsNumeral(d: string) {
    |d| > 0 && forall j | 0 <= j < |d| :: IsDigit(d[j])
  }

  /** Every line is a root ordered item: digits, ". ", plain text. */
  predicate OrderedLines(lines: seq<string>, digits: seq<string>, texts: seq<string>) {
    && |lines| == |digits| == |texts|
    && forall i | 0 <= i < |lines| :: IsNumeral(digits[i]) && PlainText(texts[i]) && lines[i] == digits[i] + ". " + texts[i]
  }

  lemma OrderedLinesSplit(lines: seq<string>, digits: seq<string>, texts: seq<string>)
    requires OrderedLines(lines, digits, texts) && |lines| > 0
    ensures var n := |lines| - 1;
      && OrderedLines(lines[..n], digits[..n], texts[..n])
      && IsNumeral(digits[n]) && PlainText(texts[n]) && lines[n] == digits[n] + ". " + texts[n]
  {
    var n := |lines| - 1;
    forall i | 0 <= i < n
      ensures IsNumeral(digits[..n][i]) && PlainText(texts[..n][i]) && lines[..n][i] == digits[..n][i] + ". " + texts[..n][i]
    {
      assert lines[..n][i] == lines[i] && digits[..n][i] == digits[i] && texts[..n][i] == texts[i];
    }
  }

  /** A list marker after the leading `\s` run rules out a header. */
  lemma ListIsNoHeader(s: string)
    requires MatchList(s).Some?
    ensures MatchHeader(s).None?
  {
    var item := MatchList(s).value;
    var k := SpaceRun(s);
    ListIndentIsSpaceRun(s, |item.indent|, item.marker);
    var t := MarkerText(item.marker);
    assert s[k] == t[0];
    if item.marker.Ordered? {
      assert IsDigit(item.marker.digits[0]);
    }
    assert CharRun(s, k, '#') == 0;
  }

  /** A header rules out a list item. */
  lemma HeaderIsNoList(s: string)
    requires MatchHeader(s).Some?
    ensures MatchList(s).None?
  {
    var k := SpaceRun(s);
    assert s[k] == '#';
    NoMarkerAt(s, k);
  }

  /** "d. t" with plain t is a root ordered item and no header. */
  lemma OrderedLineShape(d: string, t: string)
    requires IsNumeral(d) && PlainText(t)
    ensures var line := d + ". " + t;
      && MatchHeader(line).None?
      && MatchList(line) == Some(ListItem("", Ordered(d), t))
  {
    var line := d + ". " + t;
    assert line[0] == d[0];
    assert SpaceRun(line) == 0;
    assert CharRun(line, 0, '#') == 0;
    assert line[..0] == "";
    assert MarkerText(Ordered(d)) <= line[0..];
    assert ListShape(line, 0, Ordered(d));
    assert line[|d| + 2..] == t;
  }
}
