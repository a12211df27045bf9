/** The paired-delimiter regexes of the inline passes, replaced by explicit
    scanning functions with RE2 leftmost-first semantics.

    Every pattern here is the middle group of a Go regex `^(.*)(P)(.*)`. Group 1
    is greedy and, being made of `.`, cannot cross a '\n'; so the engine reports
    the RIGHTMOST opening delimiter at or before the first '\n' that has any
    closing delimiter, and the lazy `.+?` inside P picks that opener's NEAREST
    closing delimiter with at least one character in between. Group 3 `(.*)`
    stops at the next '\n'; whatever follows it is not part of any group and is
    dropped when a line is rebuilt from the groups. */
module Spans {
  import opened Text
  import Ansi

  datatype Pattern =
    | CodeSpan       // "`(.+?)`"
    | Bold           // `\*\*.+?\*\*|__.+?__`
    | Italic         // `\*.+?\*|_.+?_`
    | Strike         // `~~(.+?)~~`
    | FlankedBold    // `[^*]\*\*[^*].+?[^*]\*\*[^*]|[^_]__[^_].+?[^_]__[^_]`
    | FlankedItalic  // `[^*]\*[^*].+?[^*]\*[^*]|[^_]_[^_].+?[^_]_[^_]`
  {
    /** Number of marker characters in each delimiter. */
    function Width(): nat {
      match this
      case Bold => 2
      case Strike => 2
      case FlankedBold => 2
      case _ => 1
    }

    /** The src/bean.go patterns also consume one non-marker character on
        each side of each delimiter (the `[^*]` / `[^_]` classes). */
    predicate Flanked() {
      FlankedBold? || FlankedItalic?
    }

    function Markers(): set<char> {
      match this
      case CodeSpan => {'`'}
      case Strike => {'~'}
      case _ => {'*', '_'}
    }

    /** Offset of the first marker character from the start of a match. */
    function Lead(): nat {
      if Flanked() then 1 else 0
    }

    /** What the rewrite puts in place of the opening delimiter. */
    function Open(): string {
      match this
      case CodeSpan => Ansi.Code
      case Bold => Ansi.Bold
      case Italic => Ansi.Italic
      case Strike => Ansi.Strike
      case FlankedBold => Ansi.Bold + " "
      case FlankedItalic => Ansi.Italic + " "
    }

    /** What the rewrite puts in place of the closing delimiter. */
    function Close(): string {
      if Flanked() then " " + Ansi.Reset else Ansi.Reset
    }
  }

  /** An opening delimiter of p starts at a: for a flanked pattern, a non-marker
      character, the markers, and a non-marker character after them. */
  predicate Opens(p: Pattern, s: string, a: nat) {
    var w, l := p.Width(), p.Lead();
    && a + l + w + l <= |s|
    && s[a + l] in p.Markers()
    && RunOf(s, a + l, a + l + w, s[a + l])
    && (p.Flanked() ==> s[a] != s[a + l] && s[a + l + w] != s[a + l])
  }

  /** The whole pattern matches with its opening delimiter at a and the markers
      of its closing delimiter at b; the lazy `.+?` between them holds at least
      one character and no '\n'. Only the markers of the opening delimiter's
      kind close it. */
  predicate Encloses(p: Pattern, s: string, a: nat, b: nat) {
    Opens(p, s, a) &&
    var w, l := p.Width(), p.Lead();
    var m := s[a + l];
    && a + w + 3 * l + 1 <= b
    && b + w + l <= |s|
    && RunOf(s, b, b + w, m)
    && (p.Flanked() ==> s[b - 1] != m && s[b + w] != m)
    && forall k | a + w + 2 * l <= k < b - l :: s[k] != '\n'
  }

  /** The lazy `.+?`: the least closing position at or after b for the opener
      at a, or None once the content would have to cross a '\n' or the end. */
  function CloseFrom(p: Pattern, s: string, a: nat, b: nat): (r: Option<nat>)
    requires Opens(p, s, a)
    requires a + p.Width() + 3 * p.Lead() + 1 <= b <= |s| + p.Lead() + 1
    requires forall k | a + p.Width() + 2 * p.Lead() <= k < b - p.Lead() - 1 :: s[k] != '\n'
    ensures r.Some? ==> b <= r.value && Encloses(p, s, a, r.value)
    ensures r.Some? ==> forall b': nat | b <= b' < r.value :: !Encloses(p, s, a, b')
    ensures r.None? ==> forall b': nat | b <= b' :: !Encloses(p, s, a, b')
    decreases |s| - b
  {
    var w, l := p.Width(), p.Lead();
    if b + w + l > |s| then None
    else if s[b - l - 1] == '\n' then None
    else if Encloses(p, s, a, b) then Some(b)
    else CloseFrom(p, s, a, b + 1)
  }

  /** The nearest closing position for an opener at a, if any. */
  function CloseOf(p: Pattern, s: string, a: nat): (r: Option<nat>)
    ensures r.Some? ==> Encloses(p, s, a, r.value)
    ensures r.Some? ==> forall b: nat | b < r.value :: !Encloses(p, s, a, b)
    ensures r.None? ==> forall b: nat :: !Encloses(p, s, a, b)
  {
    if Opens(p, s, a) then CloseFrom(p, s, a, a + p.Width() + 3 * p.Lead() + 1) else None
  }

  /** A match: opening delimiter at start, closing markers at close. */
  datatype Span = Span(start: nat, close: nat)

  /** Rightmost opener at or before a that has a closer, with its nearest closer. */
  function FindFrom(p: Pattern, s: string, a: nat): (r: Option<Span>)
    ensures r.Some? ==> r.value.start <= a && Encloses(p, s, r.value.start, r.value.close)
    ensures r.Some? ==> forall b: nat | b < r.value.close :: !Encloses(p, s, r.value.start, b)
    ensures r.Some? ==> forall a': nat, b: nat | r.value.start < a' <= a :: !Encloses(p, s, a', b)
    ensures r.None? ==> forall a': nat, b: nat | a' <= a :: !Encloses(p, s, a', b)
  {
    match CloseOf(p, s, a)
    case Some(b) => Some(Span(a, b))
    case None => if a == 0 then None else FindFrom(p, s, a - 1)
  }

  /** `p.FindStringSubmatch(s)`, reduced to the position of the match. */
  function FindSpan(p: Pattern, s: string): (r: Option<Span>)
    ensures r.Some? ==> r.value.start <= LineEnd(s) && Encloses(p, s, r.value.start, r.value.close)
    ensures r.Some? ==> forall b: nat | b < r.value.close :: !Encloses(p, s, r.value.start, b)
    ensures r.Some? ==> forall a: nat, b: nat | r.value.start < a <= LineEnd(s) :: !Encloses(p, s, a, b)
    ensures r.None? ==> forall a: nat, b: nat | a <= LineEnd(s) :: !Encloses(p, s, a, b)
  {
    FindFrom(p, s, LineEnd(s))
  }

  /** A line without the pattern's markers has no match. */
  lemma NoMarkerNoSpan(p: Pattern, s: string)
    requires forall i | 0 <= i < |s| :: s[i] !in p.Markers()
    ensures FindSpan(p, s).None?
  {
    forall a: nat, b: nat ensures !Encloses(p, s, a, b) {
      if a + p.Lead() < |s| {
        assert s[a + p.Lead()] !in p.Markers();
      }
    }
  }

  /** The delimiter escapes contain no marker characters. */
  lemma EscapesHoldNoMarkers(p: Pattern)
    ensures CountIn(p.Open(), p.Markers()) == 0
    ensures CountIn(p.Close(), p.Markers()) == 0
    ensures '\n' !in p.Open() + p.Close()
  {
    CountInNone(p.Open(), p.Markers());
    CountInNone(p.Close(), p.Markers());
  }

  /** The delimiter escapes are made of SGR characters and spaces only. */
  lemma EscapesAreSgr(p: Pattern)
    ensures Ansi.IsSgrText(p.Open()) && Ansi.IsSgrText(p.Close())
  {
  }

  /** An unflanked match holds, outside its kept characters, only markers: a
      set of characters without the match's marker counts the same in both. */
  lemma DelimitersHold(p: Pattern, s: string, sp: Span, cs: set<char>)
    requires !p.Flanked() && Encloses(p, s, sp.start, sp.close)
    requires s[sp.start] !in cs
    ensures CountIn(s[sp.start..MatchEnd(p, sp)], cs) == CountIn(Kept(p, s, sp), cs)
  {
    var a, b, w := sp.start, sp.close, p.Width();
    var e := MatchEnd(p, sp);
    CountInSlices(s, a, a + w, e, cs);
    CountInSlices(s, a + w, b, e, cs);
    CountInSliceNone(s, a, a + w, cs);
    CountInSliceNone(s, b, e, cs);
  }

  /** The characters the rewrite keeps between the two escapes: the lazy
      content, plus, for a flanked pattern, the non-marker characters next to it. */
  function Kept(p: Pattern, s: string, sp: Span): string
    requires Encloses(p, s, sp.start, sp.close)
  {
    s[sp.start + p.Lead() + p.Width()..sp.close]
  }

  /** Index just past the whole match (group 2). */
  function MatchEnd(p: Pattern, sp: Span): nat {
    sp.close + p.Width() + p.Lead()
  }

  /** The line rebuilt from the groups: group 1, the opening escape, the kept
      characters, the closing escape, group 3. */
  function Rewrite(p: Pattern, s: string, sp: Span): (r: string)
    requires sp.start <= LineEnd(s) && Encloses(p, s, sp.start, sp.close)
    ensures |r| >= sp.start && r[..sp.start] == s[..sp.start]
    ensures MatchEnd(p, sp) <= |s|
    ensures var tail := Head(s[MatchEnd(p, sp)..]); |r| >= |tail| && r[|r| - |tail|..] == tail
    ensures '\n' !in s ==> |r| >= |s| - MatchEnd(p, sp) && r[|r| - (|s| - MatchEnd(p, sp))..] == s[MatchEnd(p, sp)..]
    ensures CountIn(r, p.Markers()) + 2 * p.Width() <= CountIn(s, p.Markers())
    ensures !p.Flanked() ==> '\n' !in r
    ensures !p.Flanked() && '\n' !in s ==> CountIn(r, p.Markers()) + 2 * p.Width() == CountIn(s, p.Markers())
  {
    RewriteCount(p, s, sp);
    RewriteShape(p, s, sp);
    s[..sp.start] + p.Open() + Kept(p, s, sp) + p.Close() + Head(s[MatchEnd(p, sp)..])
  }

  /** Within a match, the delimiters hold 2 * Width markers besides what is kept. */
  lemma MatchRegionCount(p: Pattern, s: string, sp: Span)
    requires Encloses(p, s, sp.start, sp.close)
    ensures CountIn(s[sp.start..MatchEnd(p, sp)], p.Markers()) >= CountIn(Kept(p, s, sp), p.Markers()) + 2 * p.Width()
    ensures !p.Flanked() ==>
      CountIn(s[sp.start..MatchEnd(p, sp)], p.Markers()) == CountIn(Kept(p, s, sp), p.Markers()) + 2 * p.Width()
  {
    var a, b, w, l := sp.start, sp.close, p.Width(), p.Lead();
    assert s[a + l] in p.Markers();
    RegionCount(s, a, l, w, b, s[a + l], p.Markers());
  }

  /** Counting over a region whose two delimiters are runs of w counted
      characters; only the l characters on each side can add to the count. */
  lemma RegionCount(s: string, a: nat, l: nat, w: nat, b: nat, m: char, M: set<char>)
    requires a + l + w <= b && b + w + l <= |s| && m in M
    requires RunOf(s, a + l, a + l + w, m) && RunOf(s, b, b + w, m)
    ensures CountIn(s[a..b + w + l], M) >= CountIn(s[a + l + w..b], M) + 2 * w
    ensures l == 0 ==> CountIn(s[a..b + w + l], M) == CountIn(s[a + l + w..b], M) + 2 * w
  {
    var e := b + w + l;
    CountInSlices(s, a, a + l + w, e, M);
    CountInSlices(s, a + l + w, b, e, M);
    RunAfter(s, a, l, w, m, M);
    RunBefore(s, b, w, l, m, M);
  }

  /** l characters, then a run of w counted characters. */
  lemma RunAfter(s: string, a: nat, l: nat, w: nat, m: char, M: set<char>)
    requires a + l + w <= |s| && m in M && RunOf(s, a + l, a + l + w, m)
    ensures CountIn(s[a..a + l + w], M) == CountIn(s[a..a + l], M) + w
    ensures l == 0 ==> CountIn(s[a..a + l], M) == 0
  {
    CountInSlices(s, a, a + l, a + l + w, M);
    CountInRun(s, a + l, a + l + w, m, M);
  }

  /** A run of w counted characters, then l characters. */
  lemma RunBefore(s: string, b: nat, w: nat, l: nat, m: char, M: set<char>)
    requires b + w + l <= |s| && m in M && RunOf(s, b, b + w, m)
    ensures CountIn(s[b..b + w + l], M) == w + CountIn(s[b + w..b + w + l], M)
    ensures l == 0 ==> CountIn(s[b + w..b + w + l], M) == 0
  {
    CountInSlices(s, b, b + w, b + w + l, M);
    CountInRun(s, b, b + w, m, M);
  }

  lemma RewriteCount(p: Pattern, s: string, sp: Span)
    requires sp.start <= LineEnd(s) && Encloses(p, s, sp.start, sp.close)
    ensures var r := s[..sp.start] + p.Open() + Kept(p, s, sp) + p.Close() + Head(s[MatchEnd(p, sp)..]);
      && CountIn(r, p.Markers()) + 2 * p.Width() <= CountIn(s, p.Markers())
      && (!p.Flanked() && '\n' !in s ==> CountIn(r, p.Markers()) + 2 * p.Width() == CountIn(s, p.Markers()))
  {
    EscapesHoldNoMarkers(p);
    MatchRegionCount(p, s, sp);
    var e := MatchEnd(p, sp);
    CountAfterSplice(s, sp.start, e, p.Open(), Kept(p, s, sp), p.Close(), Head(s[e..]), p.Markers(), 2 * p.Width());
  }

  lemma RewriteShape(p: Pattern, s: string, sp: Span)
    requires sp.start <= LineEnd(s) && Encloses(p, s, sp.start, sp.close)
    ensures var r := s[..sp.start] + p.Open() + Kept(p, s, sp) + p.Close() + Head(s[MatchEnd(p, sp)..]);
      && |r| >= sp.start && r[..sp.start] == s[..sp.start]
      && (!p.Flanked() ==> '\n' !in r)
  {
    var pre, k, t := s[..sp.start], Kept(p, s, sp), Head(s[MatchEnd(p, sp)..]);
    KeepsPrefix(pre, p.Open(), k, p.Close(), t);
    if !p.Flanked() {
      EscapesHoldNoMarkers(p);
      KeptOneLine(p, s, sp);
      assert '\n' !in pre;
      AvoidsAll(pre, p.Open(), k, p.Close(), t, '\n');
    }
  }

  lemma KeepsPrefix(a: string, b: string, c: string, d: string, e: string)
    ensures |a + b + c + d + e| >= |a| && (a + b + c + d + e)[..|a|] == a
  {
    assert a + b + c + d + e == a + (b + c + d + e);
  }

  lemma AvoidsAll(a: string, b: string, c: string, d: string, e: string, x: char)
    requires x !in a && x !in b + d && x !in c && x !in e
    ensures x !in a + b + c + d + e
  {
    assert x !in b && x !in d;
  }

  /** The kept characters of an unflanked match lie inside the lazy group,
      which holds no '\n'. */
  lemma KeptOneLine(p: Pattern, s: string, sp: Span)
    requires !p.Flanked() && Encloses(p, s, sp.start, sp.close)
    ensures '\n' !in Kept(p, s, sp)
  {
    var k := Kept(p, s, sp);
    assert forall i | 0 <= i < |k| :: k[i] == s[sp.start + p.Width() + i];
  }
}
