/** The inline pass of the current renderer (render/bean.go): code spans are
    shielded behind a placeholder, then bold, italic and strikethrough are each
    rewritten until no match is left, then the code spans are put back. */
module Inline {
  import opened Text
  import opened Spans
  import Ansi

  const PH: char := Ansi.Placeholder

  /** containsMultipleUniqueChars: false exactly when s holds one distinct character. */
  predicate MultipleUniqueChars(s: string) {
    |set i | 0 <= i < |s| :: s[i]| != 1
  }

  /** A code span as it is saved for restoration. */
  function StyledCode(content: string): string {
    Ansi.Code + content + Ansi.Reset
  }

  /** One step of the code loop: the span becomes the placeholder. */
  function Shield(s: string, sp: Span): (r: string)
    requires sp.start <= LineEnd(s) && Encloses(CodeSpan, s, sp.start, sp.close)
    ensures CountIn(r, {'`'}) + 2 <= CountIn(s, {'`'})
  {
    var e := MatchEnd(CodeSpan, sp);
    MatchRegionCount(CodeSpan, s, sp);
    CountInNone([PH], {'`'});
    CountInNone([], {'`'});
    assert s[..sp.start] + [PH] + Head(s[e..]) == s[..sp.start] + [PH] + [] + [] + Head(s[e..]);
    CountAfterSplice(s, sp.start, e, [PH], [], [], Head(s[e..]), {'`'}, 2);
    s[..sp.start] + [PH] + Head(s[e..])
  }

  /** The code loop (render/bean.go:233-247): every code span, rightmost
      first, is replaced by the placeholder and saved, styled, after blocks. */
  function ShieldCode(s: string, blocks: seq<string>): (r: (string, seq<string>))
    ensures FindSpan(CodeSpan, r.0).None?
    ensures |r.1| >= |blocks| && r.1[..|blocks|] == blocks
    ensures CountIn(r.0, {'`'}) + 2 * (|r.1| - |blocks|) <= CountIn(s, {'`'})
    decreases CountIn(s, {'`'})
  {
    match FindSpan(CodeSpan, s)
    case None => (s, blocks)
    case Some(sp) =>
      var r := ShieldCode(Shield(s, sp), blocks + [StyledCode(s[sp.start + 1..sp.close])]);
      assert r.1[..|blocks|] == (r.1[..|blocks| + 1])[..|blocks|];
      r
  }

  /** The bold, italic and strikethrough loops (render/bean.go:248-281). Bold
      and italic give up on a line made of one repeated character. */
  function Emphasize(p: Pattern, s: string): (r: string)
    requires p == Bold || p == Italic || p == Strike
    ensures FindSpan(p, r).None? || (p != Strike && !MultipleUniqueChars(r))
    ensures CountIn(r, p.Markers()) <= CountIn(s, p.Markers())
    ensures '\n' !in s ==> '\n' !in r && CountIn(r, {PH}) == CountIn(s, {PH})
    decreases CountIn(s, p.Markers())
  {
    match FindSpan(p, s)
    case None => s
    case Some(sp) =>
      if p != Strike && !MultipleUniqueChars(s) then s
      else
        RewriteKeeps(p, s, sp, PH);
        Emphasize(p, Rewrite(p, s, sp))
  }

  /** A non-marker, non-escape character is neither added nor removed by a
      rewrite of a line without '\n'. */
  lemma RewriteKeeps(p: Pattern, s: string, sp: Span, c: char)
    requires !p.Flanked()
    requires sp.start <= LineEnd(s) && Encloses(p, s, sp.start, sp.close)
    requires c !in p.Markers() && !Ansi.IsSgrChar(c)
    ensures '\n' !in s ==> CountIn(Rewrite(p, s, sp), {c}) == CountIn(s, {c})
  {
    if '\n' !in s {
      var e := MatchEnd(p, sp);
      var r := Rewrite(p, s, sp);
      assert r == s[..sp.start] + p.Open() + Kept(p, s, sp) + p.Close() + Head(s[e..]);
      DelimitersHold(p, s, sp, {c});
      EscapesAreSgr(p);
      CountInNone(p.Open(), {c});
      CountInNone(p.Close(), {c});
      CountAfterSplice(s, sp.start, e, p.Open(), Kept(p, s, sp), p.Close(), Head(s[e..]), {c}, 0);
    }
  }

  /** The restoring loop (render/bean.go:284-286): from the last saved block
      to the first, each replaces the first placeholder left. */
  function Restore(s: string, blocks: seq<string>): string
    decreases |blocks|
  {
    if |blocks| == 0 then s
    else Restore(ReplaceFirst(s, PH, blocks[|blocks| - 1]), blocks[..|blocks| - 1])
  }

  /** The emphasis loops in their order. */
  function Emphasis(s: string): string {
    Emphasize(Strike, Emphasize(Italic, Emphasize(Bold, s)))
  }

  /** The whole inline pass of one line (render/bean.go:233-286). */
  function InlinePass(line: string): string {
    var (t, blocks) := ShieldCode(line, []);
    Restore(Emphasis(t), blocks)
  }

  // ---------------------------------------------------------------------------
  // Placeholders and their restoration

  /** parts with fills[i] between parts[i] and parts[i + 1]. */
  function Filled(parts: seq<string>, fills: seq<string>): string
    requires |parts| == |fills| + 1
  {
    if |fills| == 0 then parts[0] else parts[0] + fills[0] + Filled(parts[1..], fills[1..])
  }

  /** parts with a placeholder between neighbours. */
  function Joined(parts: seq<string>): string
    requires |parts| > 0
  {
    if |parts| == 1 then parts[0] else parts[0] + [PH] + Joined(parts[1..])
  }

  function Reversed<T>(xs: seq<T>): (r: seq<T>)
    ensures |r| == |xs|
    ensures forall i | 0 <= i < |xs| :: r[i] == xs[|xs| - 1 - i]
  {
    if |xs| == 0 then [] else [xs[|xs| - 1]] + Reversed(xs[..|xs| - 1])
  }

  predicate NoPlaceholder(parts: seq<string>) {
    forall i | 0 <= i < |parts| :: PH !in parts[i]
  }

  lemma FirstPlaceholder(x: string, y: string)
    requires PH !in x
    ensures IndexOf(x + [PH] + y, PH) == |x|
  {
    var s := x + [PH] + y;
    assert s[|x|] == PH;
    assert forall i | 0 <= i < |x| :: s[i] == x[i];
  }

  lemma ReplaceFirstPlaceholder(x: string, y: string, t: string)
    requires PH !in x
    ensures ReplaceFirst(x + [PH] + y, PH, t) == x + t + y
  {
    FirstPlaceholder(x, y);
    var s := x + [PH] + y;
    assert s[..|x|] == x;
    assert s[|x| + 1..] == y;
  }

  lemma NoPlaceholderTail(parts: seq<string>)
    requires |parts| > 0 && NoPlaceholder(parts)
    ensures NoPlaceholder(parts[1..]) && NoPlaceholder(parts[..|parts| - 1])
  {
    forall i | 0 <= i < |parts| - 1 ensures PH !in parts[1..][i] {
      assert parts[1..][i] == parts[i + 1];
    }
  }

  lemma FilledReversedStep(parts: seq<string>, blocks: seq<string>)
    requires |parts| == |blocks| + 1 && |blocks| > 0
    ensures Filled(parts, Reversed(blocks))
      == parts[0] + blocks[|blocks| - 1] + Filled(parts[1..], Reversed(blocks[..|blocks| - 1]))
  {
    var fills := Reversed(blocks);
    assert fills[1..] == Reversed(blocks[..|blocks| - 1]);
  }

  lemma JoinedStep(pre: string, parts: seq<string>)
    requires |parts| > 1
    ensures pre + Joined(parts) == (pre + parts[0]) + [PH] + Joined(parts[1..])
  {
    var j := Joined(parts[1..]);
    assert Joined(parts) == parts[0] + [PH] + j;
    assert pre + (parts[0] + [PH] + j) == (pre + parts[0]) + [PH] + j;
  }

  lemma RestoreStep(x: string, y: string, blocks: seq<string>)
    requires |blocks| > 0 && PH !in x
    ensures Restore(x + [PH] + y, blocks) == Restore(x + blocks[|blocks| - 1] + y, blocks[..|blocks| - 1])
  {
    ReplaceFirstPlaceholder(x, y, blocks[|blocks| - 1]);
  }

  lemma FilledStep(pre: string, parts: seq<string>, blocks: seq<string>)
    requires |parts| == |blocks| + 1 && |blocks| > 0
    ensures pre + Filled(parts, Reversed(blocks))
      == (pre + parts[0] + blocks[|blocks| - 1]) + Filled(parts[1..], Reversed(blocks[..|blocks| - 1]))
  {
    FilledReversedStep(parts, blocks);
  }

  /** Restoration puts the k-th block from the END of blocks into the k-th
      placeholder from the left: blocks are saved right to left, so the k-th
      placeholder gets back the k-th code span. */
  lemma {:induction false} RestoreFillsInOrder(pre: string, parts: seq<string>, blocks: seq<string>)
    requires |parts| == |blocks| + 1
    requires PH !in pre && NoPlaceholder(parts) && NoPlaceholder(blocks)
    ensures Restore(pre + Joined(parts), blocks) == pre + Filled(parts, Reversed(blocks))
    decreases |blocks|
  {
    if |blocks| > 0 {
      var n := |blocks|;
      var x := pre + parts[0];
      assert PH !in parts[0];
      JoinedStep(pre, parts);
      RestoreStep(x, Joined(parts[1..]), blocks);
      NoPlaceholderTail(parts);
      NoPlaceholderTail(blocks);
      assert PH !in blocks[n - 1];
      RestoreFillsInOrder(x + blocks[n - 1], parts[1..], blocks[..n - 1]);
      FilledStep(pre, parts, blocks);
    }
  }

  // ---------------------------------------------------------------------------
  // Lines made of plain text and code spans

  lemma {:induction false} FilledSnoc(parts: seq<string>, fills: seq<string>)
    requires |parts| == |fills| + 1 && |fills| > 0
    ensures Filled(parts, fills)
      == Filled(parts[..|fills|], fills[..|fills| - 1]) + fills[|fills| - 1] + parts[|fills|]
    decreases |fills|
  {
    var n := |fills|;
    if n > 1 {
      FilledSnoc(parts[1..], fills[1..]);
      assert parts[1..][..n - 1] == parts[..n][1..];
      assert fills[1..][..n - 2] == fills[..n - 1][1..];
    }
  }

  lemma {:induction false} FilledAppendLast(parts: seq<string>, fills: seq<string>, x: string)
    requires |parts| == |fills| + 1
    ensures Filled(parts[..|fills|] + [parts[|fills|] + x], fills) == Filled(parts, fills) + x
    decreases |fills|
  {
    var n := |fills|;
    var q := parts[..n] + [parts[n] + x];
    if n > 0 {
      assert q[1..] == parts[1..][..n - 1] + [parts[1..][n - 1] + x];
      FilledAppendLast(parts[1..], fills[1..], x);
    }
  }

  lemma {:induction false} FilledAvoids(parts: seq<string>, fills: seq<string>, c: char)
    requires |parts| == |fills| + 1
    requires forall i | 0 <= i < |parts| :: c !in parts[i]
    requires forall i | 0 <= i < |fills| :: c !in fills[i]
    ensures c !in Filled(parts, fills)
    decreases |fills|
  {
    if |fills| > 0 {
      assert forall i | 0 <= i < |parts| - 1 :: parts[1..][i] == parts[i + 1];
      assert forall i | 0 <= i < |fills| - 1 :: fills[1..][i] == fills[i + 1];
      FilledAvoids(parts[1..], fills[1..], c);
    }
  }

  /** A line of placeholder-free parts holds one placeholder per gap. */
  lemma {:induction false} JoinedCount(parts: seq<string>)
    requires |parts| > 0 && NoPlaceholder(parts)
    ensures CountIn(Joined(parts), {PH}) == |parts| - 1
    decreases |parts|
  {
    CountInAbsent(parts[0], PH);
    if |parts| > 1 {
      NoPlaceholderTail(parts);
      JoinedCount(parts[1..]);
      CountInConcat(parts[0], [PH], {PH});
      CountInConcat(parts[0] + [PH], Joined(parts[1..]), {PH});
    }
  }

  /** The text around the placeholders of x. */
  function Pieces(x: string): (r: seq<string>)
    ensures |r| == CountIn(x, {PH}) + 1
    ensures NoPlaceholder(r) && Joined(r) == x
    decreases |x|
  {
    var k := IndexOf(x, PH);
    if k == |x| then
      CountInAbsent(x, PH);
      [x]
    else
      var rest := Pieces(x[k + 1..]);
      var r := [x[..k]] + rest;
      assert r[1..] == rest;
      assert x == x[..k] + [PH] + x[k + 1..];
      CountInConcat(x[..k] + [PH], x[k + 1..], {PH});
      CountInConcat(x[..k], [PH], {PH});
      CountInAbsent(x[..k], PH);
      r
  }

  lemma {:induction false} ReversedTwice<T>(xs: seq<T>)
    ensures Reversed(Reversed(xs)) == xs
  {
  }

  /** A code span's text as it stands in the source line. */
  function Ticked(codes: seq<string>): (r: seq<string>)
    ensures |r| == |codes|
  {
    seq(|codes|, i requires 0 <= i < |codes| => "`" + codes[i] + "`")
  }

  function StyledAll(codes: seq<string>): (r: seq<string>)
    ensures |r| == |codes|
  {
    seq(|codes|, i requires 0 <= i < |codes| => StyledCode(codes[i]))
  }

  /** Text between code spans: no backtick and no '\n'. */
  predicate Plain(t: string) {
    '`' !in t && '\n' !in t
  }

  /** A code span's content: at least one character, no backtick, no '\n'. */
  predicate CodeContent(c: string) {
    |c| > 0 && '`' !in c && '\n' !in c
  }

  /** In P + `c` + t, the code span found is the last one. */
  lemma LastCodeSpanShape(pre: string, c: string, t: string)
    requires '\n' !in pre && CodeContent(c) && Plain(t)
    ensures var s, a, b := pre + "`" + c + "`" + t, |pre|, |pre| + |c| + 1;
      && '\n' !in s && s[a] == '`' && s[b] == '`'
      && forall i | a < i < |s| && i != b :: s[i] != '`'
  {
    var s := pre + "`" + c + "`" + t;
    var a, b := |pre|, |pre| + |c| + 1;
    assert forall i | 0 <= i < |pre| :: s[i] == pre[i];
    assert forall i | 0 <= i < |c| :: s[a + 1 + i] == c[i];
    assert forall i | 0 <= i < |t| :: s[b + 1 + i] == t[i];
  }

  lemma LastCodeSpan(pre: string, c: string, t: string)
    requires '\n' !in pre && CodeContent(c) && Plain(t)
    ensures var s := pre + "`" + c + "`" + t;
      FindSpan(CodeSpan, s) == Some(Span(|pre|, |pre| + |c| + 1))
  {
    var s := pre + "`" + c + "`" + t;
    var a, b := |pre|, |pre| + |c| + 1;
    LastCodeSpanShape(pre, c, t);
    assert LineEnd(s) == |s|;
    assert Encloses(CodeSpan, s, a, b);
    assert forall i | a < i < |s| && i != b :: s[i] != '`';
    forall a': nat, b': nat | a < a' ensures !Encloses(CodeSpan, s, a', b') {
      if a' < |s| && s[a'] == '`' {
        assert a' == b;
        if a' + 2 <= b' < |s| {
          assert s[b'] != '`';
        }
      }
    }
    var r := FindSpan(CodeSpan, s);
    assert r.Some?;
    var sp := r.value;
    assert sp.start == a;
    assert sp.close <= b;
    assert s[sp.close] == '`';
  }

  /** The last two texts merged around a placeholder. */
  function MergeLast(texts: seq<string>): (r: seq<string>)
    requires |texts| > 1
    ensures |r| == |texts| - 1
  {
    var n := |texts| - 1;
    texts[..n - 1] + [texts[n - 1] + [PH] + texts[n]]
  }

  lemma MergeLastFilled(texts: seq<string>, fills: seq<string>)
    requires |texts| == |fills| + 2
    ensures Filled(MergeLast(texts), fills) == Filled(texts[..|texts| - 1], fills) + [PH] + texts[|texts| - 1]
  {
    var n, t := |texts| - 1, texts[|texts| - 1];
    FilledAppendLast(texts[..n], fills, [PH] + t);
    assert texts[n - 1] + [PH] + t == texts[n - 1] + ([PH] + t);
    assert MergeLast(texts) == texts[..n][..n - 1] + [texts[..n][n - 1] + ([PH] + t)];
  }

  lemma MergeLastPlain(texts: seq<string>)
    requires |texts| > 1
    requires forall i | 0 <= i < |texts| :: Plain(texts[i])
    ensures forall i | 0 <= i < |texts| - 1 :: Plain(MergeLast(texts)[i])
  {
    var n := |texts| - 1;
    forall i | 0 <= i < n ensures Plain(MergeLast(texts)[i]) {
      if i < n - 1 {
        assert MergeLast(texts)[i] == texts[i];
      }
    }
  }

  /** Saving the last span's block, then the rest right to left, saves all
      of them right to left. */
  lemma StyledAllSnoc(blocks: seq<string>, codes: seq<string>)
    requires |codes| > 0
    ensures var n := |codes|;
      blocks + [StyledCode(codes[n - 1])] + Reversed(StyledAll(codes[..n - 1])) == blocks + Reversed(StyledAll(codes))
  {
    var n := |codes|;
    var R := Reversed(StyledAll(codes[..n - 1]));
    assert StyledAll(codes)[..n - 1] == StyledAll(codes[..n - 1]);
    assert Reversed(StyledAll(codes)) == [StyledCode(codes[n - 1])] + R;
    assert blocks + [StyledCode(codes[n - 1])] + R == blocks + ([StyledCode(codes[n - 1])] + R);
  }

  lemma ShieldCodeOnce(s: string, blocks: seq<string>, sp: Span)
    requires FindSpan(CodeSpan, s) == Some(sp)
    ensures ShieldCode(s, blocks) == ShieldCode(Shield(s, sp), blocks + [StyledCode(s[sp.start + 1..sp.close])])
  {
  }

  /** The line of text and code spans is the line up to the last span, the
      span, and the last text. */
  lemma TickedSnoc(texts: seq<string>, codes: seq<string>)
    requires |texts| == |codes| + 1 && |codes| > 0
    ensures var n := |codes|;
      Filled(texts, Ticked(codes))
      == Filled(texts[..n], Ticked(codes[..n - 1])) + "`" + codes[n - 1] + "`" + texts[n]
  {
    var n := |codes|;
    FilledSnoc(texts, Ticked(codes));
    assert Ticked(codes)[..n - 1] == Ticked(codes[..n - 1]);
    var P := Filled(texts[..n], Ticked(codes[..n - 1]));
    assert P + ("`" + codes[n - 1] + "`") + texts[n] == P + "`" + codes[n - 1] + "`" + texts[n];
  }

  lemma TickedPrefixOneLine(texts: seq<string>, codes: seq<string>)
    requires |texts| == |codes| + 1 && |codes| > 0
    requires forall i | 0 <= i < |texts| :: Plain(texts[i])
    requires forall i | 0 <= i < |codes| :: CodeContent(codes[i])
    ensures var n := |codes|; '\n' !in Filled(texts[..n], Ticked(codes[..n - 1]))
  {
    var n := |codes|;
    var fills := Ticked(codes[..n - 1]);
    forall i | 0 <= i < n - 1 ensures '\n' !in fills[i] {
      assert fills[i] == "`" + codes[i] + "`";
    }
    FilledAvoids(texts[..n], fills, '\n');
  }

  lemma LastCodeContent(pre: string, c: string, t: string)
    ensures (pre + "`" + c + "`" + t)[|pre| + 1..|pre| + |c| + 1] == c
  {
  }

  /** The code loop's first round on a line whose only code span is the last. */
  lemma ShieldCodeLast(pre: string, c: string, t: string, blocks: seq<string>)
    requires '\n' !in pre && CodeContent(c) && Plain(t)
    ensures ShieldCode(pre + "`" + c + "`" + t, blocks) == ShieldCode(pre + [PH] + t, blocks + [StyledCode(c)])
  {
    LastCodeSpan(pre, c, t);
    ShieldOfLast(pre, c, t);
    LastCodeContent(pre, c, t);
    ShieldCodeOnce(pre + "`" + c + "`" + t, blocks, Span(|pre|, |pre| + |c| + 1));
  }

  /** One round of the code loop on text and code spans: the last span goes. */
  lemma ShieldCodeStep(texts: seq<string>, codes: seq<string>, blocks: seq<string>)
    requires |texts| == |codes| + 1 && |codes| > 0
    requires forall i | 0 <= i < |texts| :: Plain(texts[i])
    requires forall i | 0 <= i < |codes| :: CodeContent(codes[i])
    ensures var n := |codes|;
      ShieldCode(Filled(texts, Ticked(codes)), blocks)
      == ShieldCode(Filled(MergeLast(texts), Ticked(codes[..n - 1])), blocks + [StyledCode(codes[n - 1])])
  {
    var n := |codes|;
    var fills := Ticked(codes[..n - 1]);
    var P := Filled(texts[..n], fills);
    var c, t := codes[n - 1], texts[n];
    TickedSnoc(texts, codes);
    TickedPrefixOneLine(texts, codes);
    assert CodeContent(c) && Plain(t);
    ShieldCodeLast(P, c, t, blocks);
    MergeLastFilled(texts, fills);
  }

  /** The code loop on text and code spans: the line comes out as the texts
      joined by placeholders, and the styled spans are saved right to left. */
  lemma {:induction false} ShieldCodeSplits(texts: seq<string>, codes: seq<string>, blocks: seq<string>)
    requires |texts| == |codes| + 1
    requires forall i | 0 <= i < |texts| :: Plain(texts[i])
    requires forall i | 0 <= i < |codes| :: CodeContent(codes[i])
    ensures ShieldCode(Filled(texts, Ticked(codes)), blocks) == (Joined(texts), blocks + Reversed(StyledAll(codes)))
    decreases |codes|
  {
    var n := |codes|;
    if n == 0 {
      NoMarkerNoSpan(CodeSpan, texts[0]);
      assert blocks + Reversed(StyledAll(codes)) == blocks;
    } else {
      var c := codes[n - 1];
      var texts', blocks' := MergeLast(texts), blocks + [StyledCode(c)];
      ShieldCodeStep(texts, codes, blocks);
      MergeLastPlain(texts);
      ShieldCodeSplits(texts', codes[..n - 1], blocks');
      JoinedAppendLast(texts);
      StyledAllSnoc(blocks, codes);
    }
  }

  lemma ShieldOfLast(pre: string, c: string, t: string)
    requires '\n' !in pre && CodeContent(c) && Plain(t)
    ensures var s, sp := pre + "`" + c + "`" + t, Span(|pre|, |pre| + |c| + 1);
      && sp.start <= LineEnd(s) && Encloses(CodeSpan, s, sp.start, sp.close)
      && Shield(s, sp) == pre + [PH] + t
  {
    LastCodeSpan(pre, c, t);
    var s := pre + "`" + c + "`" + t;
    var e := |pre| + |c| + 2;
    assert s[..|pre|] == pre;
    assert s[e..] == t;
  }

  /** Merging the last two texts around a new placeholder keeps the joined line. */
  lemma {:induction false} JoinedAppendLast(texts: seq<string>)
    requires |texts| > 1
    ensures Joined(MergeLast(texts)) == Joined(texts)
    decreases |texts|
  {
    var n := |texts| - 1;
    var q := MergeLast(texts);
    if n > 1 {
      var u := texts[1..];
      assert q[1..] == MergeLast(u);
      JoinedAppendLast(u);
    }
  }

  lemma {:induction false} JoinedAvoids(parts: seq<string>, c: char)
    requires |parts| > 0 && c != PH
    requires forall i | 0 <= i < |parts| :: c !in parts[i]
    ensures c !in Joined(parts)
    decreases |parts|
  {
    if |parts| > 1 {
      assert forall i | 0 <= i < |parts| - 1 :: parts[1..][i] == parts[i + 1];
      JoinedAvoids(parts[1..], c);
    }
  }

  /** The emphasis loops neither add nor remove placeholders on a line
      without '\n'. */
  lemma EmphasisKeepsPlaceholders(x: string)
    requires '\n' !in x
    ensures '\n' !in Emphasis(x) && CountIn(Emphasis(x), {PH}) == CountIn(x, {PH})
  {
  }

  lemma StyledAllNoPlaceholder(codes: seq<string>)
    requires forall i | 0 <= i < |codes| :: PH !in codes[i]
    ensures NoPlaceholder(Reversed(StyledAll(codes)))
  {
    assert PH !in Ansi.Code && PH !in Ansi.Reset;
    var R := Reversed(StyledAll(codes));
    forall i | 0 <= i < |R| ensures PH !in R[i] {
      assert R[i] == StyledCode(codes[|codes| - 1 - i]);
    }
  }

  /** Code spans survive the inline pass verbatim: each comes back styled, in
      its original left-to-right place among the (emphasised) surrounding
      text, and no emphasis reaches inside it. */
  lemma CodeSpansComeBackInOrder(texts: seq<string>, codes: seq<string>)
    requires |texts| == |codes| + 1
    requires forall i | 0 <= i < |texts| :: Plain(texts[i]) && PH !in texts[i]
    requires forall i | 0 <= i < |codes| :: CodeContent(codes[i]) && PH !in codes[i]
    ensures |Pieces(Emphasis(Joined(texts)))| == |texts|
    ensures InlinePass(Filled(texts, Ticked(codes))) == Filled(Pieces(Emphasis(Joined(texts))), StyledAll(codes))
  {
    var line := Filled(texts, Ticked(codes));
    var j := Joined(texts);
    var R := Reversed(StyledAll(codes));
    ShieldCodeSplits(texts, codes, []);
    assert ShieldCode(line, []) == (j, R) by {
      assert [] + R == R;
    }
    assert InlinePass(line) == Restore(Emphasis(j), R);
    JoinedAvoids(texts, '\n');
    JoinedCount(texts);
    var e := Emphasis(j);
    EmphasisKeepsPlaceholders(j);
    var ps := Pieces(e);
    StyledAllNoPlaceholder(codes);
    RestoreFillsInOrder("", ps, R);
    assert "" + Joined(ps) == e;
    ReversedTwice(StyledAll(codes));
    assert "" + Filled(ps, Reversed(R)) == Filled(ps, StyledAll(codes));
  }

  /** One round of the code loop on a one-line text keeps it one line and
      adds one placeholder, unless the span it saves held placeholders. */
  lemma ShieldAddsPlaceholder(s: string, sp: Span)
    requires '\n' !in s && sp.start <= LineEnd(s) && Encloses(CodeSpan, s, sp.start, sp.close)
    ensures '\n' !in Shield(s, sp)
    ensures PH !in s[sp.start + 1..sp.close] ==> CountIn(Shield(s, sp), {PH}) == CountIn(s, {PH}) + 1
  {
    var a, b, e := sp.start, sp.close, sp.close + 1;
    assert Shield(s, sp) == s[..a] + [PH] + s[e..];
    if PH !in s[a + 1..b] {
      forall k | a <= k < e ensures s[k] != PH {
        if a < k < b {
          assert s[k] == s[a + 1..b][k - a - 1];
        }
      }
      CountInSliceNone(s, a, e, {PH});
      CountInSlices(s, 0, a, e, {PH});
      CountInSlices(s, 0, e, |s|, {PH});
      assert s[0..a] == s[..a] && s[0..|s|] == s && s[e..|s|] == s[e..];
      CountInConcat(s[..a], [PH], {PH});
      CountInConcat(s[..a] + [PH], s[e..], {PH});
    }
  }

  /** The code loop on a one-line text: the line stays one line, and when no
      saved block holds a placeholder, each block saved adds one. */
  lemma {:induction false} ShieldCodeCount(s: string, blocks: seq<string>)
    requires '\n' !in s
    ensures var r := ShieldCode(s, blocks);
      && '\n' !in r.0
      && (NoPlaceholder(r.1[|blocks|..]) ==> CountIn(r.0, {PH}) == CountIn(s, {PH}) + |r.1| - |blocks|)
    decreases CountIn(s, {'`'})
  {
    match FindSpan(CodeSpan, s)
    case None =>
    case Some(sp) =>
      var c := s[sp.start + 1..sp.close];
      var blocks' := blocks + [StyledCode(c)];
      var t := Shield(s, sp);
      var r := ShieldCode(t, blocks');
      ShieldCodeOnce(s, blocks, sp);
      ShieldAddsPlaceholder(s, sp);
      ShieldCodeCount(t, blocks');
      assert r.1[|blocks|] == r.1[..|blocks'|][|blocks|];
      if NoPlaceholder(r.1[|blocks|..]) {
        SavedBlockNoPlaceholder(r.1, |blocks|, c);
      }
  }

  lemma SavedBlockNoPlaceholder(xs: seq<string>, k: nat, c: string)
    requires k < |xs| && xs[k] == StyledCode(c) && NoPlaceholder(xs[k..])
    ensures PH !in c && NoPlaceholder(xs[k + 1..])
  {
    assert forall i | 0 <= i < |c| :: StyledCode(c)[|Ansi.Code| + i] == c[i];
    var ys, zs := xs[k..], xs[k + 1..];
    forall i | 0 <= i < |zs| ensures PH !in zs[i] {
      assert zs[i] == ys[i + 1];
    }
  }

  /** The whole inline pass on any one-line text: the code loop leaves one
      placeholder per saved block, the text around them is emphasised, and
      the k-th placeholder from the left gets the k-th block from the end of
      the saved list. This needs no saved block to hold a placeholder, which
      a code span nested in doubled backticks breaks. */
  lemma InlinePassFills(line: string)
    requires '\n' !in line && PH !in line
    ensures var (t, blocks) := ShieldCode(line, []);
      NoPlaceholder(blocks) ==>
        && |Pieces(Emphasis(t))| == |blocks| + 1
        && InlinePass(line) == Filled(Pieces(Emphasis(t)), Reversed(blocks))
  {
    var (t, blocks) := ShieldCode(line, []);
    if NoPlaceholder(blocks) {
      ShieldCodeCount(line, []);
      assert blocks[0..] == blocks;
      CountInAbsent(line, PH);
      var e := Emphasis(t);
      EmphasisKeepsPlaceholders(t);
      var ps := Pieces(e);
      RestoreFillsInOrder("", ps, blocks);
      assert "" + Joined(ps) == e;
      assert "" + Filled(ps, Reversed(blocks)) == Filled(ps, Reversed(blocks));
    }
  }

  /** A line made of one repeated character other than '`' and '~' goes
      through the inline pass unchanged; this is what leaves "***" and "___"
      to be recognised as rules. */
  lemma RepeatedCharUntouched(s: string, c: char)
    requires c != '`' && c != '~' && |s| > 0
    requires forall i | 0 <= i < |s| :: s[i] == c
    ensures InlinePass(s) == s
  {
    NoMarkerNoSpan(CodeSpan, s);
    NoMarkerNoSpan(Strike, s);
    assert (set i | 0 <= i < |s| :: s[i]) == {c} by {
      assert s[0] == c;
    }
    assert !MultipleUniqueChars(s);
  }
}
