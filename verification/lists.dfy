/** The ordered-list counter and its stack of enclosing counters, shared by
    the list logic of render/bean.go and src/bean.go. */
module Lists {

  /** orderedIterator, and orderedIteratorHistory with the innermost saved
      counter last. */
  datatype Counter = Counter(value: nat, history: seq<nat>)

  /** updateOrderedIteratorHistory (render/bean.go:82-95), identical to
      manageOrderedIteratorHistory (src/bean.go:71-84). Going in by any amount
      saves the counter once and restarts at 1; going out by n levels resumes
      at the saved entry n from the top, plus one, and drops n entries. The
      requires is what keeps the history index in range. */
  function Rebase(c: Counter, prev: nat, level: nat): (r: Counter)
    requires level > prev || 0 < prev - level <= |c.history|
    ensures level > prev ==> r.value == 1 && |r.history| == |c.history| + 1
    ensures level < prev ==> |r.history| + (prev - level) == |c.history|
    ensures r.history <= c.history || c.history <= r.history
  {
    if level > prev then Counter(1, c.history + [c.value])
    else
      var top := |c.history| - (prev - level);
      Counter(c.history[top] + 1, c.history[..top])
  }

  /** With one saved counter per level above the root, a change of level by at
      most one step in is always in range, and the history then again holds
      one entry per level. */
  lemma RebaseKeepsDepth(c: Counter, prev: nat, level: nat)
    requires |c.history| == prev && level <= prev + 1
    ensures level != prev ==> level > prev || 0 < prev - level <= |c.history|
    ensures level != prev ==> |Rebase(c, prev, level).history| == level
  {
  }

  /** Going one level in and straight back out resumes the outer count at the
      next number with the outer history intact. */
  lemma InThenOutResumes(c: Counter, prev: nat)
    requires |c.history| == prev
    ensures Rebase(Rebase(c, prev, prev + 1), prev + 1, prev) == Counter(c.value + 1, c.history)
  {
    assert (c.history + [c.value])[..prev] == c.history;
  }

  /** Going out by n levels from a counter whose history extends h by the
      entry v and n - 1 more entries resumes at v + 1 over h, whatever
      happened at the deeper levels. */
  lemma OutResumesSaved(c: Counter, h: seq<nat>, v: nat, deeper: seq<nat>, level: nat)
    requires c.history == h + [v] + deeper && |h| == level
    ensures Rebase(c, level + 1 + |deeper|, level) == Counter(v + 1, h)
  {
    assert c.history[..|h|] == h;
  }
}
