/**
 * The testimonials section: the carousel index over `n` reviews, and the
 * split of a stat string such as `"10K+ Happy users"` into the figure and
 * its caption. The reviews and the stats come from the translation files
 * and are inputs here; `n` is their number.
 */
module Testimonials {
  import opened JsString

  // ---------------------------------------------------------------------
  // Carousel
  // ---------------------------------------------------------------------

  /** `nextReview`: `(prev + 1) % reviews.length`. */
  function NextReview(i: nat, n: nat): (r: nat)
    requires 0 < n
    ensures r < n
  {
    (i + 1) % n
  }

  /** `prevReview`: `(prev - 1 + reviews.length) % reviews.length`. */
  function PrevReview(i: nat, n: nat): (r: nat)
    requires 0 < n
    ensures r < n
  {
    (i - 1 + n) % n
  }

  /** What a button does to the index. */
  datatype Action = Next | Prev | Indicator(index: nat)

  function Step(i: nat, n: nat, a: Action): (r: nat)
    requires 0 < n
    requires a.Indicator? ==> a.index < n
    ensures r < n
    ensures a.Indicator? ==> r == a.index
  {
    match a
    case Next => NextReview(i, n)
    case Prev => PrevReview(i, n)
    case Indicator(j) => j
  }

  /** Inside the range, next is one step on and wraps from the last review to
      the first; prev is one step back and wraps from the first to the last. */
  lemma NextAndPrevSteps(i: nat, n: nat)
    requires i < n
    ensures NextReview(i, n) == if i == n - 1 then 0 else i + 1
    ensures PrevReview(i, n) == if i == 0 then n - 1 else i - 1
  {
    if i == n - 1 {
      ModWrap(n, n);
    } else {
      ModBelow(i + 1, n);
    }
    if i == 0 {
      ModBelow(n - 1, n);
    } else {
      ModWrap(i - 1 + n, n);
    }
  }

  lemma ModBelow(x: int, n: int)
    requires 0 <= x < n
    ensures x % n == x
  {
  }

  lemma ModWrap(x: int, n: int)
    requires 0 < n <= x < 2 * n
    ensures x % n == x - n
  {
    assert x == n * 1 + (x - n);
  }

  /** Next and prev undo each other. */
  lemma PrevUndoesNext(i: nat, n: nat)
    requires i < n
    ensures PrevReview(NextReview(i, n), n) == i
    ensures NextReview(PrevReview(i, n), n) == i
  {
    NextAndPrevSteps(i, n);
    NextAndPrevSteps(NextReview(i, n), n);
    NextAndPrevSteps(PrevReview(i, n), n);
  }

  /** `k` presses of next. */
  function Advance(i: nat, n: nat, k: nat): (r: nat)
    requires 0 < n
    decreases k
  {
    if k == 0 then i else NextReview(Advance(i, n, k - 1), n)
  }

  /** Within one round, `k` presses of next move `k` places on, wrapping
      past the last review once. */
  lemma {:induction false} AdvanceWraps(i: nat, n: nat, k: nat)
    requires i < n && k <= n
    ensures Advance(i, n, k) == if i + k < n then i + k else i + k - n
    decreases k
  {
    if k > 0 {
      AdvanceWraps(i, n, k - 1);
      NextAndPrevSteps(Advance(i, n, k - 1), n);
    }
  }

  /** Pressing next once per review comes back to the same review. */
  lemma FullCycle(i: nat, n: nat)
    requires i < n
    ensures Advance(i, n, n) == i
  {
    AdvanceWraps(i, n, n);
  }

  // ---------------------------------------------------------------------
  // Stat split: stat.match(/(.+?)\s*\+\s*(.+)/)
  // ---------------------------------------------------------------------

  /** End of the run of units `.` matches from `k` (all but line terminators). */
  function RunEnd(s: string, k: nat): (e: nat)
    requires k <= |s|
    ensures k <= e <= |s| && (e < |s| ==> IsLineTerminator(s[e]))
    ensures forall i :: k <= i < e ==> !IsLineTerminator(s[i])
    decreases |s| - k
  {
    if k < |s| && !IsLineTerminator(s[k]) then RunEnd(s, k + 1) else k
  }

  /** Where the greedy `\s*` before `(.+)` gives back units, from the longest
      run down to `r`, until a unit `.` matches follows it. */
  function BackOff(s: string, r: nat, k: nat): (t: Option<nat>)
    requires r <= k <= |s|
    ensures t.Some? ==> r <= t.value <= k && t.value < |s| && !IsLineTerminator(s[t.value])
    decreases k - r
  {
    if k < |s| && !IsLineTerminator(s[k]) then Some(k)
    else if k == r then None
    else BackOff(s, r, k - 1)
  }

  /** Where `\s*(.+)` from `r` starts its group, if it matches. */
  function TailStart(s: string, r: nat): (t: Option<nat>)
    requires r <= |s|
    ensures t.Some? ==> r <= t.value < |s| && !IsLineTerminator(s[t.value]) && IsBlank(s[r..t.value])
  {
    var e := SkipSpaces(s, r);
    var t := BackOff(s, r, e);
    if t.Some? then
      assert IsBlank(s[r..t.value]) by {
        assert forall i :: r <= i < t.value ==> IsSpace(s[i]);
      }
      t
    else t
  }

  /** The positions of a match: group 1 is `s[start..headEnd]`, the `+` is at
      `plus`, group 2 is `s[tailStart..tailEnd]`. */
  datatype StatMatch = StatMatch(start: nat, headEnd: nat, plus: nat, tailStart: nat, tailEnd: nat)

  /** What the pattern demands of a match. */
  predicate Matches(s: string, m: StatMatch) {
    && m.start < m.headEnd <= m.plus < m.tailStart < m.tailEnd <= |s|
    && s[m.plus] == '+'
    && IsBlank(s[m.headEnd..m.plus])
    && IsBlank(s[m.plus + 1..m.tailStart])
    && (forall i :: m.start <= i < m.headEnd ==> !IsLineTerminator(s[i]))
    && (forall i :: m.tailStart <= i < m.tailEnd ==> !IsLineTerminator(s[i]))
    && (m.tailEnd == |s| || IsLineTerminator(s[m.tailEnd]))
  }

  /** The lazy group 1 from `p`, tried with end `q`, then `q + 1`, and so on. */
  function TryHead(s: string, p: nat, q: nat): (r: Option<StatMatch>)
    requires p < q <= |s|
    requires forall i :: p <= i < q ==> !IsLineTerminator(s[i])
    ensures r.Some? ==> Matches(s, r.value) && r.value.start == p
    decreases |s| - q
  {
    var c := SkipSpaces(s, q);
    if c < |s| && s[c] == '+' && TailStart(s, c + 1).Some? then
      var k := TailStart(s, c + 1).value;
      Some(StatMatch(p, q, c, k, RunEnd(s, k)))
    else if q < |s| && !IsLineTerminator(s[q]) then TryHead(s, p, q + 1)
    else None
  }

  /** The search from `p` on: the first start at which group 1 can begin. */
  function SearchFrom(s: string, p: nat): (r: Option<StatMatch>)
    requires p <= |s|
    ensures r.Some? ==> Matches(s, r.value) && p <= r.value.start
    decreases |s| - p
  {
    if p == |s| then None
    else if !IsLineTerminator(s[p]) && TryHead(s, p, p + 1).Some? then TryHead(s, p, p + 1)
    else SearchFrom(s, p + 1)
  }

  /** The order in which the engine tries matches: an earlier start first,
      then a shorter (lazy) group 1, then a later start of group 2 (the
      greedy `\s*` before it gives back units one at a time). The `+` and
      the end of group 2 follow from these three (`MatchDetermined`). */
  predicate Precedes(a: StatMatch, b: StatMatch) {
    || a.start < b.start
    || (a.start == b.start && a.headEnd < b.headEnd)
    || (a.start == b.start && a.headEnd == b.headEnd && a.tailStart >= b.tailStart)
  }

  /** The `+` of a match is the first unit after group 1 that is not white
      space. */
  lemma PlusAfterHead(s: string, m: StatMatch)
    requires Matches(s, m)
    ensures SkipSpaces(s, m.headEnd) == m.plus
  {
    forall k | m.headEnd <= k < m.plus
      ensures IsSpace(s[k])
    {
      assert s[k] == s[m.headEnd..m.plus][k - m.headEnd];
    }
    SkipSpacesOver(s, m.headEnd, m.plus);
  }

  lemma {:induction false} RunEndOver(s: string, i: nat, j: nat)
    requires i <= j <= |s|
    requires forall k :: i <= k < j ==> !IsLineTerminator(s[k])
    ensures RunEnd(s, i) == RunEnd(s, j)
    decreases j - i
  {
    if i < j {
      RunEndOver(s, i + 1, j);
    }
  }

  /** Group 2 of a match runs to the end of its line. */
  lemma RunEndOf(s: string, m: StatMatch)
    requires Matches(s, m)
    ensures RunEnd(s, m.tailStart) == m.tailEnd
  {
    RunEndOver(s, m.tailStart, m.tailEnd);
  }

  /** Two matches that agree on the start, the end of group 1 and the start
      of group 2 are the same match. */
  lemma MatchDetermined(s: string, a: StatMatch, b: StatMatch)
    requires Matches(s, a) && Matches(s, b)
    requires a.start == b.start && a.headEnd == b.headEnd && a.tailStart == b.tailStart
    ensures a == b
  {
    PlusAfterHead(s, a);
    PlusAfterHead(s, b);
    RunEndOf(s, a);
    RunEndOf(s, b);
  }

  /** Backing off from `k` stops at the last unit `.` matches, if there is
      one from `r` on. */
  lemma {:induction false} BackOffFinds(s: string, r: nat, k: nat, t: nat)
    requires r <= t <= k <= |s| && t < |s| && !IsLineTerminator(s[t])
    ensures BackOff(s, r, k).Some? && BackOff(s, r, k).value >= t
    decreases k - t
  {
    if !(k < |s| && !IsLineTerminator(s[k])) {
      BackOffFinds(s, r, k - 1, t);
    }
  }

  /** After the `+` of a match, `\s*(.+)` succeeds, starting group 2 no
      earlier than that match does. */
  lemma TailFound(s: string, m: StatMatch)
    requires Matches(s, m)
    ensures TailStart(s, m.plus + 1).Some? && TailStart(s, m.plus + 1).value >= m.tailStart
  {
    forall k | m.plus + 1 <= k < m.tailStart
      ensures IsSpace(s[k])
    {
      assert s[k] == s[m.plus + 1..m.tailStart][k - m.plus - 1];
    }
    SkipSpacesOver(s, m.plus + 1, m.tailStart);
    BackOffFinds(s, m.plus + 1, SkipSpaces(s, m.plus + 1), m.tailStart);
  }

  /** Extending group 1 from `q` on finds a match whenever one with that
      start and a group 1 ending at `q` or later exists, and the one it
      finds comes first in the engine's order. */
  lemma {:induction false} TryHeadComplete(s: string, p: nat, q: nat, m: StatMatch)
    requires p < q <= |s|
    requires forall i :: p <= i < q ==> !IsLineTerminator(s[i])
    requires Matches(s, m) && m.start == p && q <= m.headEnd
    ensures TryHead(s, p, q).Some? && Precedes(TryHead(s, p, q).value, m)
    decreases |s| - q
  {
    if q == m.headEnd {
      PlusAfterHead(s, m);
      TailFound(s, m);
    } else {
      var c := SkipSpaces(s, q);
      if !(c < |s| && s[c] == '+' && TailStart(s, c + 1).Some?) {
        assert !IsLineTerminator(s[q]);
        TryHeadComplete(s, p, q + 1, m);
      }
    }
  }

  /** The search from `p` finds a match whenever one starts at `p` or later,
      and the one it finds comes first in the engine's order. */
  lemma {:induction false} SearchFromComplete(s: string, p: nat, m: StatMatch)
    requires p <= m.start && Matches(s, m)
    ensures SearchFrom(s, p).Some? && Precedes(SearchFrom(s, p).value, m)
    decreases |s| - p
  {
    if p == m.start {
      assert !IsLineTerminator(s[p]);
      TryHeadComplete(s, p, p + 1, m);
    } else if !(!IsLineTerminator(s[p]) && TryHead(s, p, p + 1).Some?) {
      SearchFromComplete(s, p + 1, m);
    }
  }

  /** What the stat card shows: `parts[1]` followed by `+`, and `parts[2]`;
      `None` renders nothing. It renders exactly when the pattern matches
      somewhere, and then shows the groups of the match the engine tries
      first. */
  function StatView(stat: string): (r: Option<(string, string)>)
    ensures r.Some? <==> exists m :: Matches(stat, m)
    ensures r.Some? ==> exists m ::
      && Matches(stat, m)
      && (forall m' :: Matches(stat, m') ==> Precedes(m, m'))
      && r.value == (stat[m.start..m.headEnd] + "+", stat[m.tailStart..m.tailEnd])
    ensures '+' !in stat ==> r == None
    ensures r.Some? ==> |r.value.0| >= 2 && r.value.0[|r.value.0| - 1] == '+' && r.value.1 != []
    ensures r.Some? ==> forall i :: 0 <= i < |r.value.1| ==> !IsLineTerminator(r.value.1[i])
  {
    match SearchFrom(stat, 0)
    case Some(m) =>
      assert stat[m.plus] == '+';
      assert forall m' :: Matches(stat, m') ==> Precedes(m, m') by {
        forall m' | Matches(stat, m')
          ensures Precedes(m, m')
        {
          SearchFromComplete(stat, 0, m');
        }
      }
      Some((stat[m.start..m.headEnd] + "+", stat[m.tailStart..m.tailEnd]))
    case None =>
      assert !exists m :: Matches(stat, m) by {
        forall m | Matches(stat, m)
          ensures false
        {
          SearchFromComplete(stat, 0, m);
        }
      }
      None
  }

  lemma {:induction false} HeadSkipsToPlus(s: string, a: string, q: nat)
    requires |a| < |s| && s[..|a|] == a && s[|a|] == '+'
    requires a != [] && '+' !in a && !IsSpace(a[|a| - 1])
    requires forall i :: 0 <= i < |a| ==> !IsLineTerminator(a[i])
    requires 1 <= q <= |a|
    ensures TryHead(s, 0, q) == TryHead(s, 0, |a|)
    decreases |a| - q
  {
    if q < |a| {
      var c := SkipSpaces(s, q);
      assert s[|a| - 1] == a[|a| - 1];
      assert c <= |a| - 1;
      assert s[c] == a[c];
      assert s[q] == a[q];
      HeadSkipsToPlus(s, a, q + 1);
    }
  }

  /** The usual shape: a figure without `+` that does not end in white
      space, `+`, and a caption that does not start with white space. The
      card shows the figure with its `+`, then the caption. */
  lemma TypicalStat(a: string, b: string)
    requires a != [] && b != []
    requires '+' !in a && !IsSpace(a[|a| - 1]) && !IsSpace(b[0])
    requires forall i :: 0 <= i < |a| ==> !IsLineTerminator(a[i])
    requires forall i :: 0 <= i < |b| ==> !IsLineTerminator(b[i])
    ensures StatView(a + "+" + b) == Some((a + "+", b))
  {
    var s := a + "+" + b;
    var r := |a| + 1;
    assert s[..|a|] == a && s[|a|] == '+';
    assert s[0] == a[0];
    HeadSkipsToPlus(s, a, 1);
    TypicalTry(a, b);
    assert s[0..|a|] == a;
    assert s[r..|s|] == b;
  }

  /** With group 1 ending just before the `+`, the match is found at once
      and group 2 runs to the end. */
  lemma TypicalTry(a: string, b: string)
    requires a != [] && b != [] && !IsSpace(b[0])
    requires forall i :: 0 <= i < |a| ==> !IsLineTerminator(a[i])
    requires forall i :: 0 <= i < |b| ==> !IsLineTerminator(b[i])
    ensures TryHead(a + "+" + b, 0, |a|) == Some(StatMatch(0, |a|, |a|, |a| + 1, |a| + 1 + |b|))
  {
    var s := a + "+" + b;
    var r := |a| + 1;
    assert s[|a|] == '+' && s[r] == b[0];
    assert SkipSpaces(s, |a|) == |a|;
    assert SkipSpaces(s, r) == r;
    assert TailStart(s, r) == Some(r);
    assert forall i :: r <= i < |s| ==> s[i] == b[i - r];
    RunEndOver(s, r, |s|);
  }
}
