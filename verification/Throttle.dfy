/**
  Greedy rate limiting of one stream of time stamps: hand one on, then nothing until `gap`
  ticks have passed since the last one handed on.  This is the rule of the alert cooldown
  (one track at a time) and of the queue-full warning.
 */
module Throttle {
  import opened Arithmetic
  import opened Wrappers

  predicate Passes(last: Option<int>, t: int, gap: int) {
    last.None? || t - last.value >= gap
  }

  /** The time of the last event handed on, or of `seed` if there is none yet. */
  function LastTime(seed: Option<int>, ts: seq<int>, picks: seq<nat>): Option<int>
    requires forall k :: 0 <= k < |picks| ==> picks[k] < |ts|
  {
    if picks == [] then seed else Some(ts[picks[|picks| - 1]])
  }

  /** The places of the events handed on, oldest first. */
  function Picks(seed: Option<int>, ts: seq<int>, gap: int): (p: seq<nat>)
    ensures forall k :: 0 <= k < |p| ==> p[k] < |ts|
  {
    if ts == [] then []
    else
      var n := |ts| - 1;
      var p := Picks(seed, ts[..n], gap);
      if Passes(LastTime(seed, ts[..n], p), ts[n], gap) then p + [n] else p
  }

  function TimesAt(ts: seq<int>, places: seq<nat>): (r: seq<int>)
    requires forall k :: 0 <= k < |places| ==> places[k] < |ts|
  {
    seq(|places|, k requires 0 <= k < |places| => ts[places[k]])
  }

  function PickedTimes(seed: Option<int>, ts: seq<int>, gap: int): seq<int> {
    TimesAt(ts, Picks(seed, ts, gap))
  }

  lemma PickedTimesAppend(seed: Option<int>, ts: seq<int>, t: int, gap: int)
    ensures var last := LastTime(seed, ts, Picks(seed, ts, gap));
      && PickedTimes(seed, ts + [t], gap)
         == PickedTimes(seed, ts, gap) + (if Passes(last, t, gap) then [t] else [])
      && LastTime(seed, ts + [t], Picks(seed, ts + [t], gap))
         == if Passes(last, t, gap) then Some(t) else last
  {
    var p := Picks(seed, ts, gap);
    assert (ts + [t])[..|ts|] == ts;
    TimesAtExtends(ts, t, p);
  }

  // ── What the greedy choice guarantees, whatever the clock does ──────────────

  /** Each entry is at least `gap` after the one before it. */
  ghost predicate Spaced(times: seq<int>, gap: int) {
    forall k :: 0 < k < |times| ==> times[k] - times[k - 1] >= gap
  }

  ghost predicate PickFor(p: seq<nat>, i: nat, m: int) {
    0 <= m < |p| && p[m] < i && (m + 1 < |p| ==> i < p[m + 1])
  }

  /** `i` was held back, because of the last event handed on before it (or of `seed`). */
  ghost predicate HeldBack(seed: Option<int>, ts: seq<int>, p: seq<nat>, i: nat, gap: int)
    requires i < |ts|
    requires forall k :: 0 <= k < |p| ==> p[k] < |ts|
  {
    || (exists m :: PickFor(p, i, m) && ts[i] - ts[p[m]] < gap)
    || (seed.Some? && (p == [] || i < p[0]) && ts[i] - seed.value < gap)
  }

  ghost predicate WellSpaced(seed: Option<int>, ts: seq<int>, p: seq<nat>, gap: int) {
    && (forall k :: 0 <= k < |p| ==> p[k] < |ts|)
    && Increasing(p)
    && Spaced(TimesAt(ts, p), gap)
    && (seed.Some? && p != [] ==> ts[p[0]] - seed.value >= gap)
  }

  lemma TimesAtExtends(ts: seq<int>, t: int, p: seq<nat>)
    requires forall k :: 0 <= k < |p| ==> p[k] < |ts|
    ensures TimesAt(ts + [t], p) == TimesAt(ts, p)
    ensures TimesAt(ts + [t], p + [|ts|]) == TimesAt(ts, p) + [t]
  {
  }

  lemma SpacingStep(seed: Option<int>, ts: seq<int>, t: int, p: seq<nat>, gap: int)
    requires WellSpaced(seed, ts, p, gap)
    ensures WellSpaced(seed, ts + [t], p, gap)
    ensures Passes(LastTime(seed, ts, p), t, gap) ==> WellSpaced(seed, ts + [t], p + [|ts|], gap)
  {
    TimesAtExtends(ts, t, p);
  }

  lemma {:induction false} GreedySpaces(seed: Option<int>, ts: seq<int>, gap: int)
    ensures WellSpaced(seed, ts, Picks(seed, ts, gap), gap)
  {
    if ts != [] {
      var n := |ts| - 1;
      GreedySpaces(seed, ts[..n], gap);
      SpacingStep(seed, ts[..n], ts[n], Picks(seed, ts[..n], gap), gap);
      assert ts[..n] + [ts[n]] == ts;
    }
  }

  lemma HeldBackExtends(seed: Option<int>, ts: seq<int>, t: int, p: seq<nat>, i: nat, gap: int)
    requires forall k :: 0 <= k < |p| ==> p[k] < |ts|
    requires i < |ts| && HeldBack(seed, ts, p, i, gap)
    ensures HeldBack(seed, ts + [t], p, i, gap)
    ensures HeldBack(seed, ts + [t], p + [|ts|], i, gap)
  {
    var q := p + [|ts|];
    if m :| PickFor(p, i, m) && ts[i] - ts[p[m]] < gap {
      assert PickFor(q, i, m) && (ts + [t])[i] - (ts + [t])[q[m]] < gap;
    }
  }

  lemma HeldBackNow(seed: Option<int>, ts: seq<int>, t: int, p: seq<nat>, gap: int)
    requires forall k :: 0 <= k < |p| ==> p[k] < |ts|
    requires !Passes(LastTime(seed, ts, p), t, gap)
    ensures HeldBack(seed, ts + [t], p, |ts|, gap)
  {
    if p != [] {
      assert PickFor(p, |ts|, |p| - 1);
    }
  }

  /** Nothing is held back without cause: every event not handed on comes less than `gap`
      after the latest event that was. */
  lemma {:induction false} GreedyIsComplete(seed: Option<int>, ts: seq<int>, gap: int, i: nat)
    requires i < |ts| && i !in Picks(seed, ts, gap)
    ensures HeldBack(seed, ts, Picks(seed, ts, gap), i, gap)
  {
    var n := |ts| - 1;
    var before, t := ts[..n], ts[n];
    var q := Picks(seed, before, gap);
    assert ts == before + [t];
    if i < n {
      GreedyIsComplete(seed, before, gap, i);
      HeldBackExtends(seed, before, t, q, i, gap);
    } else {
      assert n in q + [n];
      HeldBackNow(seed, before, t, q, gap);
    }
  }

  // ── Optimality, on a clock that does not step back ──────────────────────────

  ghost predicate NonDecreasing(ts: seq<int>) {
    forall i, j :: 0 <= i <= j < |ts| ==> ts[i] <= ts[j]
  }

  /** Another way to choose events, also respecting the gap. */
  ghost predicate Rival(ts: seq<int>, alt: seq<nat>, gap: int) {
    && Increasing(alt)
    && (forall k :: 0 <= k < |alt| ==> alt[k] < |ts|)
    && Spaced(TimesAt(ts, alt), gap)
  }

  lemma PlaceOf(p: seq<nat>, i: nat) returns (m: nat)
    requires i in p
    ensures m < |p| && p[m] == i
  {
    m :| m < |p| && p[m] == i;
  }

  /** The k-th greedy choice is never later than the k-th choice of any rival. */
  lemma {:induction false} GreedyStaysAhead(ts: seq<int>, alt: seq<nat>, gap: int, k: nat)
    requires gap > 0 && NonDecreasing(ts) && Rival(ts, alt, gap)
    requires k < |alt|
    ensures var p := Picks(None, ts, gap); k < |p| && p[k] <= alt[k]
  {
    var p := Picks(None, ts, gap);
    GreedySpaces(None, ts, gap);
    if k > 0 {
      GreedyStaysAhead(ts, alt, gap, k - 1);
      assert TimesAt(ts, alt)[k] - TimesAt(ts, alt)[k - 1] >= gap;
      assert ts[alt[k]] >= ts[p[k - 1]] + gap;
    }
    if alt[k] in p {
      var m := PlaceOf(p, alt[k]);
      assert k > 0 ==> p[k - 1] < p[m];
    } else {
      GreedyIsComplete(None, ts, gap, alt[k]);
      var m :| PickFor(p, alt[k], m) && ts[alt[k]] - ts[p[m]] < gap;
      assert k > 0 ==> m != k - 1;
    }
  }

  lemma GreedyIsOptimal(ts: seq<int>, alt: seq<nat>, gap: int)
    requires gap > 0 && NonDecreasing(ts) && Rival(ts, alt, gap)
    ensures Rival(ts, Picks(None, ts, gap), gap)
    ensures |alt| <= |Picks(None, ts, gap)|
  {
    GreedySpaces(None, ts, gap);
    if alt != [] {
      GreedyStaysAhead(ts, alt, gap, |alt| - 1);
    }
  }

  // ── Counting ────────────────────────────────────────────────────────────────

  /** How many entries lie in the closed window [a, b]. */
  function InWindow(times: seq<int>, a: int, b: int): nat {
    if times == [] then 0
    else
      var n := |times| - 1;
      InWindow(times[..n], a, b) + if a <= times[n] <= b then 1 else 0
  }

  lemma SpacedRises(times: seq<int>, gap: int, j: nat, k: nat)
    requires gap > 0 && Spaced(times, gap) && j < k < |times|
    ensures times[j] + gap <= times[k]
  {
    if j < k - 1 {
      SpacedRises(times, gap, j, k - 1);
    }
    assert times[k] - times[k - 1] >= gap;
  }

  lemma {:induction false} WindowWitness(times: seq<int>, gap: int, a: int, b: int) returns (m: nat)
    requires gap > 0 && Spaced(times, gap)
    requires InWindow(times, a, b) > 0
    ensures m < |times| && times[m] <= b
    ensures times[m] >= a + (InWindow(times, a, b) - 1) * gap
  {
    var n := |times| - 1;
    var before := InWindow(times[..n], a, b);
    if a <= times[n] <= b {
      m := n;
      if before > 0 {
        var m' := WindowWitness(times[..n], gap, a, b);
        SpacedRises(times, gap, m', n);
        OneMore(before, gap);
      }
    } else {
      m := WindowWitness(times[..n], gap, a, b);
    }
  }

  lemma QuotientBound(n: nat, d: int, length: nat)
    requires d > 0 && n * d <= length
    ensures n <= length / d
  {
    var k, rem := QuotientParts(length, d);
    if k < n {
      MulLess(k, n, d);
    }
  }

  lemma CountBound(count: nat, gap: int, a: int, length: nat, t: int)
    requires gap > 0 && count > 0 && a + (count - 1) * gap <= t <= a + length
    ensures count <= length / gap + 1
  {
    QuotientBound(count - 1, gap, length);
  }

  /** No closed window of the given length holds more than length/gap + 1 spaced events. */
  lemma WindowBound(times: seq<int>, gap: int, a: int, length: nat)
    requires gap > 0 && Spaced(times, gap)
    ensures InWindow(times, a, a + length) <= length / gap + 1
  {
    var count := InWindow(times, a, a + length);
    if count > 0 {
      var m := WindowWitness(times, gap, a, a + length);
      CountBound(count, gap, a, length, times[m]);
    }
  }

  function CeilDiv(n: nat, d: int): nat
    requires d > 0
  {
    (n + d - 1) / d
  }

  /** `n` frames, one every `period` ticks. */
  function Periodic(start: int, period: int, n: nat): seq<int> {
    seq(n, i => start + i * period)
  }

  lemma CeilParts(n: nat, d: int)
    requires d > 0
    ensures var c := CeilDiv(n, d); c >= 0 && (c - 1) * d < n <= c * d
  {
    var c, rem := QuotientParts(n + d - 1, d);
    OneMore(c, d);
    if c < 0 {
      MulLess(c, 0, d);
    }
  }

  lemma CeilUnique(n: nat, d: int, c: int)
    requires d > 0 && (c - 1) * d < n <= c * d
    ensures CeilDiv(n, d) == c
  {
    OneMore(c, d);
    QuotientUnique(n + d - 1, d, c, n - 1 - (c - 1) * d);
  }

  /** q periods span the gap, q - 1 do not. */
  lemma SpanOf(gap: int, period: int)
    requires period > 0 && gap > 0
    ensures var q := CeilDiv(gap, period); q >= 1 && q * period >= gap && (q - 1) * period < gap
  {
    CeilParts(gap, period);
  }

  lemma Reaches(d: int, gap: int, period: int)
    requires period > 0 && gap > 0
    ensures d * period >= gap <==> d >= CeilDiv(gap, period)
  {
    var q := CeilDiv(gap, period);
    SpanOf(gap, period);
    if d >= q {
      MulMono(q, d, period);
    } else {
      MulMono(d, q - 1, period);
    }
  }

  /** ceil(n / q) grows by one exactly when the last group of q is full. */
  lemma CeilStep(n: nat, q: int)
    requires q > 0
    ensures var c := CeilDiv(n, q);
      && (c - 1) * q < n <= c * q
      && (n > 0 ==> c >= 1)
      && CeilDiv(n + 1, q) == if n == c * q then c + 1 else c
  {
    var c := CeilDiv(n, q);
    CeilParts(n, q);
    OneMore(c + 1, q);
    CeilUnique(n + 1, q, if n == c * q then c + 1 else c);
  }

  lemma PeriodicApart(start: int, period: int, n: nat, i: nat, j: nat)
    requires j <= i < n
    ensures Periodic(start, period, n)[i] - Periodic(start, period, n)[j] == (i - j) * period
  {
    assert (i - j) * period == i * period - j * period;
  }

  /** With `c` choices made on `m` frames, the last one at frame (c - 1) * q, frame `m` passes
      exactly when the last group of q is full. */
  lemma PeriodicPasses(start: int, period: int, gap: int, m: nat, c: nat, last: nat)
    requires period > 0 && gap > 0
    requires var q := CeilDiv(gap, period); last == (c - 1) * q && last < m <= c * q
    ensures var ts := Periodic(start, period, m + 1);
      ts[m] - ts[last] >= gap <==> m == c * CeilDiv(gap, period)
  {
    var q := CeilDiv(gap, period);
    PeriodicApart(start, period, m + 1, m, last);
    Reaches(m - last, gap, period);
    OneMore(c, q);
  }

  lemma PeriodicPrefix(start: int, period: int, n: nat)
    ensures Periodic(start, period, n + 1)[..n] == Periodic(start, period, n)
  {
  }

  /** One greedy choice every `q` frames, where q frames are the fewest that span the gap. */
  ghost predicate EveryQth(p: seq<nat>, n: nat, q: int)
    requires q > 0
  {
    && |p| == CeilDiv(n, q)
    && (n > 0 ==> |p| > 0 && p[|p| - 1] == (|p| - 1) * q)
  }

  lemma PeriodicStep(start: int, period: int, gap: int, m: nat, q: int)
    requires period > 0 && gap > 0 && m > 0 && q == CeilDiv(gap, period) >= 1
    requires EveryQth(Picks(None, Periodic(start, period, m), gap), m, q)
    ensures EveryQth(Picks(None, Periodic(start, period, m + 1), gap), m + 1, q)
  {
    var ts, p := Periodic(start, period, m + 1), Picks(None, Periodic(start, period, m), gap);
    var c, last := |p|, p[|p| - 1];
    PeriodicPrefix(start, period, m);
    CeilStep(m, q);
    PeriodicPasses(start, period, gap, m, c, last);
    assert Picks(None, ts, gap) == if m == c * q then p + [m] else p;
  }

  lemma {:induction false} PeriodicPicks(start: int, period: int, gap: int, n: nat)
    requires period > 0 && gap > 0
    ensures CeilDiv(gap, period) >= 1
    ensures EveryQth(Picks(None, Periodic(start, period, n), gap), n, CeilDiv(gap, period))
  {
    var q := CeilDiv(gap, period);
    SpanOf(gap, period);
    if n == 0 {
      QuotientUnique(q - 1, q, 0, q - 1);
    } else if n == 1 {
      QuotientUnique(q, q, 1, 0);
      PeriodicPrefix(start, period, 0);
      assert Picks(None, Periodic(start, period, 1), gap) == [0];
    } else {
      PeriodicPicks(start, period, gap, n - 1);
      PeriodicStep(start, period, gap, n - 1, q);
    }
  }

  /** A source that fires on every one of `n` frames of a fixed period passes exactly
      ceil(n / ceil(gap / period)) of them. */
  lemma PeriodicCount(start: int, period: int, gap: int, n: nat)
    requires period > 0 && gap > 0
    ensures CeilDiv(gap, period) >= 1
    ensures |Picks(None, Periodic(start, period, n), gap)| == CeilDiv(n, CeilDiv(gap, period))
  {
    PeriodicPicks(start, period, gap, n);
  }
}
