/**
  The alert cooldown of one inference worker: a map from forklift track to the time of the
  last alert handed to the publisher.  Times are nanosecond ticks of the system clock; the
  elapsed time is truncated to milliseconds before it is compared with the cooldown.

  The key is generic so that the same definition covers a pool of workers, where every worker
  keeps a map of its own: there the key is the pair of worker and track.
 */
module Cooldown {
  import opened Arithmetic
  import opened Throttle
  import opened Wrappers

  const TICKS_PER_MS := 1_000_000

  datatype Raw<K> = Raw(key: K, ts: int)

  /** Integer division as duration_cast does it: towards zero. */
  function TruncDiv(a: int, b: int): int
    requires b > 0
  {
    if a >= 0 then a / b else -(-a / b)
  }

  predicate Suppressed<K(==)>(last: map<K, int>, key: K, ts: int, cooldownMs: int) {
    key in last && TruncDiv(ts - last[key], TICKS_PER_MS) < cooldownMs
  }

  datatype Filtered<K> = Filtered(last: map<K, int>, handedOn: seq<Raw<K>>)

  function FilterStep<K(==)>(f: Filtered<K>, r: Raw<K>, cooldownMs: int): Filtered<K> {
    if Suppressed(f.last, r.key, r.ts, cooldownMs) then f
    else Filtered(f.last[r.key := r.ts], f.handedOn + [r])
  }

  /** The filter's map and its output after a whole stream of raw alerts. */
  function Filter<K(==)>(raws: seq<Raw<K>>, cooldownMs: int): Filtered<K> {
    if raws == [] then Filtered(map[], [])
    else FilterStep(Filter(raws[..|raws| - 1], cooldownMs), raws[|raws| - 1], cooldownMs)
  }

  function TimesOf<K(==)>(rs: seq<Raw<K>>, key: K): seq<int> {
    if rs == [] then []
    else
      var n := |rs| - 1;
      if rs[n].key == key then TimesOf(rs[..n], key) + [rs[n].ts] else TimesOf(rs[..n], key)
  }

  /** When the alerts of one key were handed on. */
  function HandedTimes<K(==)>(raws: seq<Raw<K>>, key: K, cooldownMs: int): seq<int> {
    TimesOf(Filter(raws, cooldownMs).handedOn, key)
  }

  function Gap(cooldownMs: int): int {
    cooldownMs * TICKS_PER_MS
  }

  // ── The millisecond truncation ──────────────────────────────────────────────

  lemma TruncatedTest(d: int, cooldownMs: int)
    requires cooldownMs > 0
    ensures TruncDiv(d, TICKS_PER_MS) < cooldownMs <==> d < Gap(cooldownMs)
  {
  }

  /** Comparing truncated milliseconds is the same as comparing ticks exactly for positive
      cooldowns; a zero or negative cooldown already differs one tick before the bound. */
  lemma TruncationIsHarmlessExactly(cooldownMs: int)
    ensures (forall d: int :: TruncDiv(d, TICKS_PER_MS) < cooldownMs <==> d < cooldownMs * 1_000_000)
            <==> cooldownMs > 0
  {
    if cooldownMs > 0 {
      forall d: int ensures TruncDiv(d, TICKS_PER_MS) < cooldownMs <==> d < Gap(cooldownMs) {
        TruncatedTest(d, cooldownMs);
      }
    } else {
      var d := Gap(cooldownMs) - 1;
      QuotientUnique(-d, TICKS_PER_MS, -cooldownMs, 1);
      assert TruncDiv(d, TICKS_PER_MS) == cooldownMs;
    }
  }

  // ── One key at a time, the filter is the greedy throttle ────────────────────

  lemma TimesOfAppend<K>(rs: seq<Raw<K>>, r: Raw<K>, key: K)
    ensures TimesOf(rs + [r], key) == if r.key == key then TimesOf(rs, key) + [r.ts] else TimesOf(rs, key)
  {
    assert (rs + [r])[..|rs|] == rs;
  }

  lemma FilterAppend<K>(raws: seq<Raw<K>>, r: Raw<K>, cooldownMs: int)
    ensures Filter(raws + [r], cooldownMs) == FilterStep(Filter(raws, cooldownMs), r, cooldownMs)
  {
    assert (raws + [r])[..|raws|] == raws;
  }

  function KeyTime<K>(last: map<K, int>, key: K): Option<int> {
    if key in last then Some(last[key]) else None
  }

  /** The filter's view of `key` is the greedy throttle on that key's times `ts`. */
  ghost predicate Mirrors<K>(f: Filtered<K>, key: K, ts: seq<int>, gap: int) {
    && TimesOf(f.handedOn, key) == PickedTimes(None, ts, gap)
    && KeyTime(f.last, key) == LastTime(None, ts, Picks(None, ts, gap))
  }

  lemma MirrorStep<K>(f: Filtered<K>, r: Raw<K>, key: K, ts: seq<int>, cooldownMs: int)
    requires cooldownMs > 0 && Mirrors(f, key, ts, Gap(cooldownMs))
    ensures r.key == key ==> Mirrors(FilterStep(f, r, cooldownMs), key, ts + [r.ts], Gap(cooldownMs))
    ensures r.key != key ==> Mirrors(FilterStep(f, r, cooldownMs), key, ts, Gap(cooldownMs))
  {
    TimesOfAppend(f.handedOn, r, key);
    if r.key == key {
      PickedTimesAppend(None, ts, r.ts, Gap(cooldownMs));
      if key in f.last {
        TruncatedTest(r.ts - f.last[key], cooldownMs);
      }
    }
  }

  lemma {:induction false} FilterIsThrottle<K>(raws: seq<Raw<K>>, key: K, cooldownMs: int)
    requires cooldownMs > 0
    ensures Mirrors(Filter(raws, cooldownMs), key, TimesOf(raws, key), Gap(cooldownMs))
  {
    if raws != [] {
      var n := |raws| - 1;
      FilterIsThrottle(raws[..n], key, cooldownMs);
      MirrorStep(Filter(raws[..n], cooldownMs), raws[n], key, TimesOf(raws[..n], key), cooldownMs);
    }
  }

  /** Handed-on alerts of one track are at least the cooldown apart, even if the clock steps
      back. */
  lemma CooldownSpacesAlerts<K>(raws: seq<Raw<K>>, key: K, cooldownMs: int)
    requires cooldownMs > 0
    ensures Spaced(HandedTimes(raws, key, cooldownMs), Gap(cooldownMs))
  {
    FilterIsThrottle(raws, key, cooldownMs);
    GreedySpaces(None, TimesOf(raws, key), Gap(cooldownMs));
  }

  /** And every closed window holds a bounded number of them. */
  lemma CooldownBoundsWindows<K>(raws: seq<Raw<K>>, key: K, cooldownMs: int, from: int, length: nat)
    requires cooldownMs > 0
    ensures InWindow(HandedTimes(raws, key, cooldownMs), from, from + length) <= length / Gap(cooldownMs) + 1
  {
    CooldownSpacesAlerts(raws, key, cooldownMs);
    WindowBound(HandedTimes(raws, key, cooldownMs), Gap(cooldownMs), from, length);
  }

  /** On a clock that does not step back, no other choice of this track's raw alerts that
      respects the cooldown is larger than what the filter hands on. */
  lemma CooldownIsOptimal<K>(raws: seq<Raw<K>>, key: K, cooldownMs: int, alt: seq<nat>)
    requires cooldownMs > 0 && NonDecreasing(TimesOf(raws, key))
    requires Rival(TimesOf(raws, key), alt, Gap(cooldownMs))
    ensures |alt| <= |HandedTimes(raws, key, cooldownMs)|
    ensures exists mine :: Rival(TimesOf(raws, key), mine, Gap(cooldownMs))
              && TimesAt(TimesOf(raws, key), mine) == HandedTimes(raws, key, cooldownMs)
  {
    FilterIsThrottle(raws, key, cooldownMs);
    GreedyIsOptimal(TimesOf(raws, key), alt, Gap(cooldownMs));
  }

  /** Every raw alert of a track that is not handed on comes less than the cooldown after the
      latest alert of that track that was. */
  lemma CooldownIsComplete<K>(raws: seq<Raw<K>>, key: K, cooldownMs: int, i: nat)
    requires cooldownMs > 0
    requires i < |TimesOf(raws, key)|
    ensures var ts := TimesOf(raws, key);
      var p := Picks(None, ts, Gap(cooldownMs));
      && TimesAt(ts, p) == HandedTimes(raws, key, cooldownMs)
      && (i in p || exists m :: PickFor(p, i, m) && ts[i] - ts[p[m]] < Gap(cooldownMs))
  {
    FilterIsThrottle(raws, key, cooldownMs);
    if i !in Picks(None, TimesOf(raws, key), Gap(cooldownMs)) {
      GreedyIsComplete(None, TimesOf(raws, key), Gap(cooldownMs), i);
    }
  }

  /** A track that triggers on `n` frames of a fixed period is alerted
      ceil(n / ceil(cooldown / period)) times. */
  lemma PeriodicTrackCount<K>(raws: seq<Raw<K>>, key: K, cooldownMs: int, start: int, period: int, n: nat)
    requires cooldownMs > 0 && period > 0
    requires TimesOf(raws, key) == Periodic(start, period, n)
    ensures CeilDiv(Gap(cooldownMs), period) >= 1
    ensures |HandedTimes(raws, key, cooldownMs)| == CeilDiv(n, CeilDiv(Gap(cooldownMs), period))
  {
    FilterIsThrottle(raws, key, cooldownMs);
    PeriodicCount(start, period, Gap(cooldownMs), n);
  }

  /** Everything handed on for a key is no later than the key's entry in the map. */
  ghost predicate Dated<K>(f: Filtered<K>) {
    && (forall i :: 0 <= i < |f.handedOn| ==>
          f.handedOn[i].key in f.last && f.handedOn[i].ts <= f.last[f.handedOn[i].key])
    && (forall i, j :: 0 <= i < j < |f.handedOn| ==> f.handedOn[i] != f.handedOn[j])
  }

  /** With a positive cooldown no two alerts handed on share both key and time. */
  lemma {:induction false} HandedOnAreDistinct<K>(raws: seq<Raw<K>>, cooldownMs: int)
    requires cooldownMs > 0
    ensures Dated(Filter(raws, cooldownMs))
  {
    if raws != [] {
      var n := |raws| - 1;
      HandedOnAreDistinct(raws[..n], cooldownMs);
      var f, r := Filter(raws[..n], cooldownMs), raws[n];
      if r.key in f.last {
        TruncatedTest(r.ts - f.last[r.key], cooldownMs);
      }
    }
  }

  // ── Several workers on one camera ───────────────────────────────────────────

  /** One raw alert of a pool: the worker that produced it and the forklift track. */
  type PoolRaw = Raw<(nat, int)>

  function StreamOf(pool: seq<PoolRaw>, worker: nat): seq<Raw<int>> {
    if pool == [] then []
    else
      var n := |pool| - 1;
      var before := StreamOf(pool[..n], worker);
      if pool[n].key.0 == worker then before + [Raw(pool[n].key.1, pool[n].ts)] else before
  }

  function ForgetWorkers(pool: seq<PoolRaw>): seq<Raw<int>> {
    seq(|pool|, i requires 0 <= i < |pool| => Raw(pool[i].key.1, pool[i].ts))
  }

  /** When alerts of a track reach the publisher, whichever worker handed them on. */
  function PublishedTimes(pool: seq<PoolRaw>, track: int, cooldownMs: int): seq<int> {
    TimesOf(ForgetWorkers(Filter(pool, cooldownMs).handedOn), track)
  }

  lemma StreamAppend(pool: seq<PoolRaw>, r: PoolRaw, worker: nat)
    ensures StreamOf(pool + [r], worker)
            == if r.key.0 == worker then StreamOf(pool, worker) + [Raw(r.key.1, r.ts)] else StreamOf(pool, worker)
  {
    assert (pool + [r])[..|pool|] == pool;
  }

  /** The pool's filter, seen from one worker, is the filter `mine` that worker runs alone. */
  ghost predicate Projects(all: Filtered<(nat, int)>, mine: Filtered<int>, worker: nat) {
    && StreamOf(all.handedOn, worker) == mine.handedOn
    && forall track :: KeyTime(all.last, (worker, track)) == KeyTime(mine.last, track)
  }

  lemma KeyTimeAfter<K>(last: map<K, int>, key: K, ts: int, other: K)
    ensures KeyTime(last[key := ts], other) == if other == key then Some(ts) else KeyTime(last, other)
  {
  }

  /** An alert of this worker meets the same map entry in both filters. */
  lemma OwnStep(all: Filtered<(nat, int)>, mine: Filtered<int>, worker: nat, key: int, ts: int, cooldownMs: int)
    requires Projects(all, mine, worker)
    ensures Projects(FilterStep(all, Raw((worker, key), ts), cooldownMs),
                     FilterStep(mine, Raw(key, ts), cooldownMs), worker)
  {
    assert KeyTime(all.last, (worker, key)) == KeyTime(mine.last, key);
    if !Suppressed(mine.last, key, ts, cooldownMs) {
      StreamAppend(all.handedOn, Raw((worker, key), ts), worker);
      forall track
        ensures KeyTime(all.last[(worker, key) := ts], (worker, track)) == KeyTime(mine.last[key := ts], track)
      {
        KeyTimeAfter(all.last, (worker, key), ts, (worker, track));
        KeyTimeAfter(mine.last, key, ts, track);
        assert KeyTime(all.last, (worker, track)) == KeyTime(mine.last, track);
      }
    }
  }

  /** An alert of another worker leaves this worker's entries alone. */
  lemma OtherStep(all: Filtered<(nat, int)>, mine: Filtered<int>, worker: nat, r: PoolRaw, cooldownMs: int)
    requires Projects(all, mine, worker) && r.key.0 != worker
    ensures Projects(FilterStep(all, r, cooldownMs), mine, worker)
  {
    if !Suppressed(all.last, r.key, r.ts, cooldownMs) {
      StreamAppend(all.handedOn, r, worker);
      forall track ensures KeyTime(all.last[r.key := r.ts], (worker, track)) == KeyTime(mine.last, track) {
        KeyTimeAfter(all.last, r.key, r.ts, (worker, track));
        assert KeyTime(all.last, (worker, track)) == KeyTime(mine.last, track);
      }
    }
  }

  /** Workers do not disturb each other: each one's part of the pool is its own filter. */
  lemma {:induction false} WorkersAreIndependent(pool: seq<PoolRaw>, worker: nat, cooldownMs: int)
    ensures Projects(Filter(pool, cooldownMs), Filter(StreamOf(pool, worker), cooldownMs), worker)
  {
    if pool != [] {
      var n := |pool| - 1;
      var r, before := pool[n], StreamOf(pool[..n], worker);
      WorkersAreIndependent(pool[..n], worker, cooldownMs);
      var all, mine := Filter(pool[..n], cooldownMs), Filter(before, cooldownMs);
      if r.key.0 == worker {
        OwnStep(all, mine, worker, r.key.1, r.ts, cooldownMs);
        FilterAppend(before, Raw(r.key.1, r.ts), cooldownMs);
      } else {
        OtherStep(all, mine, worker, r, cooldownMs);
      }
    }
  }

  ghost predicate FromWorkers(pool: seq<PoolRaw>, workers: nat) {
    forall i :: 0 <= i < |pool| ==> pool[i].key.0 < workers
  }

  lemma {:induction false} FilterKeepsWorkers(pool: seq<PoolRaw>, workers: nat, cooldownMs: int)
    requires FromWorkers(pool, workers)
    ensures FromWorkers(Filter(pool, cooldownMs).handedOn, workers)
  {
    if pool != [] {
      FilterKeepsWorkers(pool[..|pool| - 1], workers, cooldownMs);
    }
  }

  /** Per track, a pool of W workers publishes the sum of what its workers hand on. */
  lemma {:induction false} WindowSplits(out: seq<PoolRaw>, workers: nat, track: int, a: int, b: int)
    requires FromWorkers(out, workers)
    ensures InWindow(TimesOf(ForgetWorkers(out), track), a, b) == SumOfStreams(out, workers, track, a, b)
  {
    if out == [] {
      EmptyStreams(workers, track, a, b);
    } else {
      var n := |out| - 1;
      WindowSplits(out[..n], workers, track, a, b);
      assert out == out[..n] + [out[n]];
      assert ForgetWorkers(out) == ForgetWorkers(out[..n]) + [Raw(out[n].key.1, out[n].ts)];
      TimesOfAppend(ForgetWorkers(out[..n]), Raw(out[n].key.1, out[n].ts), track);
      InWindowAppend(TimesOf(ForgetWorkers(out[..n]), track), out[n].ts, a, b);
      AddToStreams(out[..n], out[n], workers, track, a, b);
    }
  }

  function SumOfStreams(out: seq<PoolRaw>, workers: nat, track: int, a: int, b: int): nat {
    if workers == 0 then 0
    else
      SumOfStreams(out, workers - 1, track, a, b)
      + InWindow(TimesOf(StreamOf(out, workers - 1), track), a, b)
  }

  lemma EmptyStreams(workers: nat, track: int, a: int, b: int)
    ensures SumOfStreams([], workers, track, a, b) == 0
  {
  }

  lemma InWindowAppend(times: seq<int>, t: int, a: int, b: int)
    ensures InWindow(times + [t], a, b) == InWindow(times, a, b) + if a <= t <= b then 1 else 0
  {
    assert (times + [t])[..|times|] == times;
  }

  lemma {:induction false} AddToStreams(out: seq<PoolRaw>, r: PoolRaw, workers: nat, track: int, a: int, b: int)
    ensures SumOfStreams(out + [r], workers, track, a, b)
            == SumOfStreams(out, workers, track, a, b)
               + if r.key.0 < workers && r.key.1 == track && a <= r.ts <= b then 1 else 0
  {
    if workers > 0 {
      AddToStreams(out, r, workers - 1, track, a, b);
      StreamAppend(out, r, workers - 1);
      var mine := StreamOf(out, workers - 1);
      TimesOfAppend(mine, Raw(r.key.1, r.ts), track);
      InWindowAppend(TimesOf(mine, track), r.ts, a, b);
    }
  }

  lemma {:induction false} SumBound(out: seq<PoolRaw>, workers: nat, track: int, a: int, b: int, each: nat)
    requires forall w: nat :: w < workers ==> InWindow(TimesOf(StreamOf(out, w), track), a, b) <= each
    ensures SumOfStreams(out, workers, track, a, b) <= workers * each
  {
    if workers > 0 {
      SumBound(out, workers - 1, track, a, b, each);
      assert (workers - 1) * each + each == workers * each;
    }
  }

  /** Per track, W workers publish at most W times as often as one. */
  lemma PoolWindowBound(pool: seq<PoolRaw>, workers: nat, track: int, cooldownMs: int, a: int, length: nat)
    requires cooldownMs > 0 && FromWorkers(pool, workers)
    ensures InWindow(PublishedTimes(pool, track, cooldownMs), a, a + length)
            <= workers * (length / Gap(cooldownMs) + 1)
  {
    var out := Filter(pool, cooldownMs).handedOn;
    FilterKeepsWorkers(pool, workers, cooldownMs);
    WindowSplits(out, workers, track, a, a + length);
    var each: nat := length / Gap(cooldownMs) + 1;
    forall w: nat | w < workers ensures InWindow(TimesOf(StreamOf(out, w), track), a, a + length) <= each {
      WorkersAreIndependent(pool, w, cooldownMs);
      CooldownBoundsWindows(StreamOf(pool, w), track, cooldownMs, a, length);
    }
    SumBound(out, workers, track, a, a + length, each);
  }

  lemma {:induction false} OneWorkerIsOneFilter(pool: seq<PoolRaw>)
    requires FromWorkers(pool, 1)
    ensures StreamOf(pool, 0) == ForgetWorkers(pool)
  {
    if pool != [] {
      OneWorkerIsOneFilter(pool[..|pool| - 1]);
    }
  }

  lemma OneWorkerSpaces(pool: seq<PoolRaw>, track: int, cooldownMs: int)
    requires cooldownMs > 0 && FromWorkers(pool, 1)
    ensures Spaced(PublishedTimes(pool, track, cooldownMs), Gap(cooldownMs))
  {
    FilterKeepsWorkers(pool, 1, cooldownMs);
    OneWorkerIsOneFilter(Filter(pool, cooldownMs).handedOn);
    WorkersAreIndependent(pool, 0, cooldownMs);
    CooldownSpacesAlerts(StreamOf(pool, 0), track, cooldownMs);
  }

  /** Two workers that see one track at the same moment both hand it on. */
  lemma TwoWorkersAtOnce(track: int, cooldownMs: int) returns (pool: seq<PoolRaw>)
    ensures pool == [Raw((0, track), 0), Raw((1, track), 0)]
    ensures PublishedTimes(pool, track, cooldownMs) == [0, 0]
  {
    var first, second: PoolRaw := Raw((0, track), 0), Raw((1, track), 0);
    pool := [first, second];
    assert pool == [] + [first] + [second];
    FilterAppend([], first, cooldownMs);
    FilterAppend([] + [first], second, cooldownMs);
    assert Filter(pool, cooldownMs).handedOn == pool;
    var raw: Raw<int> := Raw(track, 0);
    assert ForgetWorkers(pool) == [] + [raw] + [raw];
    TimesOfAppend([], raw, track);
    TimesOfAppend([] + [raw], raw, track);
  }

  /** Alerts of one track are the cooldown apart at the publisher for every stream exactly when
      the camera has a single worker: two workers may alert for the same track at once. */
  lemma PublisherSpacingExactly(workers: nat, cooldownMs: int)
    requires cooldownMs > 0
    ensures (forall pool, track :: FromWorkers(pool, workers) ==>
               Spaced(PublishedTimes(pool, track, cooldownMs), Gap(cooldownMs)))
            <==> workers <= 1
  {
    if workers <= 1 {
      forall pool, track | FromWorkers(pool, workers)
        ensures Spaced(PublishedTimes(pool, track, cooldownMs), Gap(cooldownMs))
      {
        OneWorkerSpaces(pool, track, cooldownMs);
      }
    } else {
      var pool := TwoWorkersAtOnce(7, cooldownMs);
      var times := PublishedTimes(pool, 7, cooldownMs);
      assert times[1] - times[0] == 0;
      assert FromWorkers(pool, workers) && !Spaced(times, Gap(cooldownMs));
    }
  }
}
