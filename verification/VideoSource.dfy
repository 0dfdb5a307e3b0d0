/** The two video sources: frame numbering across reconnects, and the pacing of a file. */
module VideoSource {
  import opened Arithmetic
  import opened Domain
  import opened Geometry
  import opened Wrappers

  const NS_PER_MS := 1_000_000

  /** Frames leave a source numbered 1, 2, 3, ... */
  ghost predicate Numbered(frames: seq<Frame>) {
    forall i :: 0 <= i < |frames| ==> frames[i].sequence == i + 1
  }

  class RtspCameraSource {
    var isOpen: bool
    var sequence: nat
    ghost var produced: seq<Frame>

    ghost predicate Valid()
      reads this
    {
      |produced| == sequence && Numbered(produced)
    }

    constructor ()
      ensures Valid() && !isOpen && produced == []
    {
      isOpen, sequence, produced := false, 0, [];
    }

    /** `connected` is whether the capture device could be opened. */
    method Open(connected: bool) returns (ok: bool)
      requires Valid()
      modifies this`isOpen
      ensures Valid() && ok == isOpen == connected
    {
      isOpen := connected;
      ok := isOpen;
    }

    method Close()
      requires Valid()
      modifies this`isOpen
      ensures Valid() && !isOpen
    {
      if isOpen {
        isOpen := false;
      }
    }

    /** `decoded` is whether the device delivers a non-empty image. */
    method ReadFrame(decoded: bool) returns (frame: Option<Frame>)
      requires Valid()
      modifies this`sequence, this`produced
      ensures Valid()
      ensures frame.Some? <==> isOpen && decoded
      ensures frame.Some? ==> !frame.value.empty && frame.value.sequence == old(sequence) + 1
      ensures produced == match frame case None => old(produced) case Some(f) => old(produced) + [f]
    {
      if !isOpen || !decoded {
        return None;
      }
      sequence := sequence + 1;
      var f := Frame(sequence, false);
      produced := produced + [f];
      return Some(f);
    }
  }

  // ── Pacing a file ───────────────────────────────────────────────────────────

  /** What the container reports as its frame rate. */
  datatype Fps = NotANumber | PlusInfinity | MinusInfinity | Finite(value: real)

  function GuardedFps(reported: Fps): real {
    if reported.Finite? && reported.value > 0.0 && !(reported.value > 240.0) then reported.value else 25.0
  }

  /** The frame interval in whole milliseconds, truncated. */
  function IntervalMs(reported: Fps): int {
    (1000.0 / GuardedFps(reported)).Floor
  }

  lemma QuotientOrder(a: real, b: real, c: real)
    requires a > 0.0 && 0.0 < b <= c
    ensures a / b >= a / c
  {
    var p := QuotientTimes(a, b);
    var q := QuotientTimes(a, c);
    Unscale(0.0, q, c);
    ScaleAtMost(b, c, q);
    Unscale(q, p, b);
  }

  /** Whatever the file claims, frames are at least 4 ms apart, and less than 1 ms is lost. */
  lemma FpsGuardKeepsInterval(reported: Fps)
    ensures IntervalMs(reported) >= 4
    ensures IntervalMs(reported) as real <= 1000.0 / GuardedFps(reported) < IntervalMs(reported) as real + 1.0
  {
    QuotientOrder(1000.0, GuardedFps(reported), 240.0);
  }

  predicate Plausible(reported: Fps) {
    reported.Finite? && 0.0 < reported.value <= 240.0
  }

  /** A plausible rate is kept: the interval is its period in whole milliseconds.  Anything else
      counts as 25 frames a second. */
  lemma IntervalOfRate(reported: Fps)
    ensures Plausible(reported) ==>
              IntervalMs(reported) as real <= 1000.0 / reported.value < IntervalMs(reported) as real + 1.0
    ensures !Plausible(reported) ==> IntervalMs(reported) == 40
  {
    FpsGuardKeepsInterval(reported);
  }

  /** The first number past the range of the 64-bit integer the interval is cast to. */
  const LONG_END := 0x8000_0000_0000_0000

  lemma FloorBelow(q: real, n: int)
    ensures q.Floor < n <==> q < n as real
  {
  }

  /** The cast is in range exactly for rates above 1000 / 2^63 frames a second. */
  lemma IntervalFitsExactly(reported: Fps)
    ensures IntervalMs(reported) < LONG_END <==> LONG_END as real * GuardedFps(reported) > 1000.0
  {
    var fps := GuardedFps(reported);
    var q := QuotientTimes(1000.0, fps);
    FloorBelow(q, LONG_END);
    if q < LONG_END as real {
      ScaleLess(q, LONG_END as real, fps);
    } else {
      ScaleAtMost(LONG_END as real, q, fps);
    }
  }

  /** One call of pace(): the clock read on entry, and the clock when a sleep, if any, ends. */
  datatype Pacing = Pacing(now: int, wake: int)

  function ReleaseAt(next: int, p: Pacing): int {
    if p.now < next then p.wake else p.now
  }

  function NextAfter(next: int, interval: int, p: Pacing): int {
    if p.now < next then next + interval else p.now + interval
  }

  /** A sleep ends no earlier than asked and at most `overshoot` late. */
  predicate SleepsWell(next: int, p: Pacing, overshoot: nat) {
    p.now < next ==> next <= p.wake <= next + overshoot
  }

  function Schedule(next: int, interval: int, calls: seq<Pacing>): int {
    if calls == [] then next
    else NextAfter(Schedule(next, interval, calls[..|calls| - 1]), interval, calls[|calls| - 1])
  }

  /** When the i-th call of pace() since the last open() returned. */
  function Release(next: int, interval: int, calls: seq<Pacing>, i: nat): int
    requires i < |calls|
  {
    ReleaseAt(Schedule(next, interval, calls[..i]), calls[i])
  }

  ghost predicate AllSleepWell(next: int, interval: int, calls: seq<Pacing>, overshoot: nat) {
    forall i :: 0 <= i < |calls| ==> SleepsWell(Schedule(next, interval, calls[..i]), calls[i], overshoot)
  }

  lemma ScheduleStep(next: int, interval: int, calls: seq<Pacing>, i: nat)
    requires i < |calls|
    ensures Schedule(next, interval, calls[..i + 1]) == NextAfter(Schedule(next, interval, calls[..i]), interval, calls[i])
  {
    assert calls[..i + 1][..i] == calls[..i];
  }

  lemma {:induction false} ScheduleAdvances(next: int, interval: int, calls: seq<Pacing>, i: nat, j: nat, k: nat)
    requires interval >= 0 && i + k == j <= |calls|
    ensures Schedule(next, interval, calls[..j]) >= Schedule(next, interval, calls[..i]) + k * interval
  {
    if k > 0 {
      ScheduleAdvances(next, interval, calls, i, j - 1, k - 1);
      ScheduleStep(next, interval, calls, j - 1);
      OneMore(k, interval);
    }
  }

  /** A frame leaves no earlier than its schedule, and no later than the overshoot allows. */
  lemma ReleaseMeetsSchedule(next: int, interval: int, calls: seq<Pacing>, overshoot: nat, i: nat)
    requires AllSleepWell(next, interval, calls, overshoot) && i < |calls|
    ensures Release(next, interval, calls, i) >= Schedule(next, interval, calls[..i])
    ensures Release(next, interval, calls, i) <= Schedule(next, interval, calls[..i + 1]) - interval + overshoot
  {
    assert SleepsWell(Schedule(next, interval, calls[..i]), calls[i], overshoot);
    ScheduleStep(next, interval, calls, i);
  }

  lemma ReleasesApart(next: int, interval: int, calls: seq<Pacing>, overshoot: nat, i: nat, j: nat, span: int)
    requires AllSleepWell(next, interval, calls, overshoot) && i < j < |calls|
    requires Schedule(next, interval, calls[..j]) >= Schedule(next, interval, calls[..i + 1]) + span
    ensures Release(next, interval, calls, j) - Release(next, interval, calls, i) >= span + interval - overshoot
  {
    ReleaseMeetsSchedule(next, interval, calls, overshoot, i);
    ReleaseMeetsSchedule(next, interval, calls, overshoot, j);
  }

  /** No catch-up burst: if sleeps overshoot by at most d, any k + 1 consecutive releases span
      at least k intervals less d, however far behind the consumer fell. */
  lemma PacingBound(next: int, interval: int, calls: seq<Pacing>, overshoot: nat, i: nat, k: nat)
    requires interval >= 0 && AllSleepWell(next, interval, calls, overshoot)
    requires i + k < |calls|
    ensures Release(next, interval, calls, i + k) - Release(next, interval, calls, i) >= k * interval - overshoot
  {
    if k == 0 {
      assert k * interval == 0;
    } else {
      var j, span := i + k, (k - 1) * interval;
      assert Schedule(next, interval, calls[..j]) >= Schedule(next, interval, calls[..i + 1]) + span by {
        ScheduleAdvances(next, interval, calls, i + 1, j, k - 1);
      }
      ReleasesApart(next, interval, calls, overshoot, i, j, span);
      OneMore(k, interval);
    }
  }

  lemma {:induction false} OnTimeSchedule(next: int, interval: int, calls: seq<Pacing>, i: nat)
    requires i <= |calls|
    requires forall k {:trigger calls[k]} :: 0 <= k < i ==> calls[k].now < next + k * interval
    ensures Schedule(next, interval, calls[..i]) == next + i * interval
  {
    if i == 0 {
      assert i * interval == 0;
    } else {
      OnTimeSchedule(next, interval, calls, i - 1);
      ScheduleStep(next, interval, calls, i - 1);
      OneMore(i, interval);
    }
  }

  /** No drift: as long as every call comes before its frame is due, the k-th frame leaves k
      intervals after the first was due, late by no more than one overshoot. */
  lemma OnTimeReleases(next: int, interval: int, calls: seq<Pacing>, overshoot: nat, i: nat)
    requires AllSleepWell(next, interval, calls, overshoot) && i < |calls|
    requires forall k {:trigger calls[k]} :: 0 <= k <= i ==> calls[k].now < next + k * interval
    ensures next + i * interval <= Release(next, interval, calls, i) <= next + i * interval + overshoot
  {
    OnTimeSchedule(next, interval, calls, i);
    assert SleepsWell(Schedule(next, interval, calls[..i]), calls[i], overshoot);
  }

  /** A frame that is due or overdue leaves at once, and the next is due one interval later. */
  lemma LateCallRestarts(next: int, interval: int, calls: seq<Pacing>, i: nat)
    requires i < |calls| && calls[i].now >= Schedule(next, interval, calls[..i])
    ensures Release(next, interval, calls, i) == calls[i].now
    ensures Schedule(next, interval, calls[..i + 1]) == calls[i].now + interval
  {
    ScheduleStep(next, interval, calls, i);
  }

  class VideoFileSource {
    const loop: bool
    const realtimePacing: bool
    var isOpen: bool
    var sequence: nat
    var frameIntervalMs: int
    var nextFrameAt: int

    ghost var produced: seq<Frame>
    ghost var openedAt: int
    ghost var calls: seq<Pacing>     // paced calls since the last open()
    ghost var releases: seq<int>     // when each of them returned

    ghost predicate Valid()
      reads this
    {
      && |produced| == sequence && Numbered(produced)
      && (frameIntervalMs == 0 || frameIntervalMs >= 4)
      && nextFrameAt == Schedule(openedAt, frameIntervalMs * NS_PER_MS, calls)
      && |releases| == |calls|
      && forall i :: 0 <= i < |calls| ==> releases[i] == Release(openedAt, frameIntervalMs * NS_PER_MS, calls, i)
    }

    constructor (loop: bool, realtimePacing: bool)
      ensures Valid() && !isOpen && produced == [] && this.loop == loop && this.realtimePacing == realtimePacing
    {
      this.loop, this.realtimePacing := loop, realtimePacing;
      isOpen, sequence, frameIntervalMs, nextFrameAt := false, 0, 0, 0;
      produced, openedAt, calls, releases := [], 0, [], [];
    }

    method Open(found: bool, reported: Fps, now: int) returns (ok: bool)
      requires Valid()
      modifies this`isOpen, this`frameIntervalMs, this`nextFrameAt, this`openedAt, this`calls, this`releases
      ensures Valid() && ok == isOpen == found
      ensures found ==> frameIntervalMs == IntervalMs(reported) && openedAt == now && calls == []
      ensures !found ==> frameIntervalMs == old(frameIntervalMs) && nextFrameAt == old(nextFrameAt)
    {
      isOpen := found;
      if !found {
        return false;
      }
      FpsGuardKeepsInterval(reported);
      frameIntervalMs, nextFrameAt := IntervalMs(reported), now;
      openedAt, calls, releases := now, [], [];
      return true;
    }

    method Close()
      requires Valid()
      modifies this`isOpen
      ensures Valid() && !isOpen
    {
      if isOpen {
        isOpen := false;
      }
    }

    method Pace(now: int, wake: int) returns (release: int)
      requires Valid()
      modifies this`nextFrameAt, this`calls, this`releases
      ensures Valid()
      ensures !realtimePacing || frameIntervalMs == 0 ==>
                release == now && calls == old(calls) && releases == old(releases)
      ensures realtimePacing && frameIntervalMs > 0 ==>
                && calls == old(calls) + [Pacing(now, wake)]
                && releases == old(releases) + [release]
                && release == (if now < old(nextFrameAt) then wake else now)
                && nextFrameAt == (if now < old(nextFrameAt) then old(nextFrameAt) else now) + frameIntervalMs * 1_000_000
    {
      if !realtimePacing || frameIntervalMs <= 0 {
        return now;
      }
      ghost var before := calls;
      calls := calls + [Pacing(now, wake)];
      assert calls[..|before|] == before;
      assert forall i :: 0 <= i < |before| ==> calls[..i] == before[..i];
      if now < nextFrameAt {
        release := wake;
        nextFrameAt := nextFrameAt + frameIntervalMs * NS_PER_MS;
      } else {
        release := now;
        nextFrameAt := now + frameIntervalMs * NS_PER_MS;
      }
      releases := releases + [release];
    }

    /** `decoded` is whether the next image could be read, `rewound` whether the first one
        could be after going back to the start. */
    method ReadFrame(now: int, wake: int, decoded: bool, rewound: bool) returns (frame: Option<Frame>)
      requires Valid()
      modifies this`sequence, this`produced, this`nextFrameAt, this`calls, this`releases
      ensures Valid()
      ensures frame.Some? <==> isOpen && (decoded || (loop && rewound))
      ensures frame.Some? ==> !frame.value.empty && frame.value.sequence == old(sequence) + 1
      ensures produced == match frame case None => old(produced) case Some(f) => old(produced) + [f]
      ensures calls == if isOpen && realtimePacing && frameIntervalMs > 0 then old(calls) + [Pacing(now, wake)]
                       else old(calls)
    {
      if !isOpen {
        return None;
      }
      var _ := Pace(now, wake);
      if !decoded {
        if !loop || !rewound {
          return None;
        }
      }
      sequence := sequence + 1;
      var f := Frame(sequence, false);
      produced := produced + [f];
      return Some(f);
    }
  }
}
