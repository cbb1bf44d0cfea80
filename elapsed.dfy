/** Elapsed-time accounting of the frame timer: the `time` record handed to the
    callback, its decomposition from a millisecond count, and the start / pause
    bookkeeping that keeps paused intervals out of the elapsed time. */
module Elapsed {
  import opened JsValues

  /** The `time` record: a millisecond count and the TOTAL number of whole
      seconds, minutes, hours and days in it (not the remainders of a clock
      face). */
  datatype Time = Time(ms: int, s: int, m: int, h: int, d: int)

  /** `timeDefault`: the record before any frame has been timed, which is
      the record of zero milliseconds. */
  function Zero(): (t: Time)
    ensures t == FromMs(0)
  {
    Time(0, 0, 0, 0, 0)
  }

  /** The record built from `ms`: a second is 1000 ms, a minute 60000, an
      hour 3600000 and a day 86400000. Each component is `Math.floor` of a
      chain of divisions; for a positive divisor Dafny's `/` on `int` is floor division,
      so the chain is written as the source writes it. Each component is then
      the whole number of its unit contained in `ms`. */
  function FromMs(ms: int): (t: Time)
    ensures t.ms == ms
    ensures t.s * 1000 <= ms < t.s * 1000 + 1000
    ensures t.m * 60000 <= ms < t.m * 60000 + 60000
    ensures t.h * 3600000 <= ms < t.h * 3600000 + 3600000
    ensures t.d * 86400000 <= ms < t.d * 86400000 + 86400000
    ensures ms >= 0 ==> 0 <= t.d <= t.h <= t.m <= t.s <= ms
  {
    var s := ms / 1000;
    var m := ms / 1000 / 60;
    var h := ms / 1000 / 3600;
    var d := ms / 1000 / 3600 / 24;
    Time(ms, s, m, h, d)
  }

  /** A later (larger) millisecond count never shows fewer seconds, minutes,
      hours or days: the record the callback sees does not go backwards while
      the timer runs. */
  lemma FromMsMonotone(a: int, b: int)
    requires a <= b
    ensures FromMs(a).s <= FromMs(b).s && FromMs(a).m <= FromMs(b).m
    ensures FromMs(a).h <= FromMs(b).h && FromMs(a).d <= FromMs(b).d
  {
  }

  /** The three refs that do the elapsed-time accounting: `timestampRef` (time
      of the first start, possibly undefined), `pauseTimestampRef` (time of the
      latest pause) and `pauseTimeRef` (total time spent paused). */
  datatype Clock = Clock(timestamp: Option<int>, pauseTimestamp: int, pauseTime: int)

  /** The accounting refs as the hook creates them, and as reset leaves them. */
  const Unstarted: Clock := Clock(None, 0, 0)

  /** `msTime`: the time elapsed at `now` since the first start, less the time
      spent paused. */
  function ElapsedMs(c: Clock, now: int): (r: int)
    requires c.timestamp.Some?
    ensures c.timestamp.value + c.pauseTime + r == now
  {
    now - c.timestamp.value - c.pauseTime
  }

  /** The start/stop effect when `start` is true. The first start (no truthy
      start timestamp) records `now`; a later resume adds the length of the
      pause that ends at `now` to the paused total, so the elapsed time
      carries on from the value it had when the pause began. */
  function Resume(c: Clock, now: int): (r: Clock)
    ensures !Truthy(c.timestamp) ==> r == c.(timestamp := Some(now))
    ensures Truthy(c.timestamp) ==>
      r.timestamp == c.timestamp && r.pauseTimestamp == c.pauseTimestamp &&
      ElapsedMs(r, now) == ElapsedMs(c, c.pauseTimestamp)
  {
    if !Truthy(c.timestamp) then
      c.(timestamp := Some(now))
    else
      c.(pauseTime := c.pauseTime + (now - c.pauseTimestamp))
  }

  /** The start/stop effect when `start` is false: once the timer has a truthy
      start timestamp, the time of this pause is recorded; before that,
      nothing changes. */
  function Suspend(c: Clock, now: int): (r: Clock)
    ensures Truthy(c.timestamp) ==> r == c.(pauseTimestamp := now)
    ensures !Truthy(c.timestamp) ==> r == c
  {
    if Truthy(c.timestamp) then c.(pauseTimestamp := now) else c
  }

  /** The accounting refs after the effect has run at each time of `toggles`,
      alternately with `start` true (even positions: start, resume) and false
      (odd positions: pause). */
  function RunClock(toggles: seq<int>): Clock
  {
    if toggles == [] then Unstarted
    else
      var c := RunClock(toggles[..|toggles| - 1]);
      var now := toggles[|toggles| - 1];
      if |toggles| % 2 == 1 then Resume(c, now) else Suspend(c, now)
  }

  /** Reference definition: the total time spent running up to `now`, when the
      timer was started at `toggles[0]`, paused at `toggles[1]`, resumed at
      `toggles[2]`, and so on. An odd-length trace is still running at `now`. */
  function RunningTime(toggles: seq<int>, now: int): int
  {
    if |toggles| == 0 then 0
    else if |toggles| == 1 then now - toggles[0]
    else (toggles[1] - toggles[0]) + RunningTime(toggles[2..], now)
  }

  /** Appending one toggle to a running trace closes its open interval at
      that time; appending one to a paused trace opens a new interval. */
  lemma {:induction false} RunningTimeSnoc(toggles: seq<int>, x: int, now: int)
    ensures |toggles| % 2 == 1 ==> RunningTime(toggles + [x], now) == RunningTime(toggles, x)
    ensures |toggles| % 2 == 0 ==>
      RunningTime(toggles + [x], now) == RunningTime(toggles, now) + (now - x)
  {
    if |toggles| >= 2 {
      assert (toggles + [x])[2..] == toggles[2..] + [x];
      RunningTimeSnoc(toggles[2..], x, now);
    }
  }

  /** Paused intervals are excluded from the elapsed time: after any
      alternation of starts and pauses beginning at a positive time, the
      elapsed time the hook computes while running equals the total running
      time of the reference definition; while paused, the elapsed time at the
      moment of the pause equals it. */
  lemma {:induction false} ElapsedExcludesPauses(toggles: seq<int>, now: int)
    requires |toggles| > 0 && toggles[0] > 0
    ensures RunClock(toggles).timestamp == Some(toggles[0])
    ensures |toggles| % 2 == 1 ==> ElapsedMs(RunClock(toggles), now) == RunningTime(toggles, now)
    ensures |toggles| % 2 == 0 ==>
      RunClock(toggles).pauseTimestamp == toggles[|toggles| - 1] &&
      ElapsedMs(RunClock(toggles), toggles[|toggles| - 1]) == RunningTime(toggles, now)
  {
    var init := toggles[..|toggles| - 1];
    var last := toggles[|toggles| - 1];
    assert toggles == init + [last];
    if |init| == 0 {
      assert RunClock(init) == Unstarted;
    } else {
      assert init[0] == toggles[0];
      RunningTimeSnoc(init, last, now);
      if |toggles| % 2 == 1 {
        ElapsedExcludesPauses(init, now);
      } else {
        ElapsedExcludesPauses(init, last);
      }
    }
  }
}
