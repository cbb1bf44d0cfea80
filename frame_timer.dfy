/** The `useFrameTimer` hook as an object: its refs and its two pieces of
    React state become fields, its handlers and its two layout effects become
    methods that the surrounding framework is taken to call in source order,
    and the user callback becomes a log of the arguments it receives. Time is
    the `now` parameter of each method that reads the clock. */
module FrameTimer {
  import opened JsValues
  import opened Elapsed
  import opened FpsHistory

  /** One invocation of the user callback: the `time` record, the `fps` value
      and the `pause` flag it is passed (the two control functions it is also
      passed are the handlers of `Hook`). */
  datatype Event = Callback(time: Time, fps: int, pause: bool)

  class Hook {
    /** The `stopTime` argument; `None` when it is left out. */
    const stopTime: Option<int>

    /** React state as last rendered. */
    var start: bool
    var stop: bool
    /** `pause`, computed at each render from the rendered `start` and the
        `time` ref of that moment. */
    var pause: bool
    /** React state with every queued `setStart`/`setStop` applied; it becomes
        the rendered state at the next render. */
    var nextStart: bool
    var nextStop: bool

    /** `timeRef`. */
    var time: Time
    /** True while `timerRef` holds an animation-frame request that has been
        made and neither run nor been cancelled. */
    var framePending: bool
    /** `timestampRef`, `pauseTimestampRef` and `pauseTimeRef`. */
    var timestamp: Option<int>
    var pauseTimestamp: int
    var pauseTime: int
    /** `fpsRef`: the rate history, newest first. */
    var fps: seq<int>
    /** `lastCalledTimeRef`. */
    var lastCalled: Option<int>

    /** Every callback invocation so far, oldest first. */
    var events: seq<Event>

    /** A frame is only ever requested once the timer has a start timestamp,
        and the rate history never exceeds its capacity. */
    ghost predicate Valid()
      reads this
    {
      (framePending ==> timestamp.Some?) && |fps| <= Capacity
    }

    /** The accounting refs as one value. */
    function Accounts(): Clock
      reads this
    {
      Clock(timestamp, pauseTimestamp, pauseTime)
    }

    /** `stopTime` as the test `!!stopTime` reads it. */
    predicate HasStopTime()
      reads this
      ensures HasStopTime() <==> stopTime.Some? && stopTime.value != 0
    {
      Truthy(stopTime)
    }

    /** The hook's refs and state as the first render creates them. */
    constructor (stopTime: Option<int>)
      ensures Valid() && this.stopTime == stopTime
      ensures !start && !stop && !pause && !nextStart && !nextStop
      ensures time == Zero() && !framePending && Accounts() == Unstarted
      ensures fps == [] && lastCalled == Some(0) && events == []
    {
      this.stopTime := stopTime;
      start, stop, pause := false, false, false;
      nextStart, nextStop := false, false;
      time := Zero();
      framePending := false;
      timestamp, pauseTimestamp, pauseTime := None, 0, 0;
      fps := [];
      lastCalled := Some(0);
      events := [];
    }

    /** A re-render: queued state updates take effect and `pause` is
        recomputed from them. */
    method Render()
      modifies this`start, this`stop, this`pause
      ensures start == nextStart && stop == nextStop
      ensures pause <==> !start && time.ms > 0
    {
      start, stop := nextStart, nextStop;
      pause := !start && time.ms > 0;
    }

    /** `handleReset`: queues both flags to false and puts every ref back to
        its initial value, except that the last call time becomes undefined.
        Its one caller cancels the pending frame first. */
    method HandleReset()
      requires !framePending
      modifies this`nextStart, this`nextStop, this`time, this`pauseTimestamp,
        this`pauseTime, this`timestamp, this`fps, this`lastCalled
      ensures Valid()
      ensures !nextStart && !nextStop
      ensures time == Zero() && Accounts() == Unstarted
      ensures fps == [] && lastCalled == None
    {
      nextStop := false;
      nextStart := false;
      time := Zero();
      pauseTimestamp := 0;
      pauseTime := 0;
      timestamp := None;
      fps := [];
      lastCalled := None;
    }

    /** `handleStart`: queues the rendered `start` flipped; when the timer was
        not started, it also clears the rate history and the last call time,
        so rates measured before a pause do not leak into the new run. */
    method HandleStart()
      requires Valid()
      modifies this`nextStart, this`fps, this`lastCalled
      ensures Valid()
      ensures nextStart == !start
      ensures !start ==> fps == [] && lastCalled == None
      ensures start ==> fps == old(fps) && lastCalled == old(lastCalled)
    {
      nextStart := !start;
      if !start {
        lastCalled := None;
        fps := [];
      }
    }

    /** `handleStop`: queues `stop`, and clears the rate history and the last
        call time. */
    method HandleStop()
      requires Valid()
      modifies this`nextStop, this`fps, this`lastCalled
      ensures Valid()
      ensures nextStop && fps == [] && lastCalled == None
    {
      nextStop := true;
      lastCalled := None;
      fps := [];
    }

    /** The start/stop layout effect at time `now`, preceded by the clean-up
        of its previous run (which cancels the pending frame). While started
        it does the start/resume accounting and requests a frame; otherwise it
        records the pause time. It emits one callback with fps 0 when the
        rendered state is paused and not stopped. When stop is set it cancels
        the frame and resets everything. */
    method CommitStartStop(now: int)
      requires Valid()
      modifies this`framePending, this`timestamp, this`pauseTimestamp, this`pauseTime,
        this`events, this`nextStart, this`nextStop, this`time, this`fps, this`lastCalled
      ensures Valid()
      ensures !stop && pause ==> events == old(events) + [Callback(old(time), 0, true)]
      ensures !(!stop && pause) ==> events == old(events)
      ensures stop ==>
        !framePending && !nextStart && !nextStop && time == Zero() &&
        Accounts() == Unstarted && fps == [] && lastCalled == None
      ensures !stop ==>
        framePending == start && time == old(time) &&
        nextStart == old(nextStart) && nextStop == old(nextStop) &&
        fps == old(fps) && lastCalled == old(lastCalled)
      ensures !stop && start ==> Accounts() == Resume(old(Accounts()), now)
      ensures !stop && !start ==> Accounts() == Suspend(old(Accounts()), now)
    {
      framePending := false;
      if start {
        if !Truthy(timestamp) {
          timestamp := Some(now);
        } else {
          pauseTime := pauseTime + (now - pauseTimestamp);
        }
        framePending := true;
      } else {
        if Truthy(timestamp) {
          pauseTimestamp := now;
        }
      }

      if !stop && pause {
        events := events + [Callback(time, 0, true)];
      }

      if stop {
        framePending := false;
        HandleReset();
      }
    }

    /** The clean-up the start/stop effect leaves behind, run when the
        component unmounts: the pending frame is cancelled. */
    method Unmount()
      requires Valid()
      modifies this`framePending
      ensures Valid() && !framePending
    {
      framePending := false;
    }

    /** `animate`, the frame callback, run at time `now`: the time record
        becomes the decomposition of the elapsed time, and another frame is
        requested unless a stop time is set and has been reached. In that
        case the source also calls the `handleStart` of the first render,
        whose effect on the queued `start`, the rate history and the last
        call time is left unspecified here. */
    method Animate(now: int)
      requires Valid() && framePending
      modifies this`time, this`framePending, this`nextStart, this`fps, this`lastCalled
      ensures Valid()
      ensures time == FromMs(ElapsedMs(Accounts(), now))
      ensures !framePending <==> HasStopTime() && ElapsedMs(Accounts(), now) >= stopTime.value
      ensures framePending ==>
        nextStart == old(nextStart) && fps == old(fps) && lastCalled == old(lastCalled)
    {
      var msTime := now - timestamp.value - pauseTime;
      time := FromMs(msTime);
      if HasStopTime() && msTime >= stopTime.value {
        framePending := false;
      } else {
        framePending := true;
      }
    }

    /** The frame-rate layout effect at time `now`, `sample` standing for the
        rounded `1 / delta` of this call. A sample is pushed only when a
        truthy previous call time exists; the call time is then recorded. The
        callback fires unless the timer is paused (`!start` with a positive
        elapsed time) or stopped, with the rate chosen from the history. */
    method RecordFrame(now: int, sample: int)
      requires Valid()
      modifies this`fps, this`lastCalled, this`events
      ensures Valid()
      ensures Truthy(old(lastCalled)) ==> fps == Push(old(fps), sample)
      ensures !Truthy(old(lastCalled)) ==> fps == old(fps)
      ensures lastCalled == Some(now)
      ensures FrameCallbackFires(start, stop, time.ms) ==>
        events == old(events) + [Callback(time, FpsToReport(start, stop, fps), pause)]
      ensures !FrameCallbackFires(start, stop, time.ms) ==> events == old(events)
    {
      if Truthy(lastCalled) {
        if |fps| > 5 {
          fps := fps[..5];
        }
        fps := [sample] + fps;
      }
      lastCalled := Some(now);

      if !((!start && time.ms > 0) || stop) {
        events := events + [Callback(time, FpsToReport(start, stop, fps), pause)];
      }
    }
  }

  /** When the frame-rate effect calls back: unless the timer is paused
      (not started, with time on the clock) or stopped; that is, exactly
      when it is idle or running. */
  predicate FrameCallbackFires(start: bool, stop: bool, ms: int)
    ensures FrameCallbackFires(start, stop, ms) <==>
      PhaseOf(start, stop, ms) == Idle || PhaseOf(start, stop, ms) == Running
  {
    !((!start && ms > 0) || stop)
  }

  /** The phase of the timer, derived from the two flags and the time on the
      clock. */
  datatype Phase = Idle | Running | Paused | Stopped

  function PhaseOf(start: bool, stop: bool, ms: int): Phase
  {
    if stop then Stopped
    else if start then Running
    else if ms > 0 then Paused
    else Idle
  }

  /** The other callback gates in terms of the phase: the start/stop
      effect's extra callback fires exactly when paused, and a non-zero rate
      is reported only while running with a full history. */
  lemma CallbackGatesFollowPhase(start: bool, stop: bool, ms: int, h: seq<int>)
    ensures !stop && (!start && ms > 0) <==> PhaseOf(start, stop, ms) == Paused
    ensures FpsToReport(start, stop, h) != 0 ==>
      PhaseOf(start, stop, ms) == Running && |h| == Capacity
  {
  }
}
