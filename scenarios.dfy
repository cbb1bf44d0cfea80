/** Client runs through the hook in the order React drives it: after every
    render that changes `start` or `stop` both layout effects run, the
    start/stop effect first; after a frame whose elapsed time changes the
    `clock` state, the re-render runs the frame-rate effect. Every frame-rate
    sample is 60. What the runs assert follows from the contracts of
    `FrameTimer.Hook` alone. */
module Scenarios {
  import opened JsValues
  import opened Elapsed
  import opened FrameTimer

  /** Mount at 5: both effects run once; the frame-rate effect pushes no
      sample (the last call time starts as 0) and calls back idle. */
  method MountedHook() returns (hook: Hook)
    ensures fresh(hook) && hook.Valid()
    ensures !hook.start && !hook.stop && !hook.pause && !hook.nextStart && !hook.nextStop
    ensures !hook.framePending && hook.Accounts() == Unstarted && hook.time == Zero()
    ensures hook.fps == [] && hook.lastCalled == Some(5) && hook.stopTime == None
    ensures hook.events == [Callback(Zero(), 0, false)]
  {
    hook := new Hook(None);
    hook.CommitStartStop(5);
    hook.RecordFrame(5, 60);
  }

  /** Start at 1000: the start clears the history and the last call time,
      the start time is recorded, a frame is requested, and the frame-rate
      effect pushes nothing and calls back with fps 0. */
  method StartedHook() returns (hook: Hook)
    ensures fresh(hook) && hook.Valid()
    ensures hook.start && !hook.stop && !hook.pause && hook.nextStart && !hook.nextStop
    ensures hook.framePending && hook.Accounts() == Clock(Some(1000), 0, 0)
    ensures hook.time == Zero() && hook.stopTime == None
    ensures hook.fps == [] && hook.lastCalled == Some(1000)
    ensures |hook.events| == 2 && hook.events[1] == Callback(Zero(), 0, false)
  {
    hook := MountedHook();
    hook.HandleStart();
    hook.Render();
    hook.CommitStartStop(1000);
    hook.RecordFrame(1000, 60);
  }

  /** A frame at 2000 shows one second; the re-render's frame-rate effect
      pushes the first sample and calls back with fps 0, the history not
      being full. */
  method RunningHook() returns (hook: Hook)
    ensures fresh(hook) && hook.Valid()
    ensures hook.start && !hook.stop && !hook.pause && hook.nextStart && !hook.nextStop
    ensures hook.framePending && hook.Accounts() == Clock(Some(1000), 0, 0)
    ensures hook.time.ms == 1000 && hook.time.s == 1 && hook.stopTime == None
    ensures hook.fps == [60] && hook.lastCalled == Some(2000)
    ensures |hook.events| == 3 && hook.events[2] == Callback(hook.time, 0, false)
  {
    hook := StartedHook();
    hook.Animate(2000);
    hook.Render();
    hook.RecordFrame(2000, 60);
  }

  /** Pause at 2500: the frame is cancelled, the pause time recorded, the
      start/stop effect calls back once with fps 0 and `pause` set, and the
      frame-rate effect pushes its sample but stays silent. */
  method PausedHook() returns (hook: Hook)
    ensures fresh(hook) && hook.Valid()
    ensures !hook.start && !hook.stop && hook.pause && !hook.nextStart && !hook.nextStop
    ensures !hook.framePending && hook.Accounts() == Clock(Some(1000), 2500, 0)
    ensures hook.time.ms == 1000 && hook.stopTime == None
    ensures hook.fps == [60, 60] && hook.lastCalled == Some(2500)
    ensures |hook.events| == 4 && hook.events[3] == Callback(hook.time, 0, true)
  {
    hook := RunningHook();
    hook.HandleStart();
    hook.Render();
    hook.CommitStartStop(2500);
    hook.RecordFrame(2500, 60);
  }

  /** Resume at 5000 and take a frame at 5500: the history is cleared by the
      resume, and the time shows the 1500 ms run before the pause plus the
      500 ms since the resume; the 2500 paused milliseconds do not count. */
  method ResumeScenario()
  {
    var hook := PausedHook();
    hook.HandleStart();
    hook.Render();
    hook.CommitStartStop(5000);
    assert hook.Accounts() == Resume(Clock(Some(1000), 2500, 0), 5000);
    assert ElapsedMs(hook.Accounts(), 5000) == 1500;
    hook.RecordFrame(5000, 60);
    assert hook.fps == [] && hook.framePending;
    hook.Animate(5500);
    assert hook.time.ms == 2000;
  }

  /** Stop a running timer at 3000. The commit that renders `stop` resets
      everything, with both flags queued false; its frame-rate effect records
      the call time but is silent. */
  method StoppedHook() returns (hook: Hook)
    ensures fresh(hook) && hook.Valid()
    ensures hook.stop && !hook.nextStart && !hook.nextStop
    ensures hook.time == Zero() && hook.Accounts() == Unstarted && !hook.framePending
    ensures hook.fps == [] && hook.lastCalled == Some(3000) && hook.stopTime == None
    ensures |hook.events| == 3
  {
    hook := RunningHook();
    hook.HandleStop();
    hook.Render();
    hook.CommitStartStop(3000);
    hook.RecordFrame(3000, 60);
  }

  /** The reset's re-render (at 3001) runs both effects again with both
      flags false: the stopwatch stays reset, the frame-rate effect pushes
      one sample, since the call time was recorded, and calls back idle with
      the zero time. */
  method StopSettlesScenario()
  {
    var hook := StoppedHook();
    hook.Render();
    assert !hook.start && !hook.stop && !hook.pause;
    hook.CommitStartStop(3001);
    hook.RecordFrame(3001, 60);
    assert hook.time == Zero() && hook.Accounts() == Unstarted && !hook.framePending;
    assert hook.fps == [60] && hook.lastCalled == Some(3001);
    assert |hook.events| == 4 && hook.events[3] == Callback(Zero(), 0, false);
  }
}
