# frame-timer-hook, modelled in Dafny

`useFrameTimer(cb, minFps, stopTime)` (`src/index.js`) is a React hook that
drives a user callback once per animation frame. It passes the elapsed time,
a frame rate and a pause flag, and it exposes start/pause and stop controls.
This project models the logic inside the hook's framework glue:

- **Stopwatch accounting** (`Elapsed`). The first start records a start
  timestamp. Each pause records a pause timestamp. Each resume adds the
  length of that pause to a paused total. The elapsed time is
  `now - start - pausedTotal`.
- **Decomposition** (`Elapsed.FromMs`). A millisecond count becomes the total
  whole seconds, minutes, hours and days it contains. These are floor
  divisions, not remainders.
- **Frame-rate history** (`FpsHistory`). Samples go in at the front, and the
  list is cut to 5 before each insert, so it holds at most 6. A rate is
  reported only while started, not stopped and with exactly 6 samples. It is
  then the largest of the 3 newest.
- **The hook itself** (`FrameTimer.Hook`). This class holds the refs, the two
  state flags and the callback log. Its methods are the three handlers, the
  two layout effects, the frame callback `animate`, and a `Render` step that
  applies queued state updates.

- **Client runs** (`Scenarios`). These cover mount, start, one frame,
  pause, resume and stop. They call the methods in the order React runs
  them:
  - after a render that changes `start` or `stop`, both effects run, the
    start/stop effect first;
  - after a frame that changes the `clock` state, the re-render runs the
    frame-rate effect.

  They assert only what follows from `Hook`'s contracts.

Time is a parameter `now` of every operation that reads the clock. Each
frame-rate sample is an opaque integer. Callback invocations are appended to
`Hook.events`.

Modelling choices:
- React state is split into the flags as last rendered (`start`, `stop`,
  `pause`) and the flags with queued updates applied (`nextStart`,
  `nextStop`). This is how the source behaves:
  - `setStart(!start)` reads the rendered flag.
  - The frame-rate effect that runs in the same commit as a reset still sees
    `stop` as true.
- JavaScript truthiness is kept exactly. A ref holding `undefined` is `None`.
  A ref holding `0` also reads as unset. `lastCalledTimeRef` starts as 0, so
  the first frame-rate effect after mount pushes no sample.
- `framePending` stands for the request handle in `timerRef`. The start/stop
  effect first cancels the previous request, which is the clean-up of its
  previous run.

Notes on the code:
- The history holds up to 6 samples. The code cuts it to 5 and then
  inserts.
- The code does not guard against a zero delta: `1 / 0` becomes a sample
  like any other. Samples are opaque here.
- Six samples need seven frame-rate effects after a clear. The first effect
  only records the call time.

## Model

| member | source | states |
|---|---|---|
| `JsValues.Truthy` | src/index.js:80 | a number-or-undefined ref reads as set exactly when it is neither `undefined` nor 0 (the same test is at lines 89 and 110) |
| `Elapsed.Zero` | src/index.js:3-9 | `timeDefault` is the record of zero milliseconds |
| `Elapsed.ElapsedMs` | src/index.js:57-58 | the time since the first start splits into the paused total and the elapsed time |
| `Elapsed.FromMs` | src/index.js:59-67 | the record keeps `ms`; `s`, `m`, `h`, `d` are the whole numbers of seconds, minutes, hours, days in `ms` (bounded above and below by the unit); for `ms >= 0`, `0 <= d <= h <= m <= s <= ms` |
| `Elapsed.FromMsMonotone` | src/index.js:59-67 | a larger millisecond count never gives fewer seconds, minutes, hours or days |
| `Elapsed.Resume` | src/index.js:79-86 | with no truthy start timestamp the effect records `now` as the start; otherwise the elapsed time at `now` after the resume equals the elapsed time at the moment of the pause |
| `Elapsed.Suspend` | src/index.js:88-91 | once started, a pause records its time and changes nothing else; before the first start nothing changes |
| `Elapsed.ElapsedExcludesPauses` | src/index.js:57-91 | after any alternation of starts and pauses from a positive first start, the start timestamp is the first start time and the elapsed time equals the total running time of the reference definition (at `now` while running, at the pause moment while paused) |
| `FpsHistory.Push` | src/index.js:112-117 | after one update the history is the newest 6 of `sample` followed by the old history: at most 6 entries, `sample` at index 0, then the old first up to 5 entries in order |
| `FpsHistory.PushAllKeepsNewest` | src/index.js:110-119 | after any run of samples the history is exactly the newest 6 of those samples and the earlier entries, newest first |
| `FpsHistory.SeqMax` | src/index.js:128 | `Math.max` over a non-empty list returns one of its entries and no entry exceeds it |
| `FpsHistory.FpsToReport` | src/index.js:124-129 | the reported rate is 0 unless started, not stopped and the history holds exactly 6; then it is one of the 3 newest samples and at least each of them |
| `FpsHistory.HistoryAfterClear` | src/index.js:110-119 | after a clear, the history is the newest (at most 6) samples, newest first |
| `FpsHistory.HistoryFullAfterSix` | src/index.js:110-129 | after a clear, the history is full if and only if at least 6 samples have arrived, and until then the running timer reports 0 |
| `FpsHistory.NewestThree` | src/index.js:110-119 | with at least 6 samples since a clear, the history is full and its first three entries are the last three samples, newest first |
| `FpsHistory.FullHistoryReport` | src/index.js:124-129 | with a full history, the running timer reports one of the three newest entries, and none of them exceeds it |
| `FpsHistory.FpsAfterClear` | src/index.js:110-129 | from the sixth sample after a clear on, the running timer reports the largest of the three newest samples |
| `FpsHistory.SteadyRate` | src/index.js:110-129 | with 6 or more samples all at one rate, the reported rate is that rate |
| `FrameTimer.FrameCallbackFires` | src/index.js:121 | the frame-rate effect calls back exactly when the phase is idle or running: not paused (not started with time on the clock) and not stopped |
| `FrameTimer.CallbackGatesFollowPhase` | src/index.js:94-129 | the start/stop effect's extra callback (line 94) fires exactly when paused; a non-zero rate (lines 124-129) implies running with a full history |
| `FrameTimer.Hook.HasStopTime` | src/index.js:71 | `!!stopTime` holds exactly when a stop time is given and is not 0 |
| `FrameTimer.Hook.constructor` | src/index.js:3-21 | both flags false, `time` is the all-zero record, accounting refs unset or zero, empty history, last call time 0, no frame pending, empty callback log |
| `FrameTimer.Hook.Render` | src/index.js:48 | the queued flags become the rendered ones and `pause` holds exactly when not started with a positive `time.ms` |
| `FrameTimer.Hook.HandleReset` | src/index.js:23-32 | both flags queued false; `time` all zero; start timestamp unset; pause timestamp and paused total 0; history empty; last call time unset |
| `FrameTimer.Hook.HandleStart` | src/index.js:34-40 | queues the rendered `start` flipped; starting from not-started empties the history and unsets the last call time, otherwise both are kept |
| `FrameTimer.Hook.HandleStop` | src/index.js:42-46 | queues `stop`, empties the history and unsets the last call time |
| `FrameTimer.Hook.CommitStartStop` | src/index.js:78-107 | while not stopped, the accounting refs become `Resume` (started) or `Suspend` (not started) of the old ones and a frame is pending exactly when started; one callback with fps 0 is logged exactly when paused and not stopped; when stop is set, the whole reset state holds and no frame is pending |
| `FrameTimer.Hook.Unmount` | src/index.js:106 | the pending frame is cancelled |
| `FrameTimer.Hook.Animate` | src/index.js:56-76 | `time` becomes the decomposition of `now - start - pausedTotal`; no further frame is pending exactly when a truthy `stopTime` has been reached; while frames go on, the queued `start`, the history and the last call time are unchanged |
| `Scenarios.MountedHook` | src/index.js:78-132 | on mount both effects run: nothing is started, no sample is pushed (the last call time starts as 0), and one idle callback with the zero time and fps 0 is logged |
| `Scenarios.StartedHook` | src/index.js:34-40 | after the start handler, a render and both effects at 1000, the hook is running with a frame requested, the start recorded, an empty history, and a second callback with fps 0 |
| `Scenarios.RunningHook` | src/index.js:56-76 | a frame at 2000 shows one second, and the re-render's frame-rate effect pushes the first sample and calls back with fps 0 |
| `Scenarios.PausedHook` | src/index.js:88-100 | a pause at 2500 cancels the frame and records the pause time; the start/stop effect logs one callback with fps 0 and `pause` set, and the frame-rate effect pushes a sample but is silent |
| `Scenarios.StoppedHook` | src/index.js:102-105 | the commit that renders `stop` resets the time, the accounting, the history and the frame, queues both flags false, and its frame-rate effect is silent |
| `FrameTimer.Hook.RecordFrame` | src/index.js:109-132 | a sample is pushed only when a truthy last call time exists, and the call time is then recorded; the callback is logged exactly when not paused and not stopped, with the rate `FpsToReport` picks from the updated history |

## Left out

- React machinery: `useState`, `useRef`, `useLayoutEffect`, `useCallback`, dependency arrays and the scheduling of re-renders. The caller calls `Render` and the effect methods in the order React would. The start/stop effect runs when `start` or `stop` changed. The frame-rate effect runs when `clock`, `start` or `stop` changed.
- The `clock` state and `setClock` at line 69. Its value is a floating-point product with `minFps`, and it only triggers re-renders. So when `RecordFrame` runs is the caller's decision.
- `performance.now()`, `requestAnimationFrame` and `cancelAnimationFrame`. Time is the integer `now`, so `Math.floor(msTime)` is the identity. A request becomes the `framePending` flag.
- The frame-rate sample `parseFloat((1 / delta).toFixed(...))`, its rounding that depends on `minFps`, and the `Infinity` a zero delta gives. This is floating-point work, so a sample is an opaque integer argument of `RecordFrame`.
- Animate: does not model the `handleStart()` call at line 72. It goes through a closure memoised with `[minFps, stopTime]`, so the `start` it reads is stale and its effect depends on framework closure semantics. When the stop time is reached, the contract states only that no further frame is requested; the queued `start`, the history and the last call time are then left unspecified.
- The user callback `cb` and the `setStart`/`setStop` functions in its argument. Only the `time`, `fps` and `pause` it would receive are logged.
- ElapsedExcludesPauses: assumes the first start time is positive. A start timestamp of 0 is falsy at lines 80 and 89, so a start at time 0 would be read as "not started". `performance.now()` is positive in practice.
- Animate: requires a pending frame, which implies a start timestamp. An `animate` with an undefined timestamp (a `NaN` time record) cannot occur because frames are only requested after a start.
- HandleReset: requires that no frame is pending. Its only caller (lines 102-104) cancels the frame just before calling it, and the requirement keeps the invariant that a pending frame has a start timestamp.
