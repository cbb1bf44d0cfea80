/** The frame-rate history of the frame timer: a short list of per-frame rate
    samples, newest first, and the rate reported to the callback from it. A
    sample is an opaque integer here (the source rounds `1 / delta`). */
module FpsHistory {

  /** The most entries the history can hold: it is cut to 5 and then one
      sample is put in front. */
  const Capacity := 6

  /** The first `Capacity` entries of `s` (all of `s` when it is shorter). */
  function Recent(s: seq<int>): (r: seq<int>)
    ensures |r| == if |s| < Capacity then |s| else Capacity
    ensures r <= s
  {
    if |s| <= Capacity then s else s[..Capacity]
  }

  /** One history update: `splice(5)` when the list is longer than 5, then
      `unshift(sample)`. The result is the newest `Capacity` entries of the
      list with `sample` in front: `sample` at index 0, followed by the
      previous first (at most 5) entries in their original order. */
  function Push(h: seq<int>, sample: int): (r: seq<int>)
    ensures r == Recent([sample] + h)
    ensures |r| <= Capacity && r[0] == sample
  {
    var kept := if |h| > 5 then h[..5] else h;
    [sample] + kept
  }

  /** The history after `samples` have been pushed onto `h` in order. */
  function PushAll(h: seq<int>, samples: seq<int>): seq<int>
  {
    if samples == [] then h
    else Push(PushAll(h, samples[..|samples| - 1]), samples[|samples| - 1])
  }

  /** `s` newest-last turned newest-first. */
  function Reverse(s: seq<int>): (r: seq<int>)
    ensures |r| == |s|
  {
    if s == [] then [] else [s[|s| - 1]] + Reverse(s[..|s| - 1])
  }

  lemma {:induction false} ReverseAt(s: seq<int>, i: nat)
    requires i < |s|
    ensures Reverse(s)[i] == s[|s| - 1 - i]
  {
    if i > 0 {
      ReverseAt(s[..|s| - 1], i - 1);
    }
  }

  /** Truncating before prepending loses nothing the final truncation keeps. */
  lemma RecentAbsorbs(x: int, s: seq<int>)
    ensures Recent([x] + Recent(s)) == Recent([x] + s)
  {
    if |s| > Capacity {
      assert ([x] + Recent(s))[..Capacity] == ([x] + s)[..Capacity];
    }
  }

  /** From any history within capacity, after a run of samples the history is
      exactly the newest `Capacity` of those samples and its earlier entries,
      newest first. */
  lemma {:induction false} PushAllKeepsNewest(h: seq<int>, samples: seq<int>)
    requires |h| <= Capacity
    ensures PushAll(h, samples) == Recent(Reverse(samples) + h)
  {
    if samples != [] {
      var init := samples[..|samples| - 1];
      var x := samples[|samples| - 1];
      var rest := Reverse(init) + h;
      assert Reverse(samples) + h == [x] + rest;
      calc {
        PushAll(h, samples);
        Push(PushAll(h, init), x);
        { PushAllKeepsNewest(h, init); }
        Push(Recent(rest), x);
        Recent([x] + Recent(rest));
        { RecentAbsorbs(x, rest); }
        Recent([x] + rest);
      }
    }
  }

  /** `Math.max` over a non-empty list. */
  function SeqMax(s: seq<int>): (r: int)
    requires |s| > 0
    ensures r in s
    ensures forall i :: 0 <= i < |s| ==> s[i] <= r
  {
    if |s| == 1 then s[0]
    else
      var rest := SeqMax(s[1..]);
      if s[0] >= rest then s[0] else rest
  }

  /** The `fps` value of the per-frame callback: 0 unless the timer is
      started, not stopped and the history is full; then the largest of the
      three newest samples. */
  function FpsToReport(start: bool, stop: bool, h: seq<int>): (r: int)
    ensures !start || stop || |h| != Capacity ==> r == 0
    ensures start && !stop && |h| == Capacity ==>
      r in h[..3] && forall i :: 0 <= i < 3 ==> h[i] <= r
  {
    if !start || stop then 0
    else if |h| == 6 then SeqMax(h[..3])
    else 0
  }

  /** After a clear, the history holds the newest samples, newest first. */
  lemma HistoryAfterClear(samples: seq<int>)
    ensures PushAll([], samples) == Recent(Reverse(samples))
  {
    PushAllKeepsNewest([], samples);
    assert Reverse(samples) + [] == Reverse(samples);
  }

  /** With at least six samples since a clear, the three newest entries of
      the history are the last three samples. */
  lemma NewestThree(samples: seq<int>)
    requires |samples| >= Capacity
    ensures var h := PushAll([], samples); var n := |samples|;
      |h| == Capacity && h[..3] == [samples[n - 1], samples[n - 2], samples[n - 3]]
  {
    HistoryAfterClear(samples);
    var n := |samples|;
    ReverseAt(samples, 0);
    ReverseAt(samples, 1);
    ReverseAt(samples, 2);
  }

  /** After a clear, the history fills up only with the sixth sample, and
      until then the running timer reports 0. */
  lemma HistoryFullAfterSix(samples: seq<int>)
    ensures |PushAll([], samples)| == Capacity <==> |samples| >= Capacity
    ensures |samples| < Capacity ==> FpsToReport(true, false, PushAll([], samples)) == 0
  {
    HistoryAfterClear(samples);
  }

  /** With a full history, the running timer reports the largest of its
      three newest entries. */
  lemma FullHistoryReport(h: seq<int>)
    requires |h| == Capacity
    ensures var r := FpsToReport(true, false, h);
      (r == h[0] || r == h[1] || r == h[2]) && h[0] <= r && h[1] <= r && h[2] <= r
  {
    var r := FpsToReport(true, false, h);
    assert r in h[..3];
    assert h[..3][1] == h[1] && h[..3][2] == h[2];
  }

  /** From the sixth sample after a clear on, the running timer reports the
      largest of the three newest samples. */
  lemma FpsAfterClear(samples: seq<int>)
    requires |samples| >= Capacity
    ensures var r := FpsToReport(true, false, PushAll([], samples));
      var n := |samples|;
      (r == samples[n - 1] || r == samples[n - 2] || r == samples[n - 3]) &&
      samples[n - 1] <= r && samples[n - 2] <= r && samples[n - 3] <= r
  {
    var h := PushAll([], samples);
    var n := |samples|;
    NewestThree(samples);
    FullHistoryReport(h);
    assert h[0] == h[..3][0] && h[1] == h[..3][1] && h[2] == h[..3][2];
  }

  /** Frames that keep arriving at one steady rate make the reported rate
      settle on that rate once the history is full. */
  lemma SteadyRate(samples: seq<int>, rate: int)
    requires |samples| >= Capacity
    requires forall i :: 0 <= i < |samples| ==> samples[i] == rate
    ensures FpsToReport(true, false, PushAll([], samples)) == rate
  {
    FpsAfterClear(samples);
  }
}
