/** The animation loop of `generateClip`: `step(now)` draws one frame at
    normalised time `t = min(elapsed / DURATION_MS, 1)`, counts the frame,
    and either asks for another animation frame or schedules the recorder's
    stop 60 ms later. Timestamps are inputs; nothing here reads a clock. */
module Clock {
  import opened Numbers

  const DurationMs: real := 5000.0
  const StopDelayMs: nat := 60

  /** What `step` schedules after drawing. */
  datatype Next = AnotherFrame | StopAfter(delayMs: nat)

  /** One `drawFrame(ctx, t, frame, ...)` call. */
  datatype FrameDraw = FrameDraw(t: real, index: nat)

  datatype StepResult = StepResult(drawn: FrameDraw, frame: nat, next: Next)

  /** `step(now)` with the loop's captured `start` and its `frame` counter. */
  function Step(start: real, frame: nat, now: real): (r: StepResult)
    ensures r.drawn.index == frame && r.frame == frame + 1
    ensures r.next == AnotherFrame <==> now - start < DurationMs
    ensures r.next.StopAfter? ==> r.next.delayMs == StopDelayMs && r.drawn.t == 1.0
    ensures r.drawn.t <= 1.0
    ensures now - start >= 0.0 ==> 0.0 <= r.drawn.t
    ensures now - start < DurationMs ==> r.drawn.t * DurationMs == now - start
  {
    var elapsed := now - start;
    var t := MinReal(elapsed / DurationMs, 1.0);
    StepResult(FrameDraw(t, frame), frame + 1, if elapsed < DurationMs then AnotherFrame else StopAfter(StopDelayMs))
  }

  /** What a run of the loop did: the frames drawn, in order, and what the
      last step scheduled after each one. */
  datatype Trace = Trace(frames: seq<FrameDraw>, schedule: seq<Next>)

  /** The loop from frame counter `frame` on, fed the timestamps `nows` of the
      animation-frame callbacks: once a step schedules the stop, no further
      callback is requested, so the remaining timestamps are never seen. */
  function RunFrom(start: real, frame: nat, nows: seq<real>): Trace
    decreases |nows|
  {
    if |nows| == 0 then Trace([], [])
    else
      var r := Step(start, frame, nows[0]);
      if r.next == AnotherFrame then
        var rest := RunFrom(start, r.frame, nows[1..]);
        Trace([r.drawn] + rest.frames, [r.next] + rest.schedule)
      else Trace([r.drawn], [r.next])
  }

  /** The whole loop: `frame` starts at 0. */
  function Run(start: real, nows: seq<real>): Trace
  {
    RunFrom(start, 0, nows)
  }

  /** Index of the first timestamp at which the clip's duration has run out,
      or `|nows|` when there is none. */
  function FirstExpired(start: real, nows: seq<real>): (i: nat)
    ensures i <= |nows|
    ensures forall j :: 0 <= j < i ==> nows[j] - start < DurationMs
    ensures i < |nows| ==> nows[i] - start >= DurationMs
  {
    if |nows| == 0 then 0
    else if nows[0] - start >= DurationMs then 0
    else 1 + FirstExpired(start, nows[1..])
  }

  /** The loop draws one frame per callback up to and including the first
      one at which the duration has run out, and no more. */
  lemma {:induction false} RunFromLength(start: real, frame: nat, nows: seq<real>)
    ensures var tr := RunFrom(start, frame, nows);
            var e := FirstExpired(start, nows);
      |tr.frames| == |tr.schedule| == (if e < |nows| then e + 1 else |nows|)
    decreases |nows|
  {
    if |nows| > 0 && Step(start, frame, nows[0]).next == AnotherFrame {
      RunFromLength(start, frame + 1, nows[1..]);
    }
  }

  /** Frame k of the run is the one `step` draws for the k-th callback,
      with frame counter `frame + k`. */
  lemma {:induction false} RunFromFrames(start: real, frame: nat, nows: seq<real>, k: nat)
    requires k < |RunFrom(start, frame, nows).frames|
    ensures k < |nows|
    ensures RunFrom(start, frame, nows).frames[k] == Step(start, frame + k, nows[k]).drawn
    decreases |nows|
  {
    if k > 0 {
      RunFromFrames(start, frame + 1, nows[1..], k - 1);
      assert nows[1..][k - 1] == nows[k];
    }
  }

  /** Every step but the last asks for another frame, and the last one
      schedules the stop exactly when some callback saw the duration run
      out: the stop is scheduled at most once and nothing follows it. */
  lemma {:induction false} RunFromSchedule(start: real, frame: nat, nows: seq<real>)
    ensures var tr := RunFrom(start, frame, nows);
      && (forall k :: 0 <= k < |tr.schedule| - 1 ==> tr.schedule[k] == AnotherFrame)
      && (|tr.schedule| == 0 <==> |nows| == 0)
      && (|tr.schedule| > 0 ==>
            (tr.schedule[|tr.schedule| - 1].StopAfter? <==> FirstExpired(start, nows) < |nows|))
    decreases |nows|
  {
    if |nows| > 0 && Step(start, frame, nows[0]).next == AnotherFrame {
      RunFromSchedule(start, frame + 1, nows[1..]);
      var tr := RunFrom(start, frame, nows);
      var rest := RunFrom(start, frame + 1, nows[1..]);
      assert tr.schedule == [AnotherFrame] + rest.schedule;
      forall k | 0 <= k < |tr.schedule| - 1 ensures tr.schedule[k] == AnotherFrame {
        if k > 0 {
          assert tr.schedule[k] == rest.schedule[k - 1];
        }
      }
    }
  }

  /** For callbacks that never precede `start`, every frame is drawn at a
      normalised time in [0, 1], the frame indices count 0, 1, 2, ..., and the
      last frame of a run that schedules the stop is drawn at t = 1. */
  lemma RunFramesInRange(start: real, nows: seq<real>)
    requires forall k :: 0 <= k < |nows| ==> nows[k] >= start
    ensures var tr := Run(start, nows);
      && (forall k :: 0 <= k < |tr.frames| ==> tr.frames[k].index == k && 0.0 <= tr.frames[k].t <= 1.0)
      && (|tr.schedule| > 0 && tr.schedule[|tr.schedule| - 1].StopAfter? ==> tr.frames[|tr.frames| - 1].t == 1.0)
  {
    var tr := Run(start, nows);
    RunFromLength(start, 0, nows);
    RunFromSchedule(start, 0, nows);
    forall k | 0 <= k < |tr.frames| ensures tr.frames[k].index == k && 0.0 <= tr.frames[k].t <= 1.0 {
      RunFromFrames(start, 0, nows, k);
    }
    if |tr.schedule| > 0 && tr.schedule[|tr.schedule| - 1].StopAfter? {
      var n := |tr.frames| - 1;
      RunFromFrames(start, 0, nows, n);
      assert n == FirstExpired(start, nows);
    }
  }
}
