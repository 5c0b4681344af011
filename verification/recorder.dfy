/** The capture side of `generateClip`: choosing the container type,
    starting a run (which empties the chunk buffer), the `ondataavailable`
    filter that fills the buffer, and assembling the buffer into one clip.
    The browser's canvas stream and `MediaRecorder` are outside the model:
    whether the canvas exists, whether VP9 is supported, whether probing
    the host threw and whether the recorder could be constructed are
    inputs. */
module Recorder {
  import opened Wrappers
  import opened Settings

  newtype byte = b: int | 0 <= b < 256

  /** An encoded fragment `e.data`; its `size` is its byte count. */
  datatype Blob = Blob(bytes: seq<byte>)

  const Vp9Mime: string := "video/webm; codecs=vp9"
  const WebmMime: string := "video/webm"
  const RecorderUnsupportedMessage: string := "MediaRecorder not supported. Use Chrome/Edge/Firefox on desktop."

  /** The preferred codec if the host supports it, else plain WebM. */
  function ChooseMime(vp9Supported: bool): (mime: string)
    ensures mime == Vp9Mime <==> vp9Supported
    ensures mime == WebmMime <==> !vp9Supported
  {
    if vp9Supported then Vp9Mime else WebmMime
  }

  /** The component's recording state: the in-progress flag, the chunk
      buffer `chunksRef.current`, and the published clip URL. */
  datatype Session = Session(generating: bool, chunks: seq<Blob>, videoUrl: Option<string>)

  datatype StartOutcome =
    | NoCanvas                            // `if (!canvas) return;`
    | UnknownAspect                       // a key the aspect selector does not offer
    | ProbeThrew                          // `captureStream` or `isTypeSupported` threw, outside the `try`
    | Unsupported(message: string)        // the recorder could not be constructed
    | Recording(size: Size, mime: string)

  /** The synchronous part of `generateClip` up to `recorder.start(100)`,
      as the code is written. The selector only offers the three table
      keys; for any other key the model stops without touching the session,
      which the code does not promise. `probeThrows` says whether
      `canvas.captureStream(fps)` or `MediaRecorder.isTypeSupported(...)`
      threw (as the latter does on a host with no `MediaRecorder`): those
      calls run after the flag is raised and the buffer emptied, and
      outside the `try`, so the exception escapes with no notice and the
      flag left raised. */
  function StartRun(st: Session, canvasPresent: bool, aspect: string, vp9Supported: bool,
                    probeThrows: bool, recorderConstructs: bool)
    : (r: (Session, StartOutcome))
    ensures !canvasPresent ==> r == (st, NoCanvas)
    ensures canvasPresent && AspectSize(aspect).None? ==> r == (st, UnknownAspect)
    ensures r.1.ProbeThrew? <==> canvasPresent && AspectSize(aspect).Some? && probeThrows
    ensures r.1.ProbeThrew? ==> r.0 == st.(generating := true, chunks := [])
    ensures r.1.Unsupported? <==> canvasPresent && AspectSize(aspect).Some? && !probeThrows && !recorderConstructs
    ensures r.1.Unsupported? ==>
      r.0 == st.(generating := false, chunks := []) && r.1.message == RecorderUnsupportedMessage
    ensures r.1.Recording? ==>
      && r.0 == st.(generating := true, chunks := [])
      && Some(r.1.size) == AspectSize(aspect)
      && r.1.mime == ChooseMime(vp9Supported)
    ensures r.1.Recording? <==> canvasPresent && AspectSize(aspect).Some? && !probeThrows && recorderConstructs
  {
    if !canvasPresent then (st, NoCanvas)
    else match AspectSize(aspect)
      case None => (st, UnknownAspect)
      case Some(size) =>
        var cleared := st.(generating := true, chunks := []);
        if probeThrows then (cleared, ProbeThrew)
        else if !recorderConstructs then (cleared.(generating := false), Unsupported(RecorderUnsupportedMessage))
        else (cleared, Recording(size, ChooseMime(vp9Supported)))
  }

  /** On a host with no `MediaRecorder`, an idle component that starts a
      run ends with the flag raised for good and no notice shown. */
  lemma ProbeFailureLeavesFlagRaised(st: Session, aspect: string, vp9: bool, constructs: bool)
    requires !st.generating && AspectSize(aspect).Some?
    ensures var (s, out) := StartRun(st, true, aspect, vp9, true, constructs);
      s.generating && !out.Recording? && !out.Unsupported?
  {
  }

  /** The start with the probes inside the `try` as well, as the notice's
      text ("MediaRecorder not supported") evidently intends: a host that
      cannot record gets the notice and the flag back to idle. */
  function GuardedStartRun(st: Session, canvasPresent: bool, aspect: string, vp9Supported: bool,
                           probeThrows: bool, recorderConstructs: bool)
    : (r: (Session, StartOutcome))
    ensures !r.1.ProbeThrew?
  {
    var (s, out) := StartRun(st, canvasPresent, aspect, vp9Supported, probeThrows, recorderConstructs);
    if out.ProbeThrew? then (s.(generating := false), Unsupported(RecorderUnsupportedMessage)) else (s, out)
  }

  /** The guarded start raises the flag only for a run that is recording:
      every other outcome leaves it as it was or lowers it, with the
      notice whenever the host cannot record. It agrees with the code
      whenever the probes do not throw. */
  lemma GuardedStartRunNeverStrands(st: Session, canvasPresent: bool, aspect: string, vp9: bool,
                                    probeThrows: bool, constructs: bool)
    ensures var (s, out) := GuardedStartRun(st, canvasPresent, aspect, vp9, probeThrows, constructs);
      && (s.generating ==> out.Recording? || st.generating)
      && (canvasPresent && AspectSize(aspect).Some? && (probeThrows || !constructs) ==>
            out == Unsupported(RecorderUnsupportedMessage) && !s.generating && s.chunks == [])
      && (out.Recording? <==> canvasPresent && AspectSize(aspect).Some? && !probeThrows && constructs)
    ensures !probeThrows ==>
      GuardedStartRun(st, canvasPresent, aspect, vp9, probeThrows, constructs)
        == StartRun(st, canvasPresent, aspect, vp9, probeThrows, constructs)
  {
  }

  /** `recorder.ondataavailable`: appends `e.data` when it is present and
      non-empty, and otherwise leaves the buffer alone. */
  function OnDataAvailable(chunks: seq<Blob>, data: Option<Blob>): seq<Blob>
  {
    if data.Some? && |data.value.bytes| != 0 then chunks + [data.value] else chunks
  }

  /** The buffer after a run that started with an empty buffer and then
      received the data events `events`, in arrival order. */
  function Collect(events: seq<Option<Blob>>): seq<Blob>
  {
    if |events| == 0 then []
    else OnDataAvailable(Collect(events[..|events| - 1]), events[|events| - 1])
  }

  /** Reference definition: the non-empty fragments among `events`, in
      their order. */
  function NonEmptyData(events: seq<Option<Blob>>): (r: seq<Blob>)
    ensures forall i :: 0 <= i < |r| ==> |r[i].bytes| > 0
    ensures |r| <= |events|
  {
    if |events| == 0 then []
    else
      (if events[0].Some? && |events[0].value.bytes| > 0 then [events[0].value] else [])
      + NonEmptyData(events[1..])
  }

  lemma {:induction false} NonEmptyDataAppend(events: seq<Option<Blob>>, e: Option<Blob>)
    ensures NonEmptyData(events + [e]) == NonEmptyData(events) + NonEmptyData([e])
    decreases |events|
  {
    if |events| == 0 {
      assert events + [e] == [e];
    } else {
      assert (events + [e])[1..] == events[1..] + [e];
      NonEmptyDataAppend(events[1..], e);
    }
  }

  /** The buffer is exactly the in-order subsequence of arrived fragments
      with non-zero size: each is kept once, none is reordered, and empty or
      missing data is dropped. */
  lemma {:induction false} CollectIsNonEmptyData(events: seq<Option<Blob>>)
    ensures Collect(events) == NonEmptyData(events)
    decreases |events|
  {
    if |events| > 0 {
      var n := |events| - 1;
      CollectIsNonEmptyData(events[..n]);
      NonEmptyDataAppend(events[..n], events[n]);
      assert events[..n] + [events[n]] == events;
    }
  }

  /** `new Blob(chunks)`: the fragments' bytes concatenated in order. */
  function Assemble(chunks: seq<Blob>): seq<byte>
  {
    if |chunks| == 0 then [] else chunks[0].bytes + Assemble(chunks[1..])
  }

  function TotalSize(chunks: seq<Blob>): nat
  {
    if |chunks| == 0 then 0 else |chunks[0].bytes| + TotalSize(chunks[1..])
  }

  /** The assembled clip has no gaps and no duplication: its length is the
      sum of the fragment sizes, and fragment i sits right after the ones
      before it. */
  lemma {:induction false} AssembleLayout(chunks: seq<Blob>, i: nat)
    requires i < |chunks|
    ensures |Assemble(chunks)| == TotalSize(chunks)
    ensures TotalSize(chunks[..i]) + |chunks[i].bytes| <= |Assemble(chunks)|
    ensures Assemble(chunks)[TotalSize(chunks[..i])..TotalSize(chunks[..i]) + |chunks[i].bytes|] == chunks[i].bytes
  {
    AssembleLength(chunks);
    if i == 0 {
      assert chunks[..0] == [];
    } else {
      var tail := chunks[1..];
      AssembleLayout(tail, i - 1);
      assert tail[..i - 1] == chunks[..i][1..];
      assert chunks[..i][0] == chunks[0];
      var off := TotalSize(tail[..i - 1]);
      var h := |chunks[0].bytes|;
      assert TotalSize(chunks[..i]) == h + off;
      assert tail[i - 1] == chunks[i];
      var whole := Assemble(chunks);
      assert whole == chunks[0].bytes + Assemble(tail);
      assert whole[h + off..h + off + |chunks[i].bytes|] == Assemble(tail)[off..off + |chunks[i].bytes|];
    }
  }

  lemma {:induction false} AssembleLength(chunks: seq<Blob>)
    ensures |Assemble(chunks)| == TotalSize(chunks)
  {
    if |chunks| > 0 {
      AssembleLength(chunks[1..]);
    }
  }

  /** Every arrived fragment, empty or not. */
  function Arrived(events: seq<Option<Blob>>): (r: seq<Blob>)
    ensures |r| <= |events|
  {
    if |events| == 0 then []
    else (if events[0].Some? then [events[0].value] else []) + Arrived(events[1..])
  }

  /** Dropping empty fragments loses no bytes: the clip assembled from the
      buffer is every arrived byte, in arrival order. */
  lemma {:induction false} CollectedBytes(events: seq<Option<Blob>>)
    ensures Assemble(Collect(events)) == Assemble(Arrived(events))
  {
    CollectIsNonEmptyData(events);
    NonEmptyBytes(events);
  }

  lemma {:induction false} NonEmptyBytes(events: seq<Option<Blob>>)
    ensures Assemble(NonEmptyData(events)) == Assemble(Arrived(events))
    decreases |events|
  {
    if |events| > 0 {
      NonEmptyBytes(events[1..]);
      var head := if events[0].Some? && |events[0].value.bytes| > 0 then [events[0].value] else [];
      var all := if events[0].Some? then [events[0].value] else [];
      AssembleConcat(head, NonEmptyData(events[1..]));
      AssembleConcat(all, Arrived(events[1..]));
      if events[0].Some? && |events[0].value.bytes| == 0 {
        assert Assemble(all) == events[0].value.bytes + Assemble([]);
      }
    }
  }

  lemma {:induction false} AssembleConcat(a: seq<Blob>, b: seq<Blob>)
    ensures Assemble(a + b) == Assemble(a) + Assemble(b)
    decreases |a|
  {
    if |a| == 0 {
      assert a + b == b;
    } else {
      assert (a + b)[1..] == a[1..] + b;
      AssembleConcat(a[1..], b);
    }
  }

  /** A run's buffer depends only on that run's events: whatever an earlier
      run left in the buffer is gone once a run starts recording. */
  lemma NoCarryOver(st: Session, st': Session, aspect: string, vp9: bool, events: seq<Option<Blob>>)
    requires GuardedStartRun(st, true, aspect, vp9, false, true).1.Recording?
    ensures var s0 := GuardedStartRun(st, true, aspect, vp9, false, true).0;
            var s1 := GuardedStartRun(st', true, aspect, vp9, false, true).0;
      ReceiveAll(s0.chunks, events) == ReceiveAll(s1.chunks, events) == Collect(events)
  {
    ReceiveAllFromEmpty(events);
  }

  /** The buffer after `events` arrive on top of `chunks`. */
  function ReceiveAll(chunks: seq<Blob>, events: seq<Option<Blob>>): seq<Blob>
    decreases |events|
  {
    if |events| == 0 then chunks else ReceiveAll(OnDataAvailable(chunks, events[0]), events[1..])
  }

  lemma {:induction false} ReceiveAllFrom(chunks: seq<Blob>, events: seq<Option<Blob>>)
    ensures ReceiveAll(chunks, events) == chunks + NonEmptyData(events)
    decreases |events|
  {
    if |events| > 0 {
      ReceiveAllFrom(OnDataAvailable(chunks, events[0]), events[1..]);
    }
  }

  lemma ReceiveAllFromEmpty(events: seq<Option<Blob>>)
    ensures ReceiveAll([], events) == Collect(events)
  {
    ReceiveAllFrom([], events);
    CollectIsNonEmptyData(events);
  }
}
