/** The end-of-speech detector of `backend/app/vad.py` (`detect_end_of_speech`).

    The websocket becomes a finite sequence of receipts (a chunk of bytes, or a
    receive that raised), the generator becomes the list of chunks it yields
    together with why it stopped, and the voice-activity classifier becomes a
    parameter: `Some(isSpeech)` for a verdict on a 320-byte frame, `None` when
    the classifier raises. */
module Vad {
  import opened Wrappers

  type Byte = bv8
  type Chunk = seq<Byte>

  /** Bytes handed to the classifier: 160 samples of 16-bit audio at 16 kHz. */
  const FrameBytes: nat := 320
  /** Consecutive silence verdicts that end the answer. */
  const MaxSilenceFrames: nat := 50

  /** What one `websocket.receive_bytes()` produced. */
  datatype Receipt = Received(data: Chunk) | ReceiveFailed

  datatype StopReason =
    | EmptyChunk        // an empty chunk: the client ended the recording
    | SilenceThreshold  // 50 consecutive silence verdicts
    | ReceiveError      // the receive raised; the outer handler ends the stream quietly
    | InputExhausted    // the finite model input ran out while still listening

  /** The yielded chunks, how many receipts were consumed, the final silence
      counter and why detection stopped. */
  datatype Detection = Detection(chunks: seq<Chunk>, consumed: nat, silence: nat, stop: StopReason)

  type Classifier = Chunk -> Option<bool>

  /** The verdict a chunk contributes: none for a chunk shorter than a frame (never
      classified) or when the classifier raises, otherwise the verdict on the
      chunk's first 320 bytes only. */
  function Verdict(classify: Classifier, data: Chunk): Option<bool> {
    if |data| < FrameBytes then None else classify(data[..FrameBytes])
  }

  /** The counter update of one chunk: speech resets, silence increments,
      no verdict leaves it unchanged. */
  function NextSilence(silence: nat, v: Option<bool>): nat {
    match v
    case None => silence
    case Some(true) => 0
    case Some(false) => silence + 1
  }

  // ------------------------------------------------------- reference definitions

  /** The verdicts the classifier gave on `chunks`, in arrival order. */
  function Verdicts(classify: Classifier, chunks: seq<Chunk>): (vs: seq<bool>)
    ensures |vs| <= |chunks|
  {
    if |chunks| == 0 then []
    else
      var rest := Verdicts(classify, chunks[..|chunks| - 1]);
      match Verdict(classify, chunks[|chunks| - 1])
      case None => rest
      case Some(b) => rest + [b]
  }

  /** How many verdicts at the end of `vs` are silence. */
  function TrailingSilence(vs: seq<bool>): nat {
    if |vs| == 0 || vs[|vs| - 1] then 0 else 1 + TrailingSilence(vs[..|vs| - 1])
  }

  /** The counter as the loop computes it, starting from `silence`, after `chunks`. */
  function CounterAfter(classify: Classifier, silence: nat, chunks: seq<Chunk>): nat
    decreases |chunks|
  {
    if |chunks| == 0 then silence
    else CounterAfter(classify, NextSilence(silence, Verdict(classify, chunks[0])), chunks[1..])
  }

  // ------------------------------------------------------- the detector

  /** Detection continued over `input` with the counter at `silence`. */
  function DetectFrom(classify: Classifier, input: seq<Receipt>, silence: nat): (d: Detection)
    requires silence < MaxSilenceFrames
    ensures |d.chunks| <= d.consumed <= |input|
    ensures d.stop == EmptyChunk || d.stop == ReceiveError ==> |d.chunks| + 1 == d.consumed
    ensures d.stop == SilenceThreshold ==> |d.chunks| == d.consumed
    ensures d.stop == InputExhausted ==> |d.chunks| == d.consumed == |input|
    ensures d.silence <= MaxSilenceFrames
    ensures d.stop == SilenceThreshold <==> d.silence == MaxSilenceFrames
    decreases |input|
  {
    if |input| == 0 then Detection([], 0, silence, InputExhausted)
    else match input[0]
      case ReceiveFailed => Detection([], 1, silence, ReceiveError)
      case Received(data) =>
        if |data| == 0 then Detection([], 1, silence, EmptyChunk)
        else
          var next := NextSilence(silence, Verdict(classify, data));
          if next >= MaxSilenceFrames then Detection([data], 1, next, SilenceThreshold)
          else
            var rest := DetectFrom(classify, input[1..], next);
            Detection([data] + rest.chunks, 1 + rest.consumed, rest.silence, rest.stop)
  }

  /** The yielded chunks are the received non-empty chunks, in arrival order, up to
      the stopping point; an empty chunk or a failed receive is the last receipt
      consumed and is not yielded. */
  lemma {:induction false} YieldsReceivedPrefix(classify: Classifier, input: seq<Receipt>, silence: nat)
    requires silence < MaxSilenceFrames
    ensures var d := DetectFrom(classify, input, silence);
      && (forall k :: 0 <= k < |d.chunks| ==> input[k] == Received(d.chunks[k]) && |d.chunks[k]| > 0)
      && (d.stop == EmptyChunk ==> input[d.consumed - 1] == Received([]))
      && (d.stop == ReceiveError ==> input[d.consumed - 1] == ReceiveFailed)
    decreases |input|
  {
    var d := DetectFrom(classify, input, silence);
    if |input| > 0 && input[0].Received? && |input[0].data| > 0 {
      var data := input[0].data;
      var next := NextSilence(silence, Verdict(classify, data));
      if next < MaxSilenceFrames {
        var rest := DetectFrom(classify, input[1..], next);
        YieldsReceivedPrefix(classify, input[1..], next);
        assert d.chunks == [data] + rest.chunks;
        forall k | 0 <= k < |d.chunks|
          ensures input[k] == Received(d.chunks[k]) && |d.chunks[k]| > 0
        {
          if k > 0 {
            assert d.chunks[k] == rest.chunks[k - 1];
            assert input[k] == input[1..][k - 1];
          }
        }
      }
    }
  }

  /** The final counter is the loop's counter over the yielded chunks, and it stays
      below 50 after every yielded chunk but the last: detection stops as soon as
      the threshold is reached. */
  lemma {:induction false} CounterTracksChunks(classify: Classifier, input: seq<Receipt>, silence: nat)
    requires silence < MaxSilenceFrames
    ensures var d := DetectFrom(classify, input, silence);
      && d.silence == CounterAfter(classify, silence, d.chunks)
      && forall k :: 0 <= k < |d.chunks| ==> CounterAfter(classify, silence, d.chunks[..k]) < MaxSilenceFrames
    decreases |input|
  {
    var d := DetectFrom(classify, input, silence);
    if |input| > 0 && input[0].Received? && |input[0].data| > 0 {
      var data := input[0].data;
      var next := NextSilence(silence, Verdict(classify, data));
      if next >= MaxSilenceFrames {
        assert d.chunks == [data];
        assert [data][1..] == [];
      } else {
        var rest := DetectFrom(classify, input[1..], next);
        CounterTracksChunks(classify, input[1..], next);
        assert d.chunks == [data] + rest.chunks;
        assert d.chunks[1..] == rest.chunks;
        forall k | 0 <= k < |d.chunks|
          ensures CounterAfter(classify, silence, d.chunks[..k]) < MaxSilenceFrames
        {
          if k > 0 {
            assert d.chunks[..k][1..] == rest.chunks[..k - 1];
          }
        }
      }
    }
  }

  /** `detect_end_of_speech`: a fresh counter at 0, so the final counter is the
      number of silence verdicts since the last speech verdict among the yielded
      chunks, and it stops on the threshold exactly when that number is 50. */
  function DetectEndOfSpeech(classify: Classifier, input: seq<Receipt>): (d: Detection)
    ensures |d.chunks| <= d.consumed <= |input|
    ensures d.silence == TrailingSilence(Verdicts(classify, d.chunks))
    ensures d.stop == SilenceThreshold <==> TrailingSilence(Verdicts(classify, d.chunks)) == MaxSilenceFrames
  {
    var d := DetectFrom(classify, input, 0);
    CounterTracksChunks(classify, input, 0);
    CounterIsTrailingSilence(classify, d.chunks);
    d
  }

  // ------------------------------------------------------- lemmas

  /** Extending the verdict list by one chunk. */
  lemma VerdictsSnoc(classify: Classifier, chunks: seq<Chunk>, c: Chunk)
    ensures Verdicts(classify, chunks + [c]) ==
      match Verdict(classify, c) case None => Verdicts(classify, chunks) case Some(b) => Verdicts(classify, chunks) + [b]
  {
    assert (chunks + [c])[..|chunks|] == chunks;
  }

  /** The loop's counter from 0 is the number of trailing silence verdicts, i.e.
      the length of the silence run since the last speech verdict. */
  lemma {:induction false} CounterIsTrailingSilence(classify: Classifier, chunks: seq<Chunk>)
    ensures CounterAfter(classify, 0, chunks) == TrailingSilence(Verdicts(classify, chunks))
  {
    CounterFold(classify, 0, chunks, []);
    assert [] + chunks == chunks;
  }

  /** Generalisation: from any counter that equals the trailing silence of `prefix`. */
  lemma {:induction false} CounterFold(classify: Classifier, silence: nat, chunks: seq<Chunk>, prefix: seq<Chunk>)
    requires silence == TrailingSilence(Verdicts(classify, prefix))
    ensures CounterAfter(classify, silence, chunks) == TrailingSilence(Verdicts(classify, prefix + chunks))
    decreases |chunks|
  {
    if |chunks| == 0 {
      assert prefix + chunks == prefix;
    } else {
      var c := chunks[0];
      VerdictsSnoc(classify, prefix, c);
      var vs := Verdicts(classify, prefix);
      match Verdict(classify, c) {
        case None =>
        case Some(b) =>
          assert (vs + [b])[..|vs|] == vs;
      }
      CounterFold(classify, NextSilence(silence, Verdict(classify, c)), chunks[1..], prefix + [c]);
      assert prefix + [c] + chunks[1..] == prefix + chunks;
    }
  }

  /** A run of `n` trailing silence verdicts means the last `n` verdicts are all silence. */
  lemma {:induction false} TrailingSilenceSuffix(vs: seq<bool>, n: nat)
    requires n <= TrailingSilence(vs)
    ensures n <= |vs|
    ensures forall k :: |vs| - n <= k < |vs| ==> !vs[k]
    decreases |vs|
  {
    if n > 0 {
      TrailingSilenceSuffix(vs[..|vs| - 1], n - 1);
    }
  }

  /** When the trailing silence run grows with the last chunk, that chunk was
      classified as silence. */
  lemma LastVerdictSilence(classify: Classifier, chunks: seq<Chunk>)
    requires |chunks| > 0
    requires TrailingSilence(Verdicts(classify, chunks[..|chunks| - 1])) < TrailingSilence(Verdicts(classify, chunks))
    ensures Verdict(classify, chunks[|chunks| - 1]) == Some(false)
  {
  }

  /** Chunks whose counter first reaches 50 on the last one end in a run of 50
      silence verdicts, the last chunk's among them. */
  lemma SilenceRunAtEnd(classify: Classifier, chunks: seq<Chunk>)
    requires |chunks| > 0
    requires CounterAfter(classify, 0, chunks) == MaxSilenceFrames
    requires CounterAfter(classify, 0, chunks[..|chunks| - 1]) < MaxSilenceFrames
    ensures var vs := Verdicts(classify, chunks);
      && |chunks| >= MaxSilenceFrames
      && Verdict(classify, chunks[|chunks| - 1]) == Some(false)
      && |vs| >= MaxSilenceFrames
      && forall k :: |vs| - MaxSilenceFrames <= k < |vs| ==> !vs[k]
  {
    CounterIsTrailingSilence(classify, chunks);
    CounterIsTrailingSilence(classify, chunks[..|chunks| - 1]);
    TrailingSilenceSuffix(Verdicts(classify, chunks), MaxSilenceFrames);
    LastVerdictSilence(classify, chunks);
  }

  /** A threshold stop: at least 50 chunks were yielded, the chunk that triggered
      the stop is the last one yielded and was classified as silence, and the
      last 50 verdicts were all silence. */
  lemma ThresholdStop(classify: Classifier, input: seq<Receipt>)
    requires DetectEndOfSpeech(classify, input).stop == SilenceThreshold
    ensures var d := DetectEndOfSpeech(classify, input);
      var vs := Verdicts(classify, d.chunks);
      && |d.chunks| >= MaxSilenceFrames
      && Verdict(classify, d.chunks[|d.chunks| - 1]) == Some(false)
      && |vs| >= MaxSilenceFrames
      && forall k :: |vs| - MaxSilenceFrames <= k < |vs| ==> !vs[k]
  {
    var chunks := DetectEndOfSpeech(classify, input).chunks;
    CounterTracksChunks(classify, input, 0);
    assert CounterAfter(classify, 0, chunks) == MaxSilenceFrames;
    assert |chunks| > 0;
    assert CounterAfter(classify, 0, chunks[..|chunks| - 1]) < MaxSilenceFrames;
    SilenceRunAtEnd(classify, chunks);
  }

  /** The silence counter never exceeds 50 while listening: every prefix of the
      yielded chunks, short of the whole, has fewer than 50 trailing silence verdicts. */
  lemma StopsAtFirstThreshold(classify: Classifier, input: seq<Receipt>, k: nat)
    requires k < |DetectEndOfSpeech(classify, input).chunks|
    ensures TrailingSilence(Verdicts(classify, DetectEndOfSpeech(classify, input).chunks[..k])) < MaxSilenceFrames
  {
    CounterTracksChunks(classify, input, 0);
    CounterIsTrailingSilence(classify, DetectEndOfSpeech(classify, input).chunks[..k]);
  }

  /** One chunk read while listening continues: it comes first among the yielded
      chunks and detection goes on from the next receipt with the updated counter. */
  lemma DetectFromCons(classify: Classifier, input: seq<Receipt>, silence: nat)
    requires silence < MaxSilenceFrames
    requires |input| > 0 && input[0].Received? && |input[0].data| > 0
    requires NextSilence(silence, Verdict(classify, input[0].data)) < MaxSilenceFrames
    ensures var rest := DetectFrom(classify, input[1..], NextSilence(silence, Verdict(classify, input[0].data)));
      DetectFrom(classify, input, silence) == Detection([input[0].data] + rest.chunks, 1 + rest.consumed, rest.silence, rest.stop)
  {
  }

  /** A chunk that gets no verdict (shorter than a frame, or the classifier
      raised) is yielded and leaves the counter as it was. */
  lemma NoVerdictKeepsCounter(classify: Classifier, data: Chunk, rest: seq<Receipt>, silence: nat)
    requires silence < MaxSilenceFrames && |data| > 0
    requires |data| < FrameBytes || classify(data[..FrameBytes]).None?
    ensures var d := DetectFrom(classify, rest, silence);
      DetectFrom(classify, [Received(data)] + rest, silence) == Detection([data] + d.chunks, 1 + d.consumed, d.silence, d.stop)
  {
    assert ([Received(data)] + rest)[1..] == rest;
  }

  /** A chunk classified on its first frame: speech resets the counter to 0,
      silence adds exactly one, and the silence that makes 50 stops detection
      with that chunk as the last one yielded. */
  lemma ClassifiedChunkUpdatesCounter(classify: Classifier, data: Chunk, rest: seq<Receipt>, silence: nat)
    requires silence < MaxSilenceFrames && |data| >= FrameBytes
    requires classify(data[..FrameBytes]).Some?
    ensures var d := DetectFrom(classify, [Received(data)] + rest, silence);
      && (classify(data[..FrameBytes]) == Some(true) ==>
            var e := DetectFrom(classify, rest, 0);
            d == Detection([data] + e.chunks, 1 + e.consumed, e.silence, e.stop))
      && (classify(data[..FrameBytes]) == Some(false) && silence + 1 < MaxSilenceFrames ==>
            var e := DetectFrom(classify, rest, silence + 1);
            d == Detection([data] + e.chunks, 1 + e.consumed, e.silence, e.stop))
      && (classify(data[..FrameBytes]) == Some(false) && silence + 1 == MaxSilenceFrames ==>
            d == Detection([data], 1, MaxSilenceFrames, SilenceThreshold))
  {
    assert ([Received(data)] + rest)[1..] == rest;
  }

  /** Detection that runs through all of `a` without stopping continues on `b`
      with the counter it reached. */
  lemma {:induction false} DetectAppend(classify: Classifier, a: seq<Receipt>, b: seq<Receipt>, silence: nat)
    requires silence < MaxSilenceFrames
    requires DetectFrom(classify, a, silence).stop == InputExhausted
    ensures var d1 := DetectFrom(classify, a, silence);
      var d2 := DetectFrom(classify, b, d1.silence);
      DetectFrom(classify, a + b, silence) == Detection(d1.chunks + d2.chunks, |a| + d2.consumed, d2.silence, d2.stop)
    decreases |a|
  {
    if |a| == 0 {
      assert a + b == b;
    } else {
      var ab := a + b;
      assert ab[0] == a[0];
      assert ab[1..] == a[1..] + b;
      var next := NextSilence(silence, Verdict(classify, a[0].data));
      DetectFromCons(classify, a, silence);
      DetectFromCons(classify, ab, silence);
      var r1 := DetectFrom(classify, a[1..], next);
      var rab := DetectFrom(classify, a[1..] + b, next);
      DetectAppend(classify, a[1..], b, next);
      var d2 := DetectFrom(classify, b, r1.silence);
      assert rab.chunks == r1.chunks + d2.chunks;
      assert [a[0].data] + (r1.chunks + d2.chunks) == ([a[0].data] + r1.chunks) + d2.chunks;
    }
  }

  /** Once detection has stopped, nothing after the stopping point is consumed:
      appending more input changes nothing. */
  lemma {:induction false} NothingConsumedAfterStop(classify: Classifier, a: seq<Receipt>, b: seq<Receipt>, silence: nat)
    requires silence < MaxSilenceFrames
    requires DetectFrom(classify, a, silence).stop != InputExhausted
    ensures DetectFrom(classify, a + b, silence) == DetectFrom(classify, a, silence)
    decreases |a|
  {
    assert (a + b)[0] == a[0];
    assert (a + b)[1..] == a[1..] + b;
    if a[0].Received? && |a[0].data| > 0 {
      var next := NextSilence(silence, Verdict(classify, a[0].data));
      if next < MaxSilenceFrames {
        NothingConsumedAfterStop(classify, a[1..], b, next);
      }
    }
  }

  /** An empty chunk ends detection: it is not yielded, everything before it is,
      and whatever follows it is never read. */
  lemma EmptyChunkEnds(classify: Classifier, before: seq<Receipt>, after: seq<Receipt>)
    requires DetectEndOfSpeech(classify, before).stop == InputExhausted
    ensures var d := DetectEndOfSpeech(classify, before + [Received([])] + after);
      && d.chunks == DetectEndOfSpeech(classify, before).chunks
      && d.consumed == |before| + 1
      && d.stop == EmptyChunk
  {
    var d1 := DetectEndOfSpeech(classify, before);
    DetectAppend(classify, before, [Received([])] + after, 0);
    assert before + [Received([])] + after == before + ([Received([])] + after);
  }

  // ------------------------------------------------------- the loop as written

  /** Detection from position `i` that reads a non-empty chunk and keeps listening
      yields that chunk and then whatever detection from `i + 1` yields. */
  lemma DetectFromStep(classify: Classifier, input: seq<Receipt>, i: nat, silence: nat)
    requires i < |input| && silence < MaxSilenceFrames
    requires input[i].Received? && |input[i].data| > 0
    requires NextSilence(silence, Verdict(classify, input[i].data)) < MaxSilenceFrames
    ensures var next := NextSilence(silence, Verdict(classify, input[i].data));
      && DetectFrom(classify, input[i..], silence).chunks == [input[i].data] + DetectFrom(classify, input[i + 1..], next).chunks
      && DetectFrom(classify, input[i..], silence).stop == DetectFrom(classify, input[i + 1..], next).stop
  {
    assert input[i..][0] == input[i];
    assert input[i..][1..] == input[i + 1..];
    DetectFromCons(classify, input[i..], silence);
  }

  /** The `while True` loop of `detect_end_of_speech`, receipt by receipt. */
  method DetectLoop(classify: Classifier, input: seq<Receipt>) returns (chunks: seq<Chunk>, stop: StopReason)
    ensures chunks == DetectEndOfSpeech(classify, input).chunks
    ensures stop == DetectEndOfSpeech(classify, input).stop
  {
    var silence: nat := 0;
    var i := 0;
    chunks := [];
    assert input[0..] == input;
    while true
      invariant 0 <= i <= |input|
      invariant silence < MaxSilenceFrames
      invariant DetectEndOfSpeech(classify, input).chunks == chunks + DetectFrom(classify, input[i..], silence).chunks
      invariant DetectEndOfSpeech(classify, input).stop == DetectFrom(classify, input[i..], silence).stop
      decreases |input| - i
    {
      if i == |input| {
        return chunks, InputExhausted;
      }
      assert input[i..][0] == input[i];
      if input[i].ReceiveFailed? {
        return chunks, ReceiveError;
      }
      var data := input[i].data;
      if |data| == 0 {
        return chunks, EmptyChunk;
      }
      // a chunk shorter than a frame is never classified; a raising classifier
      // leaves the counter as it was
      var next := NextSilence(silence, Verdict(classify, data));
      if next >= MaxSilenceFrames {
        return chunks + [data], SilenceThreshold;
      }
      DetectFromStep(classify, input, i, silence);
      chunks := chunks + [data];
      i := i + 1;
      silence := next;
    }
  }
}
