/** The transcription worker: a FIFO of PCM blocks, a running sample buffer
    cut into fixed-length segments, inference on each segment, and delivery of
    the non-empty stripped transcripts to a callback. */
module Transcriber {
  import opened Wrappers
  import opened Pcm

  // ---------------------------------------------------------------------
  // Stripping transcripts
  // ---------------------------------------------------------------------

  /** The characters Python's `str.isspace()` accepts, and so the ones
      `str.strip()` removes. */
  predicate IsSpace(c: char)
  {
    || '\t' <= c <= '\r'
    || '\U{1C}' <= c <= ' '
    || c == '\U{85}' || c == '\U{A0}' || c == '\U{1680}'
    || '\U{2000}' <= c <= '\U{200A}'
    || c == '\U{2028}' || c == '\U{2029}' || c == '\U{202F}' || c == '\U{205F}' || c == '\U{3000}'
  }

  /** The first position at or after `i` that does not hold whitespace: the
      left scan of `str.strip()`. */
  function SkipSpaceForward(s: string, i: nat): (r: nat)
    requires i <= |s|
    ensures i <= r <= |s|
    ensures forall k :: i <= k < r ==> IsSpace(s[k])
    ensures r < |s| ==> !IsSpace(s[r])
    decreases |s| - i
  {
    if i < |s| && IsSpace(s[i]) then SkipSpaceForward(s, i + 1) else i
  }

  /** The end of `s[lo..j]` once its trailing whitespace is dropped, never
      below `lo`: the right scan of `str.strip()`. */
  function SkipSpaceBackward(s: string, lo: nat, j: nat): (r: nat)
    requires lo <= j <= |s|
    ensures lo <= r <= j
    ensures forall k :: r <= k < j ==> IsSpace(s[k])
    ensures r > lo ==> !IsSpace(s[r - 1])
    decreases j
  {
    if j > lo && IsSpace(s[j - 1]) then SkipSpaceBackward(s, lo, j - 1) else j
  }

  /** `str.strip()`: the slice between the two scans. */
  function Strip(s: string): string
  {
    var i := SkipSpaceForward(s, 0);
    s[i..SkipSpaceBackward(s, i, |s|)]
  }

  /** The stripped text neither starts nor ends with whitespace. */
  lemma StripEnds(s: string)
    ensures Strip(s) != [] ==> !IsSpace(Strip(s)[0]) && !IsSpace(Strip(s)[|Strip(s)| - 1])
  {
  }

  /** Stripping yields the empty string exactly when the input is all whitespace. */
  lemma StripEmptyIffBlank(s: string)
    ensures Strip(s) == "" <==> forall k :: 0 <= k < |s| ==> IsSpace(s[k])
  {
    var i := SkipSpaceForward(s, 0);
    var j := SkipSpaceBackward(s, i, |s|);
    if i < |s| {
      assert !IsSpace(s[i]);
      assert i < j;
    }
  }

  /** A stripped string is left alone by a second strip. */
  lemma StripIdempotent(s: string)
    ensures Strip(Strip(s)) == Strip(s)
  {
    var r := Strip(s);
    StripEnds(s);
    if r != [] {
      assert SkipSpaceForward(r, 0) == 0;
      assert SkipSpaceBackward(r, 0, |r|) == |r|;
    }
  }

  // ---------------------------------------------------------------------
  // Segmentation
  // ---------------------------------------------------------------------

  /** `np.concatenate` of a list of blocks. */
  function Flatten(blocks: seq<seq<Int16>>): seq<Int16>
  {
    if blocks == [] then [] else blocks[0] + Flatten(blocks[1..])
  }

  /** The segments the inner `while` cuts off the front of `samples`, in order. */
  function Segments(samples: seq<Int16>, n: nat): (segs: seq<seq<Int16>>)
    requires n > 0
    ensures forall k :: 0 <= k < |segs| ==> |segs[k]| == n
    decreases |samples|
  {
    if |samples| < n then [] else [samples[..n]] + Segments(samples[n..], n)
  }

  /** What the inner `while` leaves in the buffer. */
  function Remainder(samples: seq<Int16>, n: nat): (rest: seq<Int16>)
    requires n > 0
    ensures |rest| < n
    decreases |samples|
  {
    if |samples| < n then samples else Remainder(samples[n..], n)
  }

  lemma {:induction false} FlattenAppend(a: seq<seq<Int16>>, b: seq<seq<Int16>>)
    ensures Flatten(a + b) == Flatten(a) + Flatten(b)
  {
    if a == [] {
      assert a + b == b;
    } else {
      assert (a + b)[1..] == a[1..] + b;
      FlattenAppend(a[1..], b);
    }
  }

  /** No sample is lost, duplicated or reordered: the segments followed by the
      remainder are exactly the input. */
  lemma {:induction false} SegmentsRoundTrip(samples: seq<Int16>, n: nat)
    requires n > 0
    ensures Flatten(Segments(samples, n)) + Remainder(samples, n) == samples
    decreases |samples|
  {
    if |samples| >= n {
      var segs := Segments(samples, n);
      SegmentsRoundTrip(samples[n..], n);
      assert segs[1..] == Segments(samples[n..], n);
      assert samples == samples[..n] + samples[n..];
    }
  }

  /** Segmenting a whole number of segments followed by anything gives those
      segments first; the tail decides the rest. */
  lemma {:induction false} SegmentsAfterWhole(segs: seq<seq<Int16>>, tail: seq<Int16>, n: nat)
    requires n > 0
    requires forall k :: 0 <= k < |segs| ==> |segs[k]| == n
    ensures Segments(Flatten(segs) + tail, n) == segs + Segments(tail, n)
    ensures Remainder(Flatten(segs) + tail, n) == Remainder(tail, n)
  {
    if segs == [] {
      assert Flatten(segs) + tail == tail;
    } else {
      var all := Flatten(segs) + tail;
      var rest := Flatten(segs[1..]) + tail;
      assert Flatten(segs) == segs[0] + Flatten(segs[1..]);
      AppendAssoc(segs[0], Flatten(segs[1..]), tail);
      assert all == segs[0] + rest;
      assert |segs[0]| == n;
      assert all[..n] == segs[0] && all[n..] == rest;
      assert Segments(all, n) == [segs[0]] + Segments(rest, n);
      assert Remainder(all, n) == Remainder(rest, n);
      SegmentsAfterWhole(segs[1..], tail, n);
      assert segs == [segs[0]] + segs[1..];
      AppendAssoc([segs[0]], segs[1..], Segments(tail, n));
    }
  }

  /** Segmenting block by block, carrying the remainder forward, is segmenting
      the whole stream at once. */
  lemma {:induction false} SegmentsIncremental(taken: seq<seq<Int16>>, block: seq<Int16>, n: nat)
    requires n > 0
    ensures var before := Flatten(taken); var total := Remainder(before, n) + block;
      && Segments(Flatten(taken + [block]), n) == Segments(before, n) + Segments(total, n)
      && Remainder(Flatten(taken + [block]), n) == Remainder(total, n)
  {
    var before := Flatten(taken);
    var total := Remainder(before, n) + block;
    FlattenAppend(taken, [block]);
    assert Flatten([block]) == block;
    SegmentsRoundTrip(before, n);
    assert Flatten(taken + [block]) == Flatten(Segments(before, n)) + total;
    SegmentsAfterWhole(Segments(before, n), total, n);
  }

  /** The number of segments cut from `samples` is `|samples| / n`. */
  lemma {:induction false} SegmentCount(samples: seq<Int16>, n: nat)
    requires n > 0
    ensures |Segments(samples, n)| == |samples| / n
    ensures |Remainder(samples, n)| == |samples| % n
  {
    SegmentsRoundTrip(samples, n);
    FlattenLength(Segments(samples, n), n);
    DivModUnique(|samples|, n, |Segments(samples, n)|, |Remainder(samples, n)|);
  }

  lemma {:induction false} FlattenLength(segs: seq<seq<Int16>>, n: nat)
    requires forall k :: 0 <= k < |segs| ==> |segs[k]| == n
    ensures |Flatten(segs)| == |segs| * n
  {
    if segs != [] {
      FlattenLength(segs[1..], n);
    }
  }

  /** Euclidean division is determined by its quotient-remainder equation. */
  lemma DivModUnique(m: nat, n: nat, q: nat, r: nat)
    requires n > 0 && r < n && m == q * n + r
    ensures q == m / n && r == m % n
  {
    var q', r' := m / n, m % n;
    if q < q' {
      MulGrows(q, q' - q, n);
    } else if q > q' {
      MulGrows(q', q - q', n);
    }
  }

  /** Raising a factor by at least one raises the product by at least `n`. */
  lemma MulGrows(a: nat, d: nat, n: nat)
    requires d >= 1
    ensures (a + d) * n >= a * n + n
  {
    assert (a + d) * n == a * n + d * n;
  }

  /** Blocks adding up to a whole number of segments are segmented without a
      remainder, into `total / n` segments whose concatenation is the input. */
  lemma {:induction false} ExactMultiple(samples: seq<Int16>, n: nat)
    requires n > 0 && |samples| % n == 0
    ensures Remainder(samples, n) == []
    ensures |Segments(samples, n)| == |samples| / n
    ensures Flatten(Segments(samples, n)) == samples
  {
    SegmentCount(samples, n);
    SegmentsRoundTrip(samples, n);
  }

  /** With 16000 Hz and 2.0 s segments (32000 samples), three 1024-sample
      blocks give no segment, and topping them up to exactly 32000 samples gives
      exactly one segment and an empty buffer. */
  lemma {:induction false} ScenarioDefaultRate(b1: seq<Int16>, b2: seq<Int16>, b3: seq<Int16>, top: seq<Int16>)
    requires |b1| == 1024 && |b2| == 1024 && |b3| == 1024 && |top| == 32000 - 3072
    ensures Segments(b1 + b2 + b3, 32000) == [] && Remainder(b1 + b2 + b3, 32000) == b1 + b2 + b3
    ensures Segments(b1 + b2 + b3 + top, 32000) == [b1 + b2 + b3 + top]
    ensures Remainder(b1 + b2 + b3 + top, 32000) == []
  {
    var all := b1 + b2 + b3 + top;
    assert all[..32000] == all;
    assert all[32000..] == [];
  }

  // ---------------------------------------------------------------------
  // Inference and delivery
  // ---------------------------------------------------------------------

  /** The speech model, as a function of one segment: `transcribe(...)` followed
      by the lookup of the `'text'` entry, None when the entry is missing. */
  type Inference = seq<Int16> -> Option<string>

  /** `result.get('text', '').strip()` for one segment. */
  function SegmentText(model: Inference, segment: seq<Int16>): string
  {
    Strip(model(segment).GetOr(""))
  }

  /** The texts the callback receives for `segments`, in order: one per
      segment whose stripped text is non-empty. */
  function Transcripts(model: Inference, segments: seq<seq<Int16>>): seq<string>
  {
    if segments == [] then []
    else
      var t := SegmentText(model, segments[0]);
      (if t != "" then [t] else []) + Transcripts(model, segments[1..])
  }

  /** The positions, from `from` on and in increasing order, of the segments
      whose text is delivered: exactly those whose stripped text is non-empty. */
  function DeliveredFrom(model: Inference, segments: seq<seq<Int16>>, from: nat): (idx: seq<nat>)
    ensures forall k :: 0 <= k < |idx| ==> from <= idx[k] < |segments|
    ensures forall k, l :: 0 <= k < l < |idx| ==> idx[k] < idx[l]
    ensures forall i :: from <= i < |segments| ==> (SegmentText(model, segments[i]) != "" <==> i in idx)
    decreases |segments| - from
  {
    if from >= |segments| then []
    else (if SegmentText(model, segments[from]) != "" then [from] else [])
         + DeliveredFrom(model, segments, from + 1)
  }

  lemma {:induction false} TranscriptsAppend(model: Inference, a: seq<seq<Int16>>, b: seq<seq<Int16>>)
    ensures Transcripts(model, a + b) == Transcripts(model, a) + Transcripts(model, b)
  {
    if a == [] {
      assert a + b == b;
    } else {
      assert (a + b)[1..] == a[1..] + b;
      TranscriptsAppend(model, a[1..], b);
    }
  }

  lemma AppendAssoc<T>(a: seq<T>, b: seq<T>, c: seq<T>)
    ensures (a + b) + c == a + (b + c)
  {
  }

  lemma {:induction false} TranscriptsSingle(model: Inference, segment: seq<Int16>)
    ensures var t := SegmentText(model, segment);
      Transcripts(model, [segment]) == if t != "" then [t] else []
  {
    assert [segment][1..] == [];
  }

  /** Every delivered text is non-empty and already stripped, and there is at
      most one per segment. */
  lemma {:induction false} TranscriptsStripped(model: Inference, segments: seq<seq<Int16>>)
    ensures |Transcripts(model, segments)| <= |segments|
    ensures forall k :: 0 <= k < |Transcripts(model, segments)| ==>
      Transcripts(model, segments)[k] != "" && Strip(Transcripts(model, segments)[k]) == Transcripts(model, segments)[k]
  {
    if segments != [] {
      TranscriptsStripped(model, segments[1..]);
      StripIdempotent(model(segments[0]).GetOr(""));
    }
  }

  /** Delivery is exactly once and in segment order: the k-th delivered text
      is the text of the k-th segment whose stripped text is non-empty. */
  lemma {:induction false} TranscriptsInOrder(model: Inference, segments: seq<seq<Int16>>, from: nat)
    requires from <= |segments|
    ensures |Transcripts(model, segments[from..])| == |DeliveredFrom(model, segments, from)|
    ensures forall k :: 0 <= k < |DeliveredFrom(model, segments, from)| ==>
      Transcripts(model, segments[from..])[k] == SegmentText(model, segments[DeliveredFrom(model, segments, from)[k]])
    decreases |segments| - from
  {
    if from < |segments| {
      TranscriptsInOrder(model, segments, from + 1);
      assert segments[from..][1..] == segments[from + 1..];
      assert segments[from..][0] == segments[from];
    }
  }

  // ---------------------------------------------------------------------
  // The worker
  // ---------------------------------------------------------------------

  /** `WhisperTranscriber`: the queue the capture loop feeds, and the state the
      worker loop keeps between dequeues. */
  class WhisperTranscriber {
    const model: Inference
    const chunkSamples: nat
    var audioBuffer: seq<Int16>
    var audioQueue: seq<seq<Int16>>

    // The history the worker's behaviour is judged against.
    ghost var submitted: seq<seq<Int16>>  // every block passed to AddAudio
    ghost var dequeued: seq<seq<Int16>>   // every block the worker has taken
    ghost var segments: seq<seq<Int16>>   // every segment handed to inference
    ghost var delivered: seq<string>      // every text passed to the callback

    /** The queue is what was submitted and not yet taken; the buffer, the
        segments and the deliveries are determined by the samples taken. */
    ghost predicate Valid()
      reads this
    {
      && chunkSamples > 0
      && submitted == dequeued + audioQueue
      && segments == Segments(Flatten(dequeued), chunkSamples)
      && audioBuffer == Remainder(Flatten(dequeued), chunkSamples)
      && delivered == Transcripts(model, segments)
    }

    /** `__init__` with the segment length already computed; the buffer and the
        queue start empty. */
    constructor (model: Inference, chunkSamples: nat)
      requires chunkSamples > 0
      ensures Valid()
      ensures this.model == model && this.chunkSamples == chunkSamples
      ensures audioBuffer == [] && audioQueue == []
      ensures submitted == [] && dequeued == [] && segments == [] && delivered == []
    {
      this.model := model;
      this.chunkSamples := chunkSamples;
      audioBuffer := [];
      audioQueue := [];
      submitted := [];
      dequeued := [];
      segments := [];
      delivered := [];
    }

    /** `add_audio`: put the block at the back of the queue. */
    method AddAudio(block: seq<Int16>)
      requires Valid()
      modifies this
      ensures Valid()
      ensures audioQueue == old(audioQueue) + [block]
      ensures submitted == old(submitted) + [block]
      ensures audioBuffer == old(audioBuffer) && dequeued == old(dequeued)
      ensures segments == old(segments) && delivered == old(delivered)
    {
      audioQueue := audioQueue + [block];
      submitted := submitted + [block];
    }

    /** One pass of the worker loop. On an empty queue the `get` times out and
        nothing changes. Otherwise the front block is appended to the buffer and
        the buffer is drained (DrainBuffer). */
    method Step() returns (got: bool, texts: seq<string>)
      requires Valid()
      modifies this
      ensures Valid()
      ensures got == (old(audioQueue) != [])
      ensures submitted == old(submitted)
      ensures !got ==> (texts == [] && audioQueue == old(audioQueue) && audioBuffer == old(audioBuffer)
        && dequeued == old(dequeued) && segments == old(segments) && delivered == old(delivered))
      ensures got ==> var total := old(audioBuffer) + old(audioQueue)[0];
        && audioQueue == old(audioQueue)[1..]
        && dequeued == old(dequeued) + [old(audioQueue)[0]]
        && audioBuffer == Remainder(total, chunkSamples)
        && segments == old(segments) + Segments(total, chunkSamples)
        && texts == Transcripts(model, Segments(total, chunkSamples))
        && delivered == old(delivered) + texts
    {
      if audioQueue == [] {
        return false, [];
      }
      got := true;
      var block := audioQueue[0];
      audioQueue := audioQueue[1..];
      dequeued := dequeued + [block];
      audioBuffer := audioBuffer + block;
      ghost var total := audioBuffer;
      texts := DrainBuffer();
      assert old(audioQueue) == [block] + audioQueue;
      AppendAssoc(old(dequeued), [block], audioQueue);
      SegmentsIncremental(old(dequeued), block, chunkSamples);
      TranscriptsAppend(model, old(segments), Segments(total, chunkSamples));
    }

    /** The inner `while`: as long as the buffer holds a whole segment, cut it
        off the front, transcribe it, and pass its stripped text to the
        callback when that text is non-empty. */
    method DrainBuffer() returns (texts: seq<string>)
      requires chunkSamples > 0
      modifies this`audioBuffer, this`segments, this`delivered
      ensures audioBuffer == Remainder(old(audioBuffer), chunkSamples)
      ensures segments == old(segments) + Segments(old(audioBuffer), chunkSamples)
      ensures texts == Transcripts(model, Segments(old(audioBuffer), chunkSamples))
      ensures delivered == old(delivered) + texts
    {
      ghost var total := audioBuffer;
      ghost var emitted: seq<seq<Int16>> := [];
      texts := [];
      while |audioBuffer| >= chunkSamples
        invariant emitted + Segments(audioBuffer, chunkSamples) == Segments(total, chunkSamples)
        invariant Remainder(audioBuffer, chunkSamples) == Remainder(total, chunkSamples)
        invariant texts == Transcripts(model, emitted)
        invariant segments == old(segments) + emitted
        invariant delivered == old(delivered) + texts
        decreases |audioBuffer|
      {
        var chunk := audioBuffer[..chunkSamples];
        assert Segments(audioBuffer, chunkSamples) == [chunk] + Segments(audioBuffer[chunkSamples..], chunkSamples);
        audioBuffer := audioBuffer[chunkSamples..];
        segments := segments + [chunk];
        var text := SegmentText(model, chunk);
        if text != "" {
          AppendAssoc(old(delivered), texts, [text]);
          texts := texts + [text];
          delivered := delivered + [text];
        }
        TranscriptsAppend(model, emitted, [chunk]);
        TranscriptsSingle(model, chunk);
        AppendAssoc(emitted, [chunk], Segments(audioBuffer, chunkSamples));
        AppendAssoc(old(segments), emitted, [chunk]);
        emitted := emitted + [chunk];
      }
      assert Segments(audioBuffer, chunkSamples) == [];
      assert emitted == Segments(total, chunkSamples);
    }
  }

  /** The default configuration driven through the worker: three 1024-sample
      blocks deliver nothing, and a fourth block that brings the total to
      exactly 32000 samples causes exactly one inference call, whose text is
      delivered unless it strips to nothing. */
  method ScenarioWorker(model: Inference, b1: seq<Int16>, b2: seq<Int16>, b3: seq<Int16>, top: seq<Int16>)
    returns (early: seq<string>, last: seq<string>, left: seq<Int16>)
    requires |b1| == 1024 && |b2| == 1024 && |b3| == 1024 && |top| == 32000 - 3072
    ensures early == []
    ensures last == (if SegmentText(model, b1 + b2 + b3 + top) != "" then [SegmentText(model, b1 + b2 + b3 + top)] else [])
    ensures left == []
  {
    var w := new WhisperTranscriber(model, 32000);
    w.AddAudio(b1);
    w.AddAudio(b2);
    w.AddAudio(b3);
    assert w.audioQueue == [b1, b2, b3];
    var got1, t1 := w.Step();
    assert w.audioBuffer == b1 && t1 == [] && w.audioQueue == [b2, b3];
    var got2, t2 := w.Step();
    assert w.audioBuffer == b1 + b2 && t2 == [] && w.audioQueue == [b3];
    var got3, t3 := w.Step();
    ScenarioDefaultRate(b1, b2, b3, top);
    assert w.audioBuffer == b1 + b2 + b3 && t3 == [] && w.audioQueue == [];
    early := t1 + t2 + t3;
    w.AddAudio(top);
    assert w.audioQueue == [top];
    var got4, t4 := w.Step();
    TranscriptsSingle(model, b1 + b2 + b3 + top);
    last := t4;
    left := w.audioBuffer;
  }
}
