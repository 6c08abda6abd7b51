# Live caption pipeline: capture and transcription core

This project models the part of the live-caption overlay that turns system audio into captions.

- **Capture source** (`audio_capture.py`, module `AudioCapture`). It picks the device whose name contains the configured selector, ignoring case; the first match in enumeration order wins. If no device matches, construction fails. It also turns each decoded block of interleaved stereo `int16` samples into mono: each frame's two samples are averaged, and the cast back to `int16` truncates toward zero.
- **Transcription worker** (`transcriber.py`, module `Transcriber`). The class `WhisperTranscriber` holds a FIFO of PCM blocks (`audioQueue`) and a running sample buffer (`audioBuffer`). One pass of the worker loop (`Step`) takes the front block and appends it to the buffer. While the buffer holds a whole segment of `chunkSamples` samples, the worker cuts that segment off the front and runs inference on it. It strips the resulting text and passes the text to the callback only when it is non-empty.

The worker's state is tied to its history by ghost fields and the class invariant `Valid()`:

- `submitted` is every block that was added.
- `dequeued` is every block that was taken.
- `segments` is every segment sent to inference.
- `delivered` is every text passed to the callback.

`Valid()` states that the queue is what was submitted and not yet taken (FIFO order). It also states that the segments, the buffer and the deliveries are fixed functions of the samples taken so far: `Segments`, `Remainder` and `Transcripts` of their concatenation. The lemmas about those functions carry the guarantees:

- no sample is lost, duplicated or reordered;
- every segment has exactly `chunkSamples` samples;
- the buffer always holds fewer than `chunkSamples` samples;
- one block yields `(|buffer| + |block|) / chunkSamples` segments;
- texts are delivered stripped, non-empty, at most one per segment and in segment order.

Samples are the subset type `Pcm.Int16`. The speech model is a function value of type `Transcriber.Inference`, taken by the constructor.

The cast `astype(np.int16)` at `audio_capture.py:36` truncates the float mean toward zero rather than rounding it to nearest: the frame (-1, -2) gives -1, not -2 (`DownmixTruncates`).

## Model

| member | source | states |
|---|---|---|
| AudioCapture.FindDeviceIndex | audio_capture.py:14-19 | returns the smallest index whose device name the selector matches; returns None exactly when no device matches |
| AudioCapture.Open | audio_capture.py:5-12 | fails with DeviceNotFound carrying the selector exactly when no device matches; otherwise keeps rate and chunk and selects the first matching device |
| AudioCapture.Lower | audio_capture.py:17 | lower-casing keeps the length and lowers each character in place |
| AudioCapture.LowerHasNoUpper | audio_capture.py:17 | a lowered string holds no upper-case letter |
| AudioCapture.LowerIdempotent | audio_capture.py:17 | lowering twice is lowering once |
| AudioCapture.ContainsIffSubstring | audio_capture.py:17 | the left-to-right `in` scan succeeds exactly when the needle occurs at some position of the haystack |
| AudioCapture.MatchesIffSubstring | audio_capture.py:17 | a device is selected exactly when the lowered selector occurs in the lowered device name |
| AudioCapture.BlackHoleMatches | audio_capture.py:17 | selector "blackhole" selects the device "BlackHole 2ch" |
| AudioCapture.NonexistentDoesNotMatch | audio_capture.py:17 | selector "nonexistent" does not select "BlackHole 2ch" |
| AudioCapture.EmptySelectorMatchesAll | audio_capture.py:15-18 | the empty selector matches every name, so the first device is taken |
| AudioCapture.ScenarioOpen | audio_capture.py:9-11 | with the one device "BlackHole 2ch", "blackhole" opens device 0 and "nonexistent" fails with DeviceNotFound |
| AudioCapture.HalfTowardZero | audio_capture.py:36 | halving rounds toward zero: the remainder is in [0, 1] for non-negative input and in [-1, 0] for negative input |
| AudioCapture.FrameMean | audio_capture.py:36 | the mono sample of a frame lies between its two channel samples, so the int16 cast never overflows |
| AudioCapture.MeanPairs | audio_capture.py:36 | an even-length interleaved block gives half as many samples, the i-th being the mean of samples 2i and 2i+1 |
| AudioCapture.DownmixStereo | audio_capture.py:35-36 | an input of 2·chunk samples gives exactly chunk samples, each (a[2i] + a[2i+1]) / 2 truncated toward zero |
| AudioCapture.DownmixOtherLength | audio_capture.py:35-37 | an input of any other length is returned unchanged |
| AudioCapture.DownmixBetween | audio_capture.py:36 | every mono sample lies between the two samples of its frame, so it stays in the int16 range |
| AudioCapture.DownmixDualMono | audio_capture.py:36 | when both channels carry the same signal, the downmix is that signal |
| AudioCapture.DownmixTruncates | audio_capture.py:36 | the frame (-1, -2) downmixes to -1: the rounding is toward zero, not floor |
| Transcriber.SkipSpaceForward | transcriber.py:39 | the left scan of strip stops at the first non-whitespace position, and every character it skips is whitespace |
| Transcriber.SkipSpaceBackward | transcriber.py:39 | the right scan of strip stops after the last non-whitespace character (never below the left end), and every character it drops is whitespace |
| Transcriber.StripEnds | transcriber.py:39 | a non-empty stripped text neither starts nor ends with whitespace |
| Transcriber.StripEmptyIffBlank | transcriber.py:39-40 | a text strips to the empty string exactly when it is all whitespace, which is exactly when the callback is skipped |
| Transcriber.StripIdempotent | transcriber.py:39 | stripping a stripped text changes nothing |
| Transcriber.Segments | transcriber.py:33-34 | every segment cut off has exactly chunkSamples samples |
| Transcriber.Remainder | transcriber.py:33-35 | what the drain leaves in the buffer is shorter than one segment |
| Transcriber.SegmentsRoundTrip | transcriber.py:32-35 | the segments concatenated, followed by the remainder, are exactly the buffered samples: nothing lost, duplicated or reordered |
| Transcriber.SegmentsAfterWhole | transcriber.py:33-35 | a whole number of segments followed by a tail segments as those segments followed by the tail's segments, with the tail's remainder |
| Transcriber.SegmentsIncremental | transcriber.py:32-35 | carrying the remainder into the next block and segmenting segments the whole stream, so block boundaries do not matter |
| Transcriber.SegmentCount | transcriber.py:33-35 | a drain emits (number of samples) / chunkSamples segments and leaves (number of samples) mod chunkSamples samples |
| Transcriber.ExactMultiple | transcriber.py:32-35 | samples totalling a multiple of the segment length leave no remainder and total / n segments that concatenate back to the input |
| Transcriber.ScenarioDefaultRate | transcriber.py:11-35 | with 32000-sample segments (16000 Hz × 2.0 s), three 1024-sample blocks give no segment, and reaching exactly 32000 samples gives one segment and an empty buffer |
| Transcriber.DeliveredFrom | transcriber.py:39-41 | the delivered positions are increasing and are exactly the segments whose stripped text is non-empty |
| Transcriber.TranscriptsAppend | transcriber.py:33-41 | the texts delivered for two runs of segments are the first run's texts followed by the second's |
| Transcriber.TranscriptsStripped | transcriber.py:39-41 | every delivered text is non-empty and already stripped, and there is at most one per segment |
| Transcriber.TranscriptsInOrder | transcriber.py:33-41 | the k-th delivered text is the text of the k-th segment with a non-empty stripped text: each is delivered exactly once, in segment order |
| Transcriber.WhisperTranscriber.constructor | transcriber.py:7-13 | the buffer and queue start empty and the invariant holds |
| Transcriber.WhisperTranscriber.AddAudio | transcriber.py:17-18 | adds the block at the back of the queue and changes nothing else |
| Transcriber.WhisperTranscriber.Step | transcriber.py:29-43 | on an empty queue (timeout) nothing changes; otherwise the front block is taken, the buffer becomes the remainder of old buffer ++ block, and its segments and texts are recorded; the invariant is kept |
| Transcriber.WhisperTranscriber.DrainBuffer | transcriber.py:33-41 | leaves the remainder of the buffer, records its segments in order, and returns and delivers exactly their non-empty stripped texts |
| Transcriber.ScenarioWorker | transcriber.py:11-41 | driving the worker with three 1024-sample blocks delivers nothing; one more block reaching 32000 samples delivers exactly that segment's text, if non-empty, and empties the buffer |

## Left out

- Whisper model loading and `transcribe` (transcriber.py:9, transcriber.py:38) are a foreign library. The model is the function parameter `Inference`: a segment maps to the `'text'` entry of the result, or None when that entry is missing.
- `Inference` also absorbs the float normalisation `chunk.astype(np.float32) / 32768.0` (transcriber.py:37), because that is floating-point work.
- The segment length `int(rate * chunk_duration)` (transcriber.py:11) is computed in floating point. The constructor takes the resulting sample count instead and requires it to be positive. With 0 (or a negative value) the inner `while` of transcriber.py:33 never ends.
- An exception raised by inference, which would end the worker thread, is not modelled: the model is a total function.
- Threads are not modelled: the `running` flag, `start`, `stop`, `join` and the 0.1 s queue timeout (transcriber.py:14-15, transcriber.py:20-31). `Step` is one pass of the loop; an empty queue stands for the timeout.
- What happens to buffered samples at shutdown is not modelled.
- The callback (transcriber.py:41) is modelled as the ghost log `delivered` plus the texts `Step` returns. The pause check in main.py applies after the callback and is not part of this model.
- PyAudio is not modelled: device enumeration is the `names` parameter, and `PyAudio()`, `open`, `stream.read`, `stop_stream`, `close`, `terminate` and the `stream` field (audio_capture.py:6, audio_capture.py:21-32, audio_capture.py:39-43) are device I/O.
- Byte decoding with `np.frombuffer` (audio_capture.py:33) depends on native byte order. The downmix starts from decoded `int16` samples.
- The error raised for a missing device is a `RuntimeError` with a message (audio_capture.py:11). It is modelled as `DeviceNotFound(deviceName)`; the message text is not modelled.
- The constructor defaults `device_name='BlackHole 2ch', rate=16000, chunk=1024` (audio_capture.py:5) and `model_name='base', rate=16000, chunk_duration=2.0` (transcriber.py:7) are not modelled as defaults. The device name, rate and chunk are required parameters of `Open`, and the segment length and model are required parameters of the `WhisperTranscriber` constructor.
- Lower: lower-cases only the ASCII letters A-Z. Python's `str.lower()` also lowers non-ASCII letters, so two names that differ only in non-ASCII case can match in Python but not here.
- overlay.py (Qt window, painting, two-line word wrap) and main.py (thread, signal and event-loop wiring, pause flag) are not part of this model.
