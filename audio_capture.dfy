/** The capture source: resolving the audio device by name, and turning one
    block of decoded 16-bit samples into mono. */
module AudioCapture {
  import opened Wrappers
  import opened Pcm

  // ---------------------------------------------------------------------
  // Device lookup
  // ---------------------------------------------------------------------

  /** Lower-casing of one character, restricted to the ASCII letters. */
  function LowerChar(c: char): char
  {
    if 'A' <= c <= 'Z' then (c as int + 32) as char else c
  }

  /** `str.lower()`, character by character. */
  function Lower(s: string): (r: string)
    ensures |r| == |s|
    ensures forall i :: 0 <= i < |s| ==> r[i] == LowerChar(s[i])
  {
    if s == [] then [] else [LowerChar(s[0])] + Lower(s[1..])
  }

  /** `needle` occurs in `hay` starting at position `i`. */
  ghost predicate OccursAt(needle: string, hay: string, i: int)
  {
    0 <= i && i + |needle| <= |hay| && hay[i..i + |needle|] == needle
  }

  /** `needle` occurs somewhere in `hay`. */
  ghost predicate IsSubstring(needle: string, hay: string)
  {
    exists i :: OccursAt(needle, hay, i)
  }

  /** Python's `needle in hay` on strings, scanning from the left. */
  function Contains(hay: string, needle: string): bool
    decreases |hay|
  {
    if |needle| > |hay| then false
    else if hay[..|needle|] == needle then true
    else Contains(hay[1..], needle)
  }

  /** The device called `name` is selected by `selector`: the lower-cased
      selector is a substring of the lower-cased name. */
  function Matches(selector: string, name: string): bool
  {
    Contains(Lower(name), Lower(selector))
  }

  /** What the capture source is configured with once a device is found. */
  datatype SystemAudioStream = SystemAudioStream(rate: nat, chunk: nat, deviceIndex: nat)

  datatype CaptureError = DeviceNotFound(deviceName: string)

  /** `_find_device_index`: the index of the first enumerated device whose name
      the selector matches, or None when there is none. */
  method FindDeviceIndex(names: seq<string>, deviceName: string) returns (r: Option<nat>)
    ensures r.Some? ==> r.value < |names| && Matches(deviceName, names[r.value])
    ensures r.Some? ==> forall j :: 0 <= j < r.value ==> !Matches(deviceName, names[j])
    ensures r.None? <==> forall j :: 0 <= j < |names| ==> !Matches(deviceName, names[j])
  {
    var i := 0;
    while i < |names|
      invariant 0 <= i <= |names|
      invariant forall j :: 0 <= j < i ==> !Matches(deviceName, names[j])
    {
      if Matches(deviceName, names[i]) {
        return Some(i);
      }
      i := i + 1;
    }
    return None;
  }

  /** The constructor of `SystemAudioStream`: looks the device up among the
      enumerated `names` and fails with DeviceNotFound when nothing matches. */
  method Open(names: seq<string>, deviceName: string, rate: nat, chunk: nat)
    returns (r: Result<SystemAudioStream, CaptureError>)
    ensures r.Failure? <==> forall j :: 0 <= j < |names| ==> !Matches(deviceName, names[j])
    ensures r.Failure? ==> r.error == DeviceNotFound(deviceName)
    ensures r.Success? ==> r.value.rate == rate && r.value.chunk == chunk
    ensures r.Success? ==> r.value.deviceIndex < |names| && Matches(deviceName, names[r.value.deviceIndex])
    ensures r.Success? ==> forall j :: 0 <= j < r.value.deviceIndex ==> !Matches(deviceName, names[j])
  {
    var index := FindDeviceIndex(names, deviceName);
    if index.None? {
      return Failure(DeviceNotFound(deviceName));
    }
    return Success(SystemAudioStream(rate, chunk, index.value));
  }

  /** The lower-cased string holds no upper-case ASCII letter. */
  lemma {:induction false} LowerHasNoUpper(s: string)
    ensures forall i :: 0 <= i < |Lower(s)| ==> !('A' <= Lower(s)[i] <= 'Z')
  {
  }

  /** Lower-casing twice is lower-casing once. */
  lemma {:induction false} LowerIdempotent(s: string)
    ensures Lower(Lower(s)) == Lower(s)
  {
  }

  /** Dropping the first character of the haystack shifts every occurrence
      after position 0 one place to the left. */
  lemma {:induction false} OccursAtShift(needle: string, hay: string, i: int)
    requires 1 <= i && |hay| >= 1
    ensures OccursAt(needle, hay, i) <==> OccursAt(needle, hay[1..], i - 1)
  {
    if i + |needle| <= |hay| {
      assert hay[1..][i - 1..i - 1 + |needle|] == hay[i..i + |needle|];
    }
  }

  /** `Contains` is the substring test: it holds exactly when the needle
      occurs at some position of the haystack. */
  lemma {:induction false} ContainsIffSubstring(hay: string, needle: string)
    ensures Contains(hay, needle) <==> IsSubstring(needle, hay)
    decreases |hay|
  {
    if |needle| > |hay| {
    } else if hay[..|needle|] == needle {
      assert OccursAt(needle, hay, 0);
    } else {
      ContainsIffSubstring(hay[1..], needle);
      forall i | 1 <= i
        ensures OccursAt(needle, hay, i) <==> OccursAt(needle, hay[1..], i - 1)
      {
        OccursAtShift(needle, hay, i);
      }
      if IsSubstring(needle, hay[1..]) {
        var i :| OccursAt(needle, hay[1..], i);
        assert OccursAt(needle, hay, i + 1);
      }
    }
  }

  /** A lookup selects the device when the selector occurs in its name, in
      whichever case either is written. */
  lemma {:induction false} MatchesIffSubstring(selector: string, name: string)
    ensures Matches(selector, name) <==> IsSubstring(Lower(selector), Lower(name))
  {
    ContainsIffSubstring(Lower(name), Lower(selector));
  }

  /** The selector "blackhole" selects "BlackHole 2ch": it occurs in the name
      once both are lower-cased. */
  lemma BlackHoleMatches(selector: string, name: string)
    requires selector == "blackhole" && name == "BlackHole 2ch"
    ensures Matches(selector, name)
  {
    var hay, needle := Lower(name), Lower(selector);
    assert hay[0] == 'b' && hay[1] == 'l' && hay[2] == 'a' && hay[3] == 'c' && hay[4] == 'k';
    assert hay[5] == 'h' && hay[6] == 'o' && hay[7] == 'l' && hay[8] == 'e';
    assert needle == "blackhole";
    assert hay[..|needle|] == needle;
    assert Contains(hay, needle);
  }

  /** A selector that occurs in no device name does not select it. */
  lemma NonexistentDoesNotMatch(selector: string, name: string)
    requires selector == "nonexistent" && name == "BlackHole 2ch"
    ensures !Matches(selector, name)
  {
    var hay, needle := Lower(name), Lower(selector);
    assert |hay| == 13 && |needle| == 11;
    assert needle[0] == 'n';
    assert hay[0] == 'b' && hay[1] == 'l' && hay[2] == 'a';
    assert hay[..11] != needle;
    assert hay[1..][..11] != needle;
    assert hay[1..][1..][..11] != needle;
    assert !Contains(hay[1..][1..][1..], needle);
    assert !Contains(hay[1..][1..], needle);
    assert !Contains(hay[1..], needle);
  }

  /** With the single device "BlackHole 2ch", the selector "blackhole" opens it
      (it occurs in the name once both are lower-cased) and the selector
      "nonexistent" is refused with DeviceNotFound. */
  method ScenarioOpen(device: string, selector: string, other: string)
    returns (found: Result<SystemAudioStream, CaptureError>, missing: Result<SystemAudioStream, CaptureError>)
    requires device == "BlackHole 2ch" && selector == "blackhole" && other == "nonexistent"
    ensures found == Success(SystemAudioStream(16000, 1024, 0))
    ensures missing == Failure(DeviceNotFound(other))
  {
    BlackHoleMatches(selector, device);
    NonexistentDoesNotMatch(other, device);
    var names := [device];
    assert names[0] == device;
    found := Open(names, selector, 16000, 1024);
    missing := Open(names, other, 16000, 1024);
  }

  /** The empty selector matches every device, so the first one is chosen. */
  lemma EmptySelectorMatchesAll(name: string)
    ensures Matches("", name)
  {
    assert Lower(name)[..0] == Lower("");
  }

  // ---------------------------------------------------------------------
  // Stereo downmix
  // ---------------------------------------------------------------------

  /** Halving with the quotient rounded toward zero, as the cast of a float64
      to int16 does. */
  function HalfTowardZero(n: int): (q: int)
    ensures n >= 0 ==> 0 <= n - 2 * q <= 1
    ensures n < 0 ==> -1 <= n - 2 * q <= 0
  {
    if n >= 0 then n / 2 else -((-n) / 2)
  }

  /** The mean of one stereo frame, cast back to int16. It lies between the
      two channel samples, so the cast can never leave the int16 range. */
  function FrameMean(left: Int16, right: Int16): (m: Int16)
    ensures left <= m <= right || right <= m <= left
  {
    HalfTowardZero(left as int + right)
  }

  /** `reshape(-1, 2).mean(axis=1).astype(np.int16)` on interleaved samples. */
  function MeanPairs(s: seq<Int16>): (r: seq<Int16>)
    requires |s| % 2 == 0
    ensures |r| == |s| / 2
    ensures forall i :: 0 <= i < |r| ==> r[i] == FrameMean(s[2 * i], s[2 * i + 1])
    decreases |s|
  {
    if s == [] then [] else [FrameMean(s[0], s[1])] + MeanPairs(s[2..])
  }

  /** The sample transform of `read_chunk`: a block of `2 * chunk` interleaved
      stereo samples becomes `chunk` mono samples; anything else is returned as
      it came. */
  function Downmix(audio: seq<Int16>, chunk: nat): (r: seq<Int16>)
  {
    if |audio| == 2 * chunk then MeanPairs(audio) else audio
  }

  /** A stereo block gives exactly `chunk` mono samples, each the mean of its
      frame rounded toward zero. */
  lemma {:induction false} DownmixStereo(audio: seq<Int16>, chunk: nat)
    requires |audio| == 2 * chunk
    ensures |Downmix(audio, chunk)| == chunk
    ensures forall i :: 0 <= i < chunk ==>
      Downmix(audio, chunk)[i] == HalfTowardZero(audio[2 * i] as int + audio[2 * i + 1])
  {
  }

  /** A block of any other length is passed through unchanged. */
  lemma {:induction false} DownmixOtherLength(audio: seq<Int16>, chunk: nat)
    requires |audio| != 2 * chunk
    ensures Downmix(audio, chunk) == audio
  {
  }

  /** Each mono sample lies between the two samples of its frame. */
  lemma {:induction false} DownmixBetween(audio: seq<Int16>, chunk: nat, i: nat)
    requires |audio| == 2 * chunk && i < chunk
    ensures var m := Downmix(audio, chunk)[i];
      audio[2 * i] <= m <= audio[2 * i + 1] || audio[2 * i + 1] <= m <= audio[2 * i]
  {
  }

  /** When both channels carry the same signal, the downmix is that signal. */
  lemma {:induction false} DownmixDualMono(audio: seq<Int16>, chunk: nat)
    requires |audio| == 2 * chunk
    requires forall i :: 0 <= i < chunk ==> audio[2 * i] == audio[2 * i + 1]
    ensures forall i :: 0 <= i < chunk ==> Downmix(audio, chunk)[i] == audio[2 * i]
  {
  }

  /** Rounding is toward zero, not down: the frame (-1, -2) averages to -1. */
  lemma DownmixTruncates()
    ensures Downmix([-1, -2], 1) == [-1]
  {
  }
}
