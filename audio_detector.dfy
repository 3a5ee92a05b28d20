/**
 * The clap detector of AudioDetector.tsx: on every animation-frame tick it
 * scans the analyser's time-domain byte buffer for its smallest and largest
 * sample, computes the peak-to-peak amplitude `(max - min) / 255`, and reports
 * a clap when that amplitude exceeds 0.6 and more than 1200 ms have passed
 * since the last reported clap.
 */
module AudioDetector {

  /** One unsigned 8-bit time-domain sample, an element of a `Uint8Array`. */
  type byte = x: int | 0 <= x < 256

  /** The amplitude a clap must exceed. */
  const Threshold: real := 0.6

  /** The time, in milliseconds, that must have passed since the last clap. */
  const DebounceMs: real := 1200.0

  /** The scan's running minimum: it starts at 255 and takes every smaller sample. */
  function Low(s: seq<byte>): int {
    if s == [] then 255
    else
      var m := Low(s[..|s| - 1]);
      if s[|s| - 1] < m then s[|s| - 1] else m
  }

  /** The scan's running maximum: it starts at 0 and takes every larger sample. */
  function High(s: seq<byte>): int {
    if s == [] then 0
    else
      var m := High(s[..|s| - 1]);
      if s[|s| - 1] > m then s[|s| - 1] else m
  }

  /** On a non-empty buffer the running minimum is a sample and no sample is below it. */
  lemma {:induction false} LowIsMinimum(s: seq<byte>)
    requires s != []
    ensures Low(s) in s
    ensures forall i :: 0 <= i < |s| ==> Low(s) <= s[i]
  {
    var init := s[..|s| - 1];
    if init != [] {
      LowIsMinimum(init);
      assert forall i :: 0 <= i < |init| ==> init[i] == s[i];
    }
  }

  /** On a non-empty buffer the running maximum is a sample and no sample is above it. */
  lemma {:induction false} HighIsMaximum(s: seq<byte>)
    requires s != []
    ensures High(s) in s
    ensures forall i :: 0 <= i < |s| ==> s[i] <= High(s)
  {
    var init := s[..|s| - 1];
    if init != [] {
      HighIsMaximum(init);
      assert forall i :: 0 <= i < |init| ==> init[i] == s[i];
    }
  }

  /** The min/max loop of one tick: it computes the running minimum and maximum of the buffer. */
  method ScanPeaks(data: array<byte>) returns (lo: int, hi: int)
    ensures lo == Low(data[..]) && hi == High(data[..])
    ensures data.Length == 0 ==> lo == 255 && hi == 0
    ensures data.Length > 0 ==> lo in data[..] && hi in data[..]
    ensures forall i :: 0 <= i < data.Length ==> lo <= data[i] <= hi
  {
    lo, hi := 255, 0;
    var i := 0;
    while i < data.Length
      invariant 0 <= i <= data.Length
      invariant lo == Low(data[..i]) && hi == High(data[..i])
    {
      assert data[..i + 1][..i] == data[..i];
      var v := data[i];
      if v < lo { lo := v; }
      if v > hi { hi := v; }
      i := i + 1;
    }
    assert data[..i] == data[..];
    if data.Length > 0 {
      LowIsMinimum(data[..]);
      HighIsMaximum(data[..]);
    }
  }

  /** `(max - min) / 255`, in exact arithmetic. */
  function Amplitude(lo: int, hi: int): real {
    (hi - lo) as real / 255.0
  }

  /** For a non-empty buffer of bytes the amplitude lies between 0 and 1. */
  lemma AmplitudeInUnitRange(s: seq<byte>)
    requires s != []
    ensures 0.0 <= Amplitude(Low(s), High(s)) <= 1.0
  {
    LowIsMinimum(s);
    HighIsMaximum(s);
    assert Low(s) <= s[0] <= High(s);
  }

  /** An empty buffer would leave min at 255 and max at 0: the amplitude would be -1. */
  lemma EmptyBufferAmplitude()
    ensures Amplitude(Low([]), High([])) == -1.0
  {
  }

  /**
   * On byte samples the threshold test is the integer test `max - min >= 154`:
   * a spread of 153 gives exactly 0.6, which does not exceed the threshold.
   */
  lemma ThresholdAsBytes(lo: byte, hi: byte)
    ensures Amplitude(lo, hi) > Threshold <==> hi - lo >= 154
  {
  }

  /** The condition under which a tick reports a clap; both comparisons are strict. */
  predicate IsClap(amplitude: real, now: real, lastClap: real) {
    amplitude > Threshold && now - lastClap > DebounceMs
  }

  /**
   * The times of reported claps, oldest first, starting from `start`: each one
   * more than the debounce window after the one before it (the first after `start`).
   */
  ghost predicate Spaced(claps: seq<real>, start: real) {
    (claps != [] ==> claps[0] - start > DebounceMs)
    && forall i :: 0 < i < |claps| ==> claps[i] - claps[i - 1] > DebounceMs
  }

  /**
   * Any two reported claps are more than the debounce window apart, in fact
   * more than one window per clap between them, however many loud samples
   * came in between.
   */
  lemma {:induction false} ClapsFarApart(claps: seq<real>, start: real, i: nat, j: nat)
    requires Spaced(claps, start)
    requires i < j < |claps|
    ensures claps[j] - claps[i] > DebounceMs * (j - i) as real
    ensures claps[j] - claps[i] > DebounceMs
  {
    if j > i + 1 {
      ClapsFarApart(claps, start, i, j - 1);
      assert claps[j] - claps[j - 1] > DebounceMs;
    }
  }

  /** Reported claps are more than the debounce window after `start` too. */
  lemma {:induction false} ClapsAfterStart(claps: seq<real>, start: real, j: nat)
    requires Spaced(claps, start)
    requires j < |claps|
    ensures claps[j] - start > DebounceMs * (j + 1) as real
  {
    if j > 0 {
      ClapsAfterStart(claps, start, j - 1);
      assert claps[j] - claps[j - 1] > DebounceMs;
    }
  }

  /** Since the last-clap time starts at 0, no clap is ever reported at a time up to 1200 ms. */
  lemma NoEarlyClap(claps: seq<real>, j: nat)
    requires Spaced(claps, 0.0)
    requires j < |claps|
    ensures claps[j] > DebounceMs
  {
    ClapsAfterStart(claps, 0.0, j);
  }

  /**
   * The detector's memory across ticks: `lastClapRef`, and the log of the times
   * at which `onClapDetected` was called.
   */
  class ClapDetector {
    /** `lastClapRef.current`, in milliseconds. */
    var lastClap: real
    /** The times at which the clap callback was invoked, oldest first. */
    var claps: seq<real>

    /** The last-clap time is that of the last reported clap, and the claps are spaced. */
    ghost predicate Valid()
      reads this
    {
      Spaced(claps, 0.0) && lastClap == (if claps == [] then 0.0 else claps[|claps| - 1])
    }

    /** A fresh detector: no clap yet, the last-clap time is 0. */
    constructor ()
      ensures Valid()
      ensures lastClap == 0.0 && claps == []
    {
      lastClap := 0.0;
      claps := [];
    }

    /**
     * One tick at time `now` over the filled buffer `data`: returns the amplitude
     * shown on the meter and whether a clap was reported. On a clap the last-clap
     * time becomes `now` and the callback is invoked once; otherwise nothing changes.
     */
    method Tick(data: array<byte>, now: real) returns (amplitude: real, fired: bool)
      requires Valid()
      modifies this
      ensures Valid()
      ensures amplitude == Amplitude(Low(data[..]), High(data[..]))
      ensures data.Length > 0 ==> 0.0 <= amplitude <= 1.0
      ensures fired <==> IsClap(amplitude, now, old(lastClap))
      ensures lastClap == (if fired then now else old(lastClap))
      ensures claps == (if fired then old(claps) + [now] else old(claps))
    {
      var lo, hi := ScanPeaks(data);
      amplitude := Amplitude(lo, hi);
      if data.Length > 0 {
        AmplitudeInUnitRange(data[..]);
      }
      fired := amplitude > Threshold && now - lastClap > DebounceMs;
      if fired {
        lastClap := now;
        claps := claps + [now];
      }
    }
  }
}
