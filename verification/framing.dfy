/** The tempo-adaptive hop length: each frame spans a fixed fraction of a beat. */
module Framing {
  import opened Common

  /** Python's `int(v)` on a finite float: truncation toward zero. */
  function Trunc(v: real): (r: int)
    ensures v >= 0.0 ==> 0 <= r && r as real <= v < r as real + 1.0
    ensures v < 0.0 ==> r <= 0 && r as real - 1.0 < v <= r as real
  {
    if v >= 0.0 then v.Floor else -((-v).Floor)
  }

  /** Frames per second: `tps * overSamplingRate` with `tps = tempo / 60`. */
  function FrameRate(tempo: real, overSamplingRate: int): real {
    tempo / 60.0 * overSamplingRate as real
  }

  /** `hop_len = int(sr / (tps * overSamplingRate) + .5)`. A zero frame rate
      makes the quotient infinite or NaN, on which `int` raises. */
  function HopLength(sr: int, tempo: real, overSamplingRate: int): (r: Result<int>)
    ensures r.Err? <==> tempo == 0.0 || overSamplingRate == 0
    ensures r.Err? ==> r.fault == HopNotFinite
  {
    var rate := FrameRate(tempo, overSamplingRate);
    if rate == 0.0 then Err(HopNotFinite)
    else Ok(Trunc(sr as real / rate + 0.5))
  }

  /** Both factors positive: the frame rate is positive, and it grows with
      either factor. */
  lemma FrameRateMonotone(t1: real, t2: real, o1: int, o2: int)
    requires 0.0 < t1 <= t2 && 0 < o1 <= o2
    ensures 0.0 < FrameRate(t1, o1) <= FrameRate(t2, o2)
  {
    var a1, a2 := t1 / 60.0, t2 / 60.0;
    assert 0.0 < a1 <= a2;
    assert a1 * o1 as real <= a2 * o1 as real;
    assert a2 * o1 as real <= a2 * o2 as real;
  }

  /** Dividing a non-negative amount by a larger positive number gives no more. */
  lemma QuotientAntitone(n: real, d1: real, d2: real)
    requires n >= 0.0 && 0.0 < d1 <= d2
    ensures n / d2 <= n / d1
  {
    var q1, q2 := n / d1, n / d2;
    assert q1 * d1 == n && q2 * d2 == n;
    assert q2 * d1 <= q2 * d2;
  }

  /** Truncation of non-negative values is monotone. */
  lemma TruncMonotone(a: real, b: real)
    requires 0.0 <= a <= b
    ensures Trunc(a) <= Trunc(b)
  {
  }

  /** For positive inputs the hop length is the exact number of samples per
      frame rounded half up: a non-negative integer more than one half below
      and at most one half above `sr / (tempo / 60 * overSamplingRate)`. */
  lemma HopLengthRoundsHalfUp(sr: int, tempo: real, overSamplingRate: int)
    requires sr >= 0 && tempo > 0.0 && overSamplingRate > 0
    ensures HopLength(sr, tempo, overSamplingRate).Ok?
    ensures var h := HopLength(sr, tempo, overSamplingRate).value;
            var q := sr as real / (tempo / 60.0 * overSamplingRate as real);
            && 0 <= h
            && q - 0.5 < h as real <= q + 0.5
  {
    FrameRateMonotone(tempo, tempo, overSamplingRate, overSamplingRate);
    var d := FrameRate(tempo, overSamplingRate);
    assert sr as real / d >= 0.0;
  }

  /** The hop length only shrinks as the tempo or the oversampling rate grows. */
  lemma HopLengthAntitone(sr: int, t1: real, t2: real, o1: int, o2: int)
    requires sr >= 0 && 0.0 < t1 <= t2 && 0 < o1 <= o2
    ensures HopLength(sr, t1, o1).Ok? && HopLength(sr, t2, o2).Ok?
    ensures HopLength(sr, t2, o2).value <= HopLength(sr, t1, o1).value
  {
    FrameRateMonotone(t1, t2, o1, o2);
    var d1, d2 := FrameRate(t1, o1), FrameRate(t2, o2);
    QuotientAntitone(sr as real, d1, d2);
    assert 0.0 <= sr as real / d2 by {
      FrameRateMonotone(t2, t2, o2, o2);
    }
    TruncMonotone(sr as real / d2 + 0.5, sr as real / d1 + 0.5);
  }

  /** 22050 Hz at 120 beats per minute, 48 frames per beat: 229.6875 rounds to 230. */
  lemma HopLengthExample()
    ensures HopLength(22050, 120.0, 48) == Ok(230)
  {
    assert FrameRate(120.0, 48) == 96.0;
    assert 22050 as real / 96.0 == 229.6875;
  }
}
