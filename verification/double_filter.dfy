/**
 * The control-to-filter mapping of the double filter: one knob value
 * `fr` (0 to 4) chooses the cutoffs and resonances of a low-pass and a
 * high-pass biquad and how much of each is mixed into the output.
 */
module DoubleFilter {

  const MinFreq: real := 20.0
  const MaxFreq: real := 20000.0
  /** The resonance used for the "high resonance" settings. */
  const HiRes: real := 2.5
  /** Width of each crossfade ramp on either side of 1, 2 and 3. */
  const InterpLength: real := 0.2

  /** `value_to_freq`: a cubic sweep from 20 Hz at 0 to 20 kHz at 1. */
  function ValueToFreq(v: real): (f: real)
    ensures v == 0.0 ==> f == MinFreq
    ensures v == 1.0 ==> f == MaxFreq
  {
    MinFreq + v * v * v * (MaxFreq - MinFreq)
  }

  lemma CubeIncreasing(v: real, w: real)
    requires v < w
    ensures v * v * v < w * w * w
  {
    var a := w + v / 2.0;
    assert w * w * w - v * v * v == (w - v) * (w * w + w * v + v * v);
    assert w * w + w * v + v * v == a * a + 3.0 * v * v / 4.0;
    assert a * a >= 0.0 by {
      if a < 0.0 { assert a * a == (-a) * (-a); }
    }
    assert v * v >= 0.0 by {
      if v < 0.0 { assert v * v == (-v) * (-v); }
    }
    if v == 0.0 {
      assert w > 0.0;
      assert a * a > 0.0;
    } else {
      assert v * v > 0.0 by {
        if v < 0.0 { assert v * v == (-v) * (-v); }
      }
    }
    assert w * w + w * v + v * v > 0.0;
    assert (w - v) * (w * w + w * v + v * v) > 0.0;
  }

  /** The sweep is strictly increasing. */
  lemma ValueToFreqIncreasing(v: real, w: real)
    requires v < w
    ensures ValueToFreq(v) < ValueToFreq(w)
  {
    CubeIncreasing(v, w);
    var cv, cw := v * v * v, w * w * w;
    assert ValueToFreq(v) == MinFreq + cv * (MaxFreq - MinFreq);
    assert ValueToFreq(w) == MinFreq + cw * (MaxFreq - MinFreq);
  }

  /** The sweep maps [0, 1] onto [20, 20000], reaching 20000 only at 1. */
  lemma ValueToFreqRange(v: real)
    requires 0.0 <= v <= 1.0
    ensures MinFreq <= ValueToFreq(v) <= MaxFreq
    ensures v < 1.0 ==> ValueToFreq(v) < MaxFreq
  {
    if v > 0.0 {
      ValueToFreqIncreasing(0.0, v);
    }
    if v < 1.0 {
      ValueToFreqIncreasing(v, 1.0);
    }
  }

  /** `fr - floor(fr)`: the position inside the current unit band. */
  function Sweep(fr: real): (val: real)
    ensures 0.0 <= val < 1.0
    ensures (fr - val).Floor as real == fr - val
  {
    fr - fr.Floor as real
  }

  datatype Biquad = Biquad(freq: real, res: real)
  datatype FilterParams = FilterParams(lp: Biquad, hp: Biquad)

  /** `get_filter_params`: cutoff and resonance of both filters. Band 0
      sweeps the low-pass, band 1 the high-pass, band 2 the low-pass again at
      high resonance, band 3 and above the high-pass at high resonance. */
  function GetFilterParams(fr: real): (r: FilterParams)
    ensures fr < 1.0 ==> r.lp == Biquad(ValueToFreq(Sweep(fr)), 1.0) && r.hp == Biquad(MinFreq, 1.0)
    ensures 1.0 <= fr < 2.0 ==>
              && r.hp == Biquad(ValueToFreq(Sweep(fr)), 1.0)
              && r.lp == (if fr > 1.5 then Biquad(MinFreq, HiRes) else Biquad(MaxFreq, 1.0))
    ensures 2.0 <= fr < 3.0 ==>
              && r.lp == Biquad(ValueToFreq(Sweep(fr)), HiRes)
              && r.hp == (if fr < 2.5 then Biquad(MaxFreq, HiRes) else Biquad(MinFreq, HiRes))
    ensures 3.0 <= fr ==> r.lp == Biquad(MaxFreq, HiRes) && r.hp == Biquad(ValueToFreq(Sweep(fr)), HiRes)
  {
    var val := Sweep(fr);
    var lpf := Biquad(MaxFreq, 1.0);
    var hpf := Biquad(MinFreq, 1.0);
    if fr < 1.0 then
      FilterParams(Biquad(ValueToFreq(val), 1.0), hpf)
    else if fr < 2.0 then
      FilterParams(if fr > 1.5 then Biquad(MinFreq, HiRes) else lpf, Biquad(ValueToFreq(val), 1.0))
    else if fr < 3.0 then
      FilterParams(Biquad(ValueToFreq(val), HiRes), if fr < 2.5 then Biquad(MaxFreq, HiRes) else Biquad(MinFreq, HiRes))
    else
      FilterParams(Biquad(MaxFreq, HiRes), Biquad(ValueToFreq(val), HiRes))
  }

  /** Whatever the knob, both cutoffs stay within [20, 20000], a swept cutoff
      stays below 20000, and each resonance is 1 or the high resonance. */
  lemma FilterParamsInRange(fr: real)
    ensures MinFreq <= GetFilterParams(fr).lp.freq <= MaxFreq
    ensures MinFreq <= GetFilterParams(fr).hp.freq <= MaxFreq
    ensures MinFreq <= ValueToFreq(Sweep(fr)) < MaxFreq
    ensures GetFilterParams(fr).lp.res in {1.0, HiRes} && GetFilterParams(fr).hp.res in {1.0, HiRes}
  {
    ValueToFreqRange(Sweep(fr));
  }

  /** `get_mixing_params`: the low-pass share. Flat at 1 or 0 between the
      ramps, ramping linearly over 0.4 around 1, 2 and 3. */
  function MixLow(fr: real): real
  {
    if fr <= 1.0 - InterpLength then 1.0
    else if fr <= 1.0 + InterpLength then 1.0 - 0.5 * (fr - 1.0 + InterpLength) / InterpLength
    else if fr <= 2.0 - InterpLength then 0.0
    else if fr <= 2.0 + InterpLength then 0.5 * (fr - 2.0 + InterpLength) / InterpLength
    else if fr <= 3.0 - InterpLength then 1.0
    else if fr <= 3.0 + InterpLength then 1.0 - 0.5 * (fr - 3.0 + InterpLength) / InterpLength
    else 0.0
  }

  datatype Mix = Mix(low: real, high: real)

  /** The pair of shares: the two always add up to 1, each within [0, 1]. */
  function GetMixingParams(fr: real): (m: Mix)
    ensures m.high == 1.0 - m.low
    ensures 0.0 <= m.low <= 1.0 && 0.0 <= m.high <= 1.0
    ensures fr <= 0.8 ==> m.low == 1.0
    ensures 1.2 < fr <= 1.8 ==> m.low == 0.0
    ensures 2.2 < fr <= 2.8 ==> m.low == 1.0
    ensures 3.2 < fr ==> m.low == 0.0
  {
    Mix(MixLow(fr), 1.0 - MixLow(fr))
  }

  function Abs(x: real): real { if x < 0.0 then -x else x }

  /** The low-pass share never changes faster than 2.5 per knob unit, so
      adjacent branches agree at every breakpoint and the crossfade has no
      jumps. */
  lemma MixLowIsContinuous(x: real, y: real)
    ensures Abs(MixLow(x) - MixLow(y)) <= 2.5 * Abs(x - y)
  {
  }

  /** At each breakpoint the value is the one the next branch's formula gives. */
  lemma MixLowBreakpoints()
    ensures MixLow(0.8) == 1.0 && MixLow(1.2) == 0.0 && MixLow(1.8) == 0.0
    ensures MixLow(2.2) == 1.0 && MixLow(2.8) == 1.0 && MixLow(3.2) == 0.0
    ensures MixLow(1.0) == 0.5 && MixLow(2.0) == 0.5 && MixLow(3.0) == 0.5
  {
  }

  /** Between the plateaus the share moves one way only: down across 1,
      up across 2, down across 3, and it is flat everywhere else. */
  lemma MixLowRampsAreMonotone(x: real, y: real)
    requires x <= y
    ensures 0.8 <= x && y <= 1.2 ==> MixLow(y) <= MixLow(x)
    ensures 1.8 <= x && y <= 2.2 ==> MixLow(x) <= MixLow(y)
    ensures 2.8 <= x && y <= 3.2 ==> MixLow(y) <= MixLow(x)
    ensures (y <= 0.8 || (1.2 <= x && y <= 1.8) || (2.2 <= x && y <= 2.8) || 3.2 <= x) ==> MixLow(x) == MixLow(y)
  {
  }
}
