/**
 * The sends engine's level bookkeeping. Each of the three outputs (dry,
 * fx1, fx2) has a stored level, and a shared scale `s` multiplies all
 * three: the level a listener hears is `stored * s`. The stored levels are
 * kept normalised so that the loudest of them is exactly 1, which lets one
 * knob (the scale) fade all three together.
 */
module Sends {

  /** The input channel a sends instance is attached to. */
  datatype ChannelEnum = Internal | ExternalStereo | ExternalLeft | ExternalRight | Sampler(n: nat)

  predicate ValidChannel(ce: ChannelEnum)
  {
    ce.Sampler? ==> ce.n < 10
  }

  /** The front-panel keys that have an LED. */
  datatype Key = Synth | External | S(n: nat)

  /** `led_for`: the key lit for a channel. Every channel has one; all three
      external variants share the external key; sampler n lights key Sn. */
  function LedFor(ce: ChannelEnum): (k: Key)
    requires ValidChannel(ce)
    ensures k.Synth? <==> ce.Internal?
    ensures k.External? <==> (ce.ExternalStereo? || ce.ExternalLeft? || ce.ExternalRight?)
    ensures k.S? <==> ce.Sampler?
    ensures k.S? ==> k.n == ce.n && k.n < 10
  {
    match ce
    case Internal => Synth
    case ExternalStereo => External
    case ExternalLeft => External
    case ExternalRight => External
    case Sampler(n) => S(n)
  }

  /** Distinct sampler channels light distinct keys, and no sampler shares a
      key with the synth or the external input. */
  lemma LedForSeparatesSamplers(a: ChannelEnum, b: ChannelEnum)
    requires ValidChannel(a) && ValidChannel(b)
    ensures a.Sampler? && LedFor(a) == LedFor(b) ==> a == b
  {
  }

  /** Which of the three levels a change is about. */
  datatype Output = Dry | Fx1 | Fx2

  /** `stored_levels`: the three normalised levels and the shared scale. */
  datatype Levels = Levels(dry: real, fx1: real, fx2: real, s: real)

  predicate NonNeg(l: Levels)
  {
    l.dry >= 0.0 && l.fx1 >= 0.0 && l.fx2 >= 0.0 && l.s >= 0.0
  }

  /** Every stored level lies in [0, 1], the largest is exactly 1, and the
      scale is nonnegative. */
  predicate Normalised(l: Levels)
  {
    && 0.0 <= l.dry <= 1.0 && 0.0 <= l.fx1 <= 1.0 && 0.0 <= l.fx2 <= 1.0
    && (l.dry == 1.0 || l.fx1 == 1.0 || l.fx2 == 1.0)
    && l.s >= 0.0
  }

  function Stored(l: Levels, o: Output): real
  {
    match o
    case Dry => l.dry
    case Fx1 => l.fx1
    case Fx2 => l.fx2
  }

  /** The level actually heard on an output. */
  function Effective(l: Levels, o: Output): real
  {
    Stored(l, o) * l.s
  }

  /** The arguments of one call of `set`: the level being changed, the two
      others in the order the change callbacks pass them, and the scale. */
  datatype Rotated = Rotated(changed: real, other1: real, other2: real, s: real)

  /** The callbacks pass (dry, fx1, fx2), (fx1, dry, fx2) and (fx2, dry, fx1). */
  function Rotate(l: Levels, o: Output): (r: Rotated)
    ensures r.changed == Stored(l, o) && r.s == l.s
  {
    match o
    case Dry => Rotated(l.dry, l.fx1, l.fx2, l.s)
    case Fx1 => Rotated(l.fx1, l.dry, l.fx2, l.s)
    case Fx2 => Rotated(l.fx2, l.dry, l.fx1, l.s)
  }

  function Unrotate(o: Output, r: Rotated): Levels
  {
    match o
    case Dry => Levels(r.changed, r.other1, r.other2, r.s)
    case Fx1 => Levels(r.other1, r.changed, r.other2, r.s)
    case Fx2 => Levels(r.other1, r.other2, r.changed, r.s)
  }

  lemma UnrotateRotate(l: Levels, o: Output)
    ensures Unrotate(o, Rotate(l, o)) == l
  {
  }

  predicate RotatedNonNeg(r: Rotated)
  {
    r.changed >= 0.0 && r.other1 >= 0.0 && r.other2 >= 0.0 && r.s >= 0.0
  }

  predicate RotatedNormalised(r: Rotated)
  {
    Normalised(Levels(r.changed, r.other1, r.other2, r.s))
  }

  function Max(a: real, b: real): real { if a >= b then a else b }

  /** The four branches of `set`, in the order the source tests them. */
  datatype Case = AllZero | NewLargest | WasLargest | Otherwise

  function Branch(threshold: real, value: real, r: Rotated): (c: Case)
    ensures c == AllZero ==> value < threshold
    ensures c == NewLargest ==> value >= Max(r.other1, r.other2) * r.s
    ensures c in {WasLargest, Otherwise} ==> value < r.other1 * r.s || value < r.other2 * r.s
    ensures c == WasLargest ==> r.changed > Max(r.other1, r.other2)
    ensures c == Otherwise ==> r.changed <= Max(r.other1, r.other2)
  {
    if value < threshold && ((r.other1 < threshold && r.other2 < threshold) || r.s < threshold) then AllZero
    else if value >= r.other1 * r.s && value >= r.other2 * r.s then NewLargest
    else if r.changed > r.other1 && r.changed > r.other2 then WasLargest
    else Otherwise
  }

  lemma ProductPositive(a: real, b: real)
    requires a > 0.0 && b > 0.0
    ensures a * b > 0.0
  {
  }

  lemma PositiveProductFactors(a: real, b: real)
    requires a >= 0.0 && b >= 0.0 && a * b > 0.0
    ensures a > 0.0 && b > 0.0
  {
  }

  lemma MulMonotone(a: real, b: real, c: real)
    requires a <= b && c >= 0.0
    ensures a * c <= b * c
  {
  }

  /** With nonnegative levels and a positive threshold, every divisor `set`
      uses is positive: `value` in the new-largest branch, the new largest
      and `s` in the was-largest branch, `s` in the last branch. */
  lemma NoDivisionByZero(threshold: real, value: real, r: Rotated)
    requires threshold > 0.0 && value >= 0.0 && RotatedNonNeg(r)
    ensures Branch(threshold, value, r) == NewLargest ==> value > 0.0
    ensures Branch(threshold, value, r) == WasLargest ==> Max(r.other1, r.other2) > 0.0 && r.s > 0.0
    ensures Branch(threshold, value, r) == Otherwise ==> r.s > 0.0
    ensures Branch(threshold, value, r) in {WasLargest, Otherwise} ==> value < Max(r.other1, r.other2) * r.s
  {
    var b := Branch(threshold, value, r);
    var m := Max(r.other1, r.other2);
    if b == NewLargest && value < threshold {
      assert r.s >= threshold && (r.other1 >= threshold || r.other2 >= threshold);
      ProductPositive(m, r.s);
      MulMonotone(r.other1, m, r.s);
      MulMonotone(r.other2, m, r.s);
      assert value >= m * r.s;
    }
    if b in {WasLargest, Otherwise} {
      assert value < r.other1 * r.s || value < r.other2 * r.s;
      MulMonotone(r.other1, m, r.s);
      MulMonotone(r.other2, m, r.s);
      assert value < m * r.s;
      PositiveProductFactors(m, r.s);
    }
  }

  /** New largest: the changed output becomes the reference level 1, the
      scale becomes `value`, and the others are rescaled by `s / value`. */
  function NewLargestResult(value: real, r: Rotated): Rotated
    requires value > 0.0
  {
    Rotated(1.0, r.other1 * r.s / value, r.other2 * r.s / value, value)
  }

  /** Was largest, now not: the larger of the others becomes the reference
      level 1, and the scale absorbs it. */
  function WasLargestResult(value: real, r: Rotated): Rotated
    requires Max(r.other1, r.other2) > 0.0 && r.s > 0.0
  {
    var nl := Max(r.other1, r.other2);
    ProductPositive(nl, r.s);
    Rotated(value / (nl * r.s), r.other1 / nl, r.other2 / nl, nl * r.s)
  }

  /** The same branch as the source writes it: the scale becomes the new
      largest stored level alone, dropping the old scale. */
  function WasLargestResultAsWritten(value: real, r: Rotated): Rotated
    requires Max(r.other1, r.other2) > 0.0 && r.s > 0.0
  {
    var nl := Max(r.other1, r.other2);
    ProductPositive(nl, r.s);
    Rotated(value / (nl * r.s), r.other1 / nl, r.other2 / nl, nl)
  }

  /** Was not the largest and still is not: only the changed level moves. */
  function OtherwiseResult(value: real, r: Rotated): Rotated
    requires r.s > 0.0
  {
    Rotated(value / r.s, r.other1, r.other2, r.s)
  }

  lemma NewLargestNonNeg(value: real, r: Rotated)
    requires value > 0.0 && RotatedNonNeg(r)
    ensures RotatedNonNeg(NewLargestResult(value, r)) && NewLargestResult(value, r).s > 0.0
  {
    MulMonotone(0.0, r.other1, r.s);
    MulMonotone(0.0, r.other2, r.s);
  }

  lemma WasLargestNonNeg(value: real, r: Rotated)
    requires value >= 0.0 && RotatedNonNeg(r)
    requires Max(r.other1, r.other2) > 0.0 && r.s > 0.0
    ensures RotatedNonNeg(WasLargestResult(value, r)) && WasLargestResult(value, r).s > 0.0
    ensures RotatedNonNeg(WasLargestResultAsWritten(value, r)) && WasLargestResultAsWritten(value, r).s > 0.0
  {
    ProductPositive(Max(r.other1, r.other2), r.s);
  }

  lemma OtherwiseNonNeg(value: real, r: Rotated)
    requires value >= 0.0 && RotatedNonNeg(r) && r.s > 0.0
    ensures RotatedNonNeg(OtherwiseResult(value, r)) && OtherwiseResult(value, r).s > 0.0
  {
  }

  /** Every branch's result is nonnegative, and only the all-zero branch
      zeroes the scale. */
  lemma BranchResultsNonNeg(threshold: real, value: real, r: Rotated)
    requires threshold > 0.0 && value >= 0.0 && RotatedNonNeg(r)
    ensures Branch(threshold, value, r) == NewLargest ==>
              value > 0.0 && RotatedNonNeg(NewLargestResult(value, r)) && NewLargestResult(value, r).s > 0.0
    ensures Branch(threshold, value, r) == WasLargest ==>
              && Max(r.other1, r.other2) > 0.0 && r.s > 0.0
              && RotatedNonNeg(WasLargestResult(value, r)) && WasLargestResult(value, r).s > 0.0
              && RotatedNonNeg(WasLargestResultAsWritten(value, r)) && WasLargestResultAsWritten(value, r).s > 0.0
    ensures Branch(threshold, value, r) == Otherwise ==>
              r.s > 0.0 && RotatedNonNeg(OtherwiseResult(value, r)) && OtherwiseResult(value, r).s > 0.0
  {
    NoDivisionByZero(threshold, value, r);
    match Branch(threshold, value, r)
    case AllZero =>
    case NewLargest => NewLargestNonNeg(value, r);
    case WasLargest => WasLargestNonNeg(value, r);
    case Otherwise => OtherwiseNonNeg(value, r);
  }

  /** `set` with the scale update of the was-largest branch corrected to
      `new_largest * s`, so that the levels heard on the other two outputs
      stay where they were. The stored levels stay nonnegative, and the
      scale drops to 0 exactly in the all-zero case. */
  function SetCore(threshold: real, value: real, r: Rotated): (q: Rotated)
    requires threshold > 0.0 && value >= 0.0 && RotatedNonNeg(r)
    ensures RotatedNonNeg(q)
    ensures q.s == 0.0 <==> Branch(threshold, value, r) == AllZero
  {
    NoDivisionByZero(threshold, value, r);
    BranchResultsNonNeg(threshold, value, r);
    match Branch(threshold, value, r)
    case AllZero => Rotated(1.0, 1.0, 1.0, 0.0)
    case NewLargest => NewLargestResult(value, r)
    case WasLargest => WasLargestResult(value, r)
    case Otherwise => OtherwiseResult(value, r)
  }

  /** `set` exactly as the source writes it. It differs from the corrected
      `SetCore` only in the was-largest branch. */
  function SetCoreAsWritten(threshold: real, value: real, r: Rotated): (q: Rotated)
    requires threshold > 0.0 && value >= 0.0 && RotatedNonNeg(r)
    ensures RotatedNonNeg(q)
    ensures q.s == 0.0 <==> Branch(threshold, value, r) == AllZero
    ensures Branch(threshold, value, r) != WasLargest ==> q == SetCore(threshold, value, r)
  {
    NoDivisionByZero(threshold, value, r);
    BranchResultsNonNeg(threshold, value, r);
    match Branch(threshold, value, r)
    case AllZero => Rotated(1.0, 1.0, 1.0, 0.0)
    case NewLargest => NewLargestResult(value, r)
    case WasLargest => WasLargestResultAsWritten(value, r)
    case Otherwise => OtherwiseResult(value, r)
  }

  lemma DivMulCancel(a: real, b: real)
    requires b != 0.0
    ensures a / b * b == a
  {
  }

  lemma DivAtMostOne(a: real, b: real)
    requires 0.0 <= a <= b && b > 0.0
    ensures 0.0 <= a / b <= 1.0
  {
  }

  /** The changed output is heard at `value`, the others as before. */
  predicate KeepsEffective(value: real, r: Rotated, q: Rotated)
  {
    && q.changed * q.s == value
    && q.other1 * q.s == r.other1 * r.s
    && q.other2 * q.s == r.other2 * r.s
  }

  lemma NewLargestKeepsEffective(value: real, r: Rotated)
    requires value > 0.0
    ensures KeepsEffective(value, r, NewLargestResult(value, r))
  {
    DivMulCancel(r.other1 * r.s, value);
    DivMulCancel(r.other2 * r.s, value);
  }

  lemma WasLargestKeepsEffective(value: real, r: Rotated)
    requires Max(r.other1, r.other2) > 0.0 && r.s > 0.0
    ensures KeepsEffective(value, r, WasLargestResult(value, r))
  {
    var nl := Max(r.other1, r.other2);
    var o1, o2, s := r.other1, r.other2, r.s;
    ProductPositive(nl, s);
    DivMulCancel(value, nl * s);
    DivMulCancel(o1, nl);
    DivMulCancel(o2, nl);
    assert (o1 / nl) * (nl * s) == ((o1 / nl) * nl) * s;
    assert (o2 / nl) * (nl * s) == ((o2 / nl) * nl) * s;
  }

  lemma OtherwiseKeepsEffective(value: real, r: Rotated)
    requires r.s > 0.0
    ensures KeepsEffective(value, r, OtherwiseResult(value, r))
  {
    DivMulCancel(value, r.s);
  }

  /** Outside the all-zero case, `set` makes the changed output heard at
      exactly `value` and leaves the level heard on the two others alone; in
      the all-zero case everything goes silent. */
  lemma {:induction false} SetCoreKeepsEffectiveLevels(threshold: real, value: real, r: Rotated)
    requires threshold > 0.0 && value >= 0.0 && RotatedNonNeg(r)
    ensures Branch(threshold, value, r) != AllZero ==> KeepsEffective(value, r, SetCore(threshold, value, r))
    ensures var q := SetCore(threshold, value, r);
            Branch(threshold, value, r) == AllZero ==>
              q.changed * q.s == 0.0 && q.other1 * q.s == 0.0 && q.other2 * q.s == 0.0
  {
    NoDivisionByZero(threshold, value, r);
    match Branch(threshold, value, r)
    case AllZero =>
    case NewLargest => NewLargestKeepsEffective(value, r);
    case WasLargest => WasLargestKeepsEffective(value, r);
    case Otherwise => OtherwiseKeepsEffective(value, r);
  }

  lemma ScaledAtMostOne(o: real, s: real, v: real)
    requires 0.0 <= o && 0.0 <= s && v > 0.0 && o * s <= v
    ensures 0.0 <= o * s / v <= 1.0
  {
    MulMonotone(0.0, o, s);
    DivAtMostOne(o * s, v);
  }

  lemma NewLargestNormalised(value: real, r: Rotated)
    requires value > 0.0 && RotatedNormalised(r)
    requires r.other1 * r.s <= value && r.other2 * r.s <= value
    ensures RotatedNormalised(NewLargestResult(value, r))
  {
    ScaledAtMostOne(r.other1, r.s, value);
    ScaledAtMostOne(r.other2, r.s, value);
  }

  lemma WasLargestNormalised(value: real, r: Rotated)
    requires value >= 0.0 && RotatedNormalised(r)
    requires Max(r.other1, r.other2) > 0.0 && r.s > 0.0
    requires value < Max(r.other1, r.other2) * r.s
    ensures RotatedNormalised(WasLargestResult(value, r))
  {
    var m := Max(r.other1, r.other2);
    ProductPositive(m, r.s);
    var q := WasLargestResult(value, r);
    assert q.changed == value / (m * r.s) && q.s == m * r.s;
    assert q.other1 == r.other1 / m && q.other2 == r.other2 / m;
    DivAtMostOne(r.other1, m);
    DivAtMostOne(r.other2, m);
    DivAtMostOne(value, m * r.s);
    assert m == r.other1 || m == r.other2;
  }

  lemma OtherwiseNormalised(value: real, r: Rotated)
    requires value >= 0.0 && RotatedNormalised(r) && r.s > 0.0
    requires value < Max(r.other1, r.other2) * r.s
    requires r.other1 >= r.changed || r.other2 >= r.changed
    ensures RotatedNormalised(OtherwiseResult(value, r))
  {
    MulMonotone(Max(r.other1, r.other2), 1.0, r.s);
    DivAtMostOne(value, r.s);
  }

  /** `set` keeps the stored levels normalised. */
  lemma {:induction false} SetCorePreservesNormalised(threshold: real, value: real, r: Rotated)
    requires threshold > 0.0 && value >= 0.0 && RotatedNormalised(r)
    ensures RotatedNonNeg(r) && RotatedNormalised(SetCore(threshold, value, r))
  {
    NoDivisionByZero(threshold, value, r);
    match Branch(threshold, value, r)
    case AllZero =>
    case NewLargest => NewLargestNormalised(value, r);
    case WasLargest => WasLargestNormalised(value, r);
    case Otherwise => OtherwiseNormalised(value, r);
  }

  /** The source's was-largest branch loses the old scale. With s = 0.5 and
      stored levels (1, 0.8, 0.4), lowering the loudest output to 0.3 should
      leave the others heard at 0.4 and 0.2; as written they come out at 0.8
      and 0.4 and the changed output at 0.6. */
  lemma SetCoreAsWrittenLosesScale()
    ensures var r := Rotated(1.0, 0.8, 0.4, 0.5);
            var q := SetCoreAsWritten(0.01, 0.3, r);
            && Branch(0.01, 0.3, r) == WasLargest
            && q == Rotated(0.75, 1.0, 0.5, 0.8)
            && q.changed * q.s == 0.6 && q.changed * q.s != 0.3
            && q.other1 * q.s == 0.8 && q.other1 * q.s != r.other1 * r.s
    ensures var q := SetCore(0.01, 0.3, Rotated(1.0, 0.8, 0.4, 0.5));
            q.changed * q.s == 0.3 && q.other1 * q.s == 0.4 && q.other2 * q.s == 0.2
  {
    var r := Rotated(1.0, 0.8, 0.4, 0.5);
    assert Branch(0.01, 0.3, r) == WasLargest;
    assert 0.3 / (0.8 * 0.5) == 0.75;
    assert SetCore(0.01, 0.3, r) == Rotated(0.75, 1.0, 0.5, 0.4);
  }

  /** `Sends::set` on whole levels: change one output's level to `value`. */
  function Set(threshold: real, l: Levels, o: Output, value: real): (r: Levels)
    requires threshold > 0.0 && value >= 0.0 && NonNeg(l)
    ensures NonNeg(r)
    ensures r.s == 0.0 <==> InAllZeroCase(threshold, l, o, value)
  {
    Unrotate(o, SetCore(threshold, value, Rotate(l, o)))
  }

  predicate InAllZeroCase(threshold: real, l: Levels, o: Output, value: real)
  {
    Branch(threshold, value, Rotate(l, o)) == AllZero
  }

  predicate InWasLargestCase(threshold: real, l: Levels, o: Output, value: real)
  {
    Branch(threshold, value, Rotate(l, o)) == WasLargest
  }

  /** `Sends::set` on whole levels as the source writes it: the same as the
      corrected `Set` except when the output being lowered was the loudest. */
  function SetAsWritten(threshold: real, l: Levels, o: Output, value: real): (r: Levels)
    requires threshold > 0.0 && value >= 0.0 && NonNeg(l)
    ensures NonNeg(r)
    ensures !InWasLargestCase(threshold, l, o, value) ==> r == Set(threshold, l, o, value)
  {
    Unrotate(o, SetCoreAsWritten(threshold, value, Rotate(l, o)))
  }

  /** Putting a rotated result back keeps the rotated reading of it. */
  lemma UnrotateKeepsEffective(l: Levels, o: Output, value: real, q: Rotated)
    requires KeepsEffective(value, Rotate(l, o), q)
    ensures Effective(Unrotate(o, q), o) == value
    ensures forall p: Output :: p != o ==> Effective(Unrotate(o, q), p) == Effective(l, p)
  {
    match o
    case Dry =>
    case Fx1 =>
    case Fx2 =>
  }

  lemma UnrotateSilent(o: Output, q: Rotated)
    requires q.s == 0.0
    ensures forall p: Output :: Effective(Unrotate(o, q), p) == 0.0
  {
  }

  /** Setting one output: it is heard at `value` afterwards, the other two
      are heard as before, and the levels stay normalised. In the all-zero
      case all three go silent instead. */
  lemma {:induction false} SetChangesOnlyOneOutput(threshold: real, l: Levels, o: Output, value: real)
    requires threshold > 0.0 && value >= 0.0 && Normalised(l)
    ensures NonNeg(l) && Normalised(Set(threshold, l, o, value))
    ensures !InAllZeroCase(threshold, l, o, value) ==>
              && Effective(Set(threshold, l, o, value), o) == value
              && forall p: Output :: p != o ==> Effective(Set(threshold, l, o, value), p) == Effective(l, p)
    ensures InAllZeroCase(threshold, l, o, value) ==>
              forall p: Output :: Effective(Set(threshold, l, o, value), p) == 0.0
  {
    var r := Rotate(l, o);
    assert RotatedNormalised(r);
    var q := SetCore(threshold, value, r);
    assert Set(threshold, l, o, value) == Unrotate(o, q);
    SetCorePreservesNormalised(threshold, value, r);
    assert Normalised(Unrotate(o, q));
    SetCoreKeepsEffectiveLevels(threshold, value, r);
    if InAllZeroCase(threshold, l, o, value) {
      assert q.s == 0.0;
      UnrotateSilent(o, q);
    } else {
      UnrotateKeepsEffective(l, o, value, q);
    }
  }


  /** As written, `set` still changes what is heard on one output only and
      keeps the levels normalised whenever the output being changed was not
      the loudest one being lowered; that remaining case is the defect
      `SetCoreAsWrittenLosesScale` exhibits. */
  lemma {:induction false} SetAsWrittenChangesOnlyOneOutput(threshold: real, l: Levels, o: Output, value: real)
    requires threshold > 0.0 && value >= 0.0 && Normalised(l)
    requires !InWasLargestCase(threshold, l, o, value)
    ensures NonNeg(l) && Normalised(SetAsWritten(threshold, l, o, value))
    ensures !InAllZeroCase(threshold, l, o, value) ==>
              && Effective(SetAsWritten(threshold, l, o, value), o) == value
              && forall p: Output :: p != o ==> Effective(SetAsWritten(threshold, l, o, value), p) == Effective(l, p)
    ensures InAllZeroCase(threshold, l, o, value) ==>
              forall p: Output :: Effective(SetAsWritten(threshold, l, o, value), p) == 0.0
  {
    SetChangesOnlyOneOutput(threshold, l, o, value);
    assert SetAsWritten(threshold, l, o, value) == Set(threshold, l, o, value);
  }

  /** The knob values shown on screen: one per output. */
  datatype Props = Props(dry: real, fx1: real, fx2: real)

  function Prop(p: Props, o: Output): real
  {
    match o
    case Dry => p.dry
    case Fx1 => p.fx1
    case Fx2 => p.fx2
  }

  function WithProp(p: Props, o: Output, a: real): (q: Props)
    ensures Prop(q, o) == a
    ensures forall u: Output :: u != o ==> Prop(q, u) == Prop(p, u)
  {
    match o
    case Dry => p.(dry := a)
    case Fx1 => p.(fx1 := a)
    case Fx2 => p.(fx2 := a)
  }

  datatype State = State(levels: Levels, props: Props, isRecursive: bool)

  /** Writing a prop fires its change callback: unless `is_recursive` is
      set, the callback calls `set` for that output with the new value. */
  function WriteProp(threshold: real, st: State, o: Output, a: real): (r: State)
    requires threshold > 0.0 && a >= 0.0 && NonNeg(st.levels)
    ensures Prop(r.props, o) == a && r.isRecursive == st.isRecursive
    ensures forall u: Output :: u != o ==> Prop(r.props, u) == Prop(st.props, u)
    ensures st.isRecursive ==> r.levels == st.levels
    ensures !st.isRecursive ==> r.levels == Set(threshold, st.levels, o, a)
  {
    var st' := st.(props := WithProp(st.props, o, a));
    if st.isRecursive then st' else st'.(levels := Set(threshold, st.levels, o, a))
  }

  /** `set_scale(x)`: the scale becomes `x` and each prop is rewritten to its
      stored level times `x`. Because `is_recursive` is held during the
      writes, none of them re-enters `set`: the stored levels are untouched,
      every prop ends up equal to the level heard on its output, and the
      flag is clear again afterwards. */
  function SetScale(threshold: real, st: State, x: real): (r: State)
    requires threshold > 0.0 && x >= 0.0 && NonNeg(st.levels)
    ensures r.levels == st.levels.(s := x)
    ensures forall o: Output :: Prop(r.props, o) == Effective(r.levels, o)
    ensures !r.isRecursive
  {
    var l := st.levels.(s := x);
    var st1 := st.(levels := l, isRecursive := true);
    var st2 := WriteProp(threshold, st1, Fx1, l.fx1 * l.s);
    var st3 := WriteProp(threshold, st2, Fx2, l.fx2 * l.s);
    var st4 := WriteProp(threshold, st3, Dry, l.dry * l.s);
    st4.(isRecursive := false)
  }

  /** A prop written by the user (outside `set_scale`) becomes the level
      heard on its output, and the other two outputs keep theirs. */
  lemma {:induction false} UserPropChangeIsHeard(threshold: real, st: State, o: Output, a: real)
    requires threshold > 0.0 && a >= 0.0 && Normalised(st.levels) && !st.isRecursive
    requires !InAllZeroCase(threshold, st.levels, o, a)
    ensures NonNeg(st.levels)
    ensures Effective(WriteProp(threshold, st, o, a).levels, o) == Prop(WriteProp(threshold, st, o, a).props, o)
    ensures forall p: Output :: p != o ==> Effective(WriteProp(threshold, st, o, a).levels, p) == Effective(st.levels, p)
  {
    SetChangesOnlyOneOutput(threshold, st.levels, o, a);
  }
}
