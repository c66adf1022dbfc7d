/**
 * The audio half of the sends engine: the gains it applies, updated by
 * the actions the UI side sends when a prop changes.
 */
module SendsAudio {

  /** The four gains the engine manager reads, plus the two private
      inputs the dry gains are derived from. */
  datatype Audio = Audio(dryL: real, dryR: real, toFx1: real, toFx2: real, dry: real, pan: real)

  /** The gains a freshly constructed engine starts with: dry 1 panned to the
      middle, nothing sent to either effect. */
  const Default: Audio := Audio(0.5, 0.5, 0.0, 0.0, 1.0, 0.5)

  /** `recalculate_dry`: linear panning of the dry level. */
  function RecalculateDry(a: Audio): (r: Audio)
    ensures r.dry == a.dry && r.pan == a.pan && r.toFx1 == a.toFx1 && r.toFx2 == a.toFx2
    ensures Consistent(r)
    ensures r.dryL + r.dryR == a.dry
    ensures a.pan == 0.0 ==> r.dryL == a.dry && r.dryR == 0.0
    ensures a.pan == 1.0 ==> r.dryL == 0.0 && r.dryR == a.dry
  {
    a.(dryL := (1.0 - a.pan) * a.dry, dryR := a.pan * a.dry)
  }

  /** The dry gains agree with the dry level and pan they were derived from. */
  predicate Consistent(a: Audio)
  {
    a.dryL == (1.0 - a.pan) * a.dry && a.dryR == a.pan * a.dry
  }

  /** A prop change message from the UI side. */
  datatype PropChange = DryChange(d: real) | Fx1Change(fx1: real) | Fx2Change(fx2: real) | PanChange(p: real)

  /** The four `action` handlers. Dry and pan changes recompute the dry
      gains; an effect change touches only its own send. */
  function Action(a: Audio, c: PropChange): (r: Audio)
    ensures c.DryChange? ==> r.dry == c.d && r.pan == a.pan && r.toFx1 == a.toFx1 && r.toFx2 == a.toFx2
    ensures c.PanChange? ==> r.pan == c.p && r.dry == a.dry && r.toFx1 == a.toFx1 && r.toFx2 == a.toFx2
    ensures c.Fx1Change? ==> r == a.(toFx1 := c.fx1)
    ensures c.Fx2Change? ==> r == a.(toFx2 := c.fx2)
  {
    match c
    case DryChange(d) => RecalculateDry(a.(dry := d))
    case Fx1Change(fx1) => a.(toFx1 := fx1)
    case Fx2Change(fx2) => a.(toFx2 := fx2)
    case PanChange(p) => RecalculateDry(a.(pan := p))
  }

  /** Every handler leaves consistent gains consistent, and the dry and pan
      handlers make any gains consistent. */
  lemma ActionKeepsConsistent(a: Audio, c: PropChange)
    ensures (c.DryChange? || c.PanChange?) ==> Consistent(Action(a, c))
    ensures Consistent(a) ==> Consistent(Action(a, c))
  {
  }

  /** The handlers applied in order. */
  function ApplyAll(a: Audio, cs: seq<PropChange>): Audio
    decreases |cs|
  {
    if |cs| == 0 then a else ApplyAll(Action(a, cs[0]), cs[1..])
  }

  /** The last value a given kind of message carried, or `dflt` if none. */
  function LastDry(cs: seq<PropChange>, dflt: real): real
    decreases |cs|
  {
    if |cs| == 0 then dflt
    else if cs[|cs| - 1].DryChange? then cs[|cs| - 1].d
    else LastDry(cs[..|cs| - 1], dflt)
  }

  function LastPan(cs: seq<PropChange>, dflt: real): real
    decreases |cs|
  {
    if |cs| == 0 then dflt
    else if cs[|cs| - 1].PanChange? then cs[|cs| - 1].p
    else LastPan(cs[..|cs| - 1], dflt)
  }

  function LastFx1(cs: seq<PropChange>, dflt: real): real
    decreases |cs|
  {
    if |cs| == 0 then dflt
    else if cs[|cs| - 1].Fx1Change? then cs[|cs| - 1].fx1
    else LastFx1(cs[..|cs| - 1], dflt)
  }

  function LastFx2(cs: seq<PropChange>, dflt: real): real
    decreases |cs|
  {
    if |cs| == 0 then dflt
    else if cs[|cs| - 1].Fx2Change? then cs[|cs| - 1].fx2
    else LastFx2(cs[..|cs| - 1], dflt)
  }

  lemma {:induction false} ApplyAllSnoc(a: Audio, cs: seq<PropChange>, c: PropChange)
    ensures ApplyAll(a, cs + [c]) == Action(ApplyAll(a, cs), c)
    decreases |cs|
  {
    if |cs| == 0 {
      assert cs + [c] == [c];
    } else {
      assert (cs + [c])[1..] == cs[1..] + [c];
      ApplyAllSnoc(Action(a, cs[0]), cs[1..], c);
    }
  }

  /** From the defaults, any run of prop changes leaves the engine with the
      dry level and pan of the last such messages, dry gains that split that
      level by that pan, and the two sends at their last values. */
  lemma {:induction false} ApplyAllFromDefault(cs: seq<PropChange>)
    ensures var r := ApplyAll(Default, cs);
            && Consistent(r)
            && r.dry == LastDry(cs, 1.0)
            && r.pan == LastPan(cs, 0.5)
            && r.dryL + r.dryR == r.dry
            && r.toFx1 == LastFx1(cs, 0.0)
            && r.toFx2 == LastFx2(cs, 0.0)
    decreases |cs|
  {
    if |cs| == 0 {
    } else {
      var init := cs[..|cs| - 1];
      var c := cs[|cs| - 1];
      assert cs == init + [c];
      ApplyAllFromDefault(init);
      ApplyAllSnoc(Default, init, c);
      ActionKeepsConsistent(ApplyAll(Default, init), c);
      var r := ApplyAll(Default, cs);
      assert r.dryL + r.dryR == (1.0 - r.pan) * r.dry + r.pan * r.dry;
    }
  }
}
