/**
 * Owning audio frames: one sample per channel for one time index, with
 * elementwise and scalar arithmetic and lexicographic ordering.
 */
module AudioFrames {

  /** The four arithmetic operators every frame type provides. */
  datatype BinOp = Plus | Minus | Times | Divide

  /** Over the reals a division needs a nonzero divisor. */
  predicate Defined(op: BinOp, divisor: real)
  {
    op != Divide || divisor != 0.0
  }

  function Apply(op: BinOp, x: real, y: real): real
    requires Defined(op, y)
  {
    match op
    case Plus => x + y
    case Minus => x - y
    case Times => x * y
    case Divide => x / y
  }

  /** `AudioFrame<N>`: exactly N samples, N being the number of channels. */
  datatype AudioFrame = AudioFrame(data: seq<real>)
  {
    function Channels(): nat { |data| }
  }

  /** `frame(args...)`: one channel per argument, in argument order. */
  function MakeFrame(args: seq<real>): (r: AudioFrame)
    ensures r.Channels() == |args|
    ensures forall i :: 0 <= i < |args| ==> At(r, i) == args[i]
  {
    AudioFrame(args)
  }

  /** `operator[]`: the sample of channel `i`, which must exist. */
  function At(a: AudioFrame, i: int): real
    requires 0 <= i < a.Channels()
  {
    a.data[i]
  }

  /** The frame whose every channel holds `v`. */
  function Constant(n: nat, v: real): (r: AudioFrame)
    ensures r.Channels() == n
    ensures forall i :: 0 <= i < n ==> At(r, i) == v
  {
    AudioFrame(seq(n, _ => v))
  }

  // ---------------------------------------------------------------------------
  // Transforms
  // ---------------------------------------------------------------------------

  /** `transform(f)`: a new frame holding `f` of every sample. */
  function Transform(a: AudioFrame, f: real -> real): (r: AudioFrame)
    ensures r.Channels() == a.Channels()
    ensures forall i :: 0 <= i < a.Channels() ==> At(r, i) == f(At(a, i))
  {
    AudioFrame(seq(|a.data|, i requires 0 <= i < |a.data| => f(a.data[i])))
  }

  /** `transform(af, f)`: a new frame combining the two frames channel by channel. */
  function Transform2(a: AudioFrame, b: AudioFrame, f: (real, real) -> real): (r: AudioFrame)
    requires a.Channels() == b.Channels()
    ensures r.Channels() == a.Channels()
    ensures forall i :: 0 <= i < a.Channels() ==> At(r, i) == f(At(a, i), At(b, i))
  {
    AudioFrame(seq(|a.data|, i requires 0 <= i < |a.data| => f(a.data[i], b.data[i])))
  }

  // ---------------------------------------------------------------------------
  // Arithmetic
  // ---------------------------------------------------------------------------

  /** Every channel of `b` is a legal right operand of `op`. */
  predicate DefinedOn(op: BinOp, b: AudioFrame)
  {
    forall i :: 0 <= i < |b.data| ==> Defined(op, b.data[i])
  }

  /** `a op b` for two frames of the same arity. */
  function FrameOp(a: AudioFrame, op: BinOp, b: AudioFrame): (r: AudioFrame)
    requires a.Channels() == b.Channels() && DefinedOn(op, b)
    ensures r.Channels() == a.Channels()
    ensures forall i :: 0 <= i < a.Channels() ==> At(r, i) == Apply(op, At(a, i), At(b, i))
  {
    AudioFrame(seq(|a.data|, i requires 0 <= i < |a.data| => Apply(op, a.data[i], b.data[i])))
  }

  /** The member `a op f`: the scalar is the right operand of every channel. */
  function ScalarOp(a: AudioFrame, op: BinOp, f: real): (r: AudioFrame)
    requires Defined(op, f)
    ensures r.Channels() == a.Channels()
    ensures forall i :: 0 <= i < a.Channels() ==> At(r, i) == Apply(op, At(a, i), f)
  {
    AudioFrame(seq(|a.data|, i requires 0 <= i < |a.data| => Apply(op, a.data[i], f)))
  }

  /** The non-member `f op a`: the scalar stays the LEFT operand. */
  function OpScalar(f: real, op: BinOp, a: AudioFrame): (r: AudioFrame)
    requires DefinedOn(op, a)
    ensures r.Channels() == a.Channels()
    ensures forall i :: 0 <= i < a.Channels() ==> At(r, i) == Apply(op, f, At(a, i))
  {
    AudioFrame(seq(|a.data|, i requires 0 <= i < |a.data| => Apply(op, f, a.data[i])))
  }

  /** Frame addition commutes and subtracting a frame from itself gives silence. */
  lemma AddCommutesSubSelfIsZero(a: AudioFrame, b: AudioFrame)
    requires a.Channels() == b.Channels()
    ensures FrameOp(a, Plus, b) == FrameOp(b, Plus, a)
    ensures FrameOp(a, Minus, a) == Constant(a.Channels(), 0.0)
  {
    assert FrameOp(a, Plus, b).data == FrameOp(b, Plus, a).data;
    assert FrameOp(a, Minus, a).data == Constant(a.Channels(), 0.0).data;
  }

  /** Subtracting what was added gives back the original frame. */
  lemma AddThenSubtract(a: AudioFrame, b: AudioFrame)
    requires a.Channels() == b.Channels()
    ensures FrameOp(FrameOp(a, Plus, b), Minus, b) == a
  {
    assert FrameOp(FrameOp(a, Plus, b), Minus, b).data == a.data;
  }

  /** The non-member `f - a` keeps its operand order: adding `a` back gives
      the constant frame `f`, while the member `a - f` plus `f` gives `a`. */
  lemma ScalarOperandOrder(f: real, a: AudioFrame)
    ensures FrameOp(OpScalar(f, Minus, a), Plus, a) == Constant(a.Channels(), f)
    ensures ScalarOp(ScalarOp(a, Minus, f), Plus, f) == a
  {
    assert FrameOp(OpScalar(f, Minus, a), Plus, a).data == Constant(a.Channels(), f).data;
    assert ScalarOp(ScalarOp(a, Minus, f), Plus, f).data == a.data;
  }

  /** Every frame operator is the two-frame transform of the matching scalar
      operator, and every scalar operator a one-frame transform. */
  lemma OperatorsAreTransforms(a: AudioFrame, b: AudioFrame, f: real)
    requires a.Channels() == b.Channels()
    ensures FrameOp(a, Plus, b) == Transform2(a, b, (x, y) => x + y)
    ensures FrameOp(a, Times, b) == Transform2(a, b, (x, y) => x * y)
    ensures ScalarOp(a, Minus, f) == Transform(a, x => x - f)
    ensures OpScalar(f, Minus, a) == Transform(a, x => f - x)
  {
    assert FrameOp(a, Plus, b).data == Transform2(a, b, (x, y) => x + y).data;
    assert FrameOp(a, Times, b).data == Transform2(a, b, (x, y) => x * y).data;
    assert ScalarOp(a, Minus, f).data == Transform(a, x => x - f).data;
    assert OpScalar(f, Minus, a).data == Transform(a, x => f - x).data;
  }

  // ---------------------------------------------------------------------------
  // Compound assignment (`transform_in_place`): channel by channel, in order
  // ---------------------------------------------------------------------------

  /** `a op= b`: leaves `a` equal to the out-of-place `a op b`. */
  method OpAssign(a: AudioFrame, op: BinOp, b: AudioFrame) returns (r: AudioFrame)
    requires a.Channels() == b.Channels() && DefinedOn(op, b)
    ensures r == FrameOp(a, op, b)
  {
    var data := a.data;
    var i := 0;
    while i < |data|
      invariant 0 <= i <= |data| == |a.data|
      invariant forall j :: 0 <= j < i ==> data[j] == Apply(op, a.data[j], b.data[j])
      invariant forall j :: i <= j < |data| ==> data[j] == a.data[j]
    {
      data := data[i := Apply(op, data[i], b.data[i])];
      i := i + 1;
    }
    r := AudioFrame(data);
    assert r.data == FrameOp(a, op, b).data;
  }

  /** `a op= f`: leaves `a` equal to the out-of-place `a op f`. */
  method ScalarOpAssign(a: AudioFrame, op: BinOp, f: real) returns (r: AudioFrame)
    requires Defined(op, f)
    ensures r == ScalarOp(a, op, f)
  {
    var data := a.data;
    var i := 0;
    while i < |data|
      invariant 0 <= i <= |data| == |a.data|
      invariant forall j :: 0 <= j < i ==> data[j] == Apply(op, a.data[j], f)
      invariant forall j :: i <= j < |data| ==> data[j] == a.data[j]
    {
      data := data[i := Apply(op, data[i], f)];
      i := i + 1;
    }
    r := AudioFrame(data);
    assert r.data == ScalarOp(a, op, f).data;
  }

  // ---------------------------------------------------------------------------
  // Comparison
  // ---------------------------------------------------------------------------

  /** `==`: channel-by-channel equality (of frames of one arity). */
  function Eq(a: AudioFrame, b: AudioFrame): (r: bool)
    requires a.Channels() == b.Channels()
    ensures r <==> forall i :: 0 <= i < a.Channels() ==> At(a, i) == At(b, i)
    ensures r <==> a == b
  {
    assert (forall i :: 0 <= i < a.Channels() ==> At(a, i) == At(b, i)) ==> a.data == b.data by {
      if forall i :: 0 <= i < a.Channels() ==> At(a, i) == At(b, i) {
        assert forall i :: 0 <= i < |a.data| ==> a.data[i] == At(a, i);
      }
    }
    a.data == b.data
  }

  /** `!=` is the negation of `==`. */
  function Ne(a: AudioFrame, b: AudioFrame): (r: bool)
    requires a.Channels() == b.Channels()
    ensures r <==> exists i :: 0 <= i < a.Channels() && At(a, i) != At(b, i)
  {
    !Eq(a, b)
  }

  /** Lexicographic comparison of two sample sequences, as the standard
      library's `lexicographical_compare` defines it. */
  function LexLess(a: seq<real>, b: seq<real>): bool
  {
    if |a| == 0 then |b| > 0
    else if |b| == 0 then false
    else if a[0] < b[0] then true
    else if b[0] < a[0] then false
    else LexLess(a[1..], b[1..])
  }

  /** `k` is the first index where `a` and `b` differ, and there `a` is smaller. */
  predicate FirstDifferenceBelow(a: seq<real>, b: seq<real>, k: int)
  {
    0 <= k < |a| && k < |b| && a[..k] == b[..k] && a[k] < b[k]
  }

  /** For sequences of one length, `LexLess` holds exactly when the first
      differing position is smaller in the left sequence. */
  lemma {:induction false} LexLessFirstDifference(a: seq<real>, b: seq<real>)
    requires |a| == |b|
    ensures LexLess(a, b) <==> exists k :: FirstDifferenceBelow(a, b, k)
  {
    if |a| == 0 {
    } else if a[0] < b[0] {
      assert FirstDifferenceBelow(a, b, 0);
    } else if b[0] < a[0] {
    } else {
      LexLessFirstDifference(a[1..], b[1..]);
      if LexLess(a, b) {
        var k :| FirstDifferenceBelow(a[1..], b[1..], k);
        assert a[..k + 1] == [a[0]] + a[1..][..k];
        assert b[..k + 1] == [b[0]] + b[1..][..k];
        assert FirstDifferenceBelow(a, b, k + 1);
      }
      if k :| FirstDifferenceBelow(a, b, k) {
        assert a[1..][..k - 1] == a[..k][1..];
        assert b[1..][..k - 1] == b[..k][1..];
        assert FirstDifferenceBelow(a[1..], b[1..], k - 1);
      }
    }
  }

  /** `LexLess` is a strict order: irreflexive and transitive. */
  lemma {:induction false} LexLessStrictOrder(a: seq<real>, b: seq<real>, c: seq<real>)
    ensures !LexLess(a, a)
    ensures LexLess(a, b) && LexLess(b, c) ==> LexLess(a, c)
  {
    if |a| > 0 {
      LexLessStrictOrder(a[1..], a[1..], a[1..]);
    }
    if |a| > 0 && |b| > 0 && |c| > 0 {
      LexLessStrictOrder(a[1..], b[1..], c[1..]);
    }
  }

  /** On sequences of one length exactly one of `a < b`, `a == b`, `b < a` holds. */
  lemma {:induction false} LexLessTrichotomy(a: seq<real>, b: seq<real>)
    requires |a| == |b|
    ensures LexLess(a, b) || a == b || LexLess(b, a)
    ensures !(LexLess(a, b) && LexLess(b, a))
    ensures a == b ==> !LexLess(a, b)
  {
    if |a| > 0 {
      LexLessTrichotomy(a[1..], b[1..]);
      if a[0] == b[0] && a[1..] == b[1..] {
        assert a == [a[0]] + a[1..];
        assert b == [b[0]] + b[1..];
      }
    }
    LexLessStrictOrder(a, a, a);
  }

  /** `<`: lexicographic, hence strict. */
  function Lt(a: AudioFrame, b: AudioFrame): (r: bool)
    ensures r ==> a != b
  {
    LexLessStrictOrder(a.data, a.data, a.data);
    LexLess(a.data, b.data)
  }

  /** `>`: `<` with the arguments swapped. */
  function Gt(a: AudioFrame, b: AudioFrame): (r: bool)
    ensures r <==> Lt(b, a)
  {
    LexLess(b.data, a.data)
  }

  /** `<=`: not `>`; on frames of one arity, `<` or equal. */
  function Le(a: AudioFrame, b: AudioFrame): (r: bool)
    ensures a.Channels() == b.Channels() ==> (r <==> Lt(a, b) || a == b)
  {
    if a.Channels() == b.Channels() then
      LexLessTrichotomy(a.data, b.data);
      !Gt(a, b)
    else !Gt(a, b)
  }

  /** `>=`: not `<`; on frames of one arity, `>` or equal. */
  function Ge(a: AudioFrame, b: AudioFrame): (r: bool)
    ensures a.Channels() == b.Channels() ==> (r <==> Gt(a, b) || a == b)
  {
    if a.Channels() == b.Channels() then
      LexLessTrichotomy(a.data, b.data);
      !Lt(a, b)
    else !Lt(a, b)
  }

  /** On frames of one arity `<=` is a total order (reflexive, antisymmetric,
      transitive, total), `>=` is its converse and `<` its strict part. */
  lemma FrameOrderIsTotal(a: AudioFrame, b: AudioFrame, c: AudioFrame)
    requires a.Channels() == b.Channels() == c.Channels()
    ensures Le(a, a)
    ensures Le(a, b) && Le(b, a) ==> a == b
    ensures Le(a, b) && Le(b, c) ==> Le(a, c)
    ensures Le(a, b) || Le(b, a)
    ensures Ge(a, b) <==> Le(b, a)
    ensures Lt(a, b) <==> Le(a, b) && a != b
  {
    LexLessStrictOrder(a.data, b.data, c.data);
    LexLessStrictOrder(c.data, b.data, a.data);
    LexLessTrichotomy(a.data, b.data);
    LexLessTrichotomy(b.data, c.data);
    LexLessTrichotomy(a.data, c.data);
  }
}
