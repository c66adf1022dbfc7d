/**
 * Aliasing audio frames (`AudioFrameRef<N>`): N references into a heap of
 * sample cells. In-place operators write through to the referenced cells;
 * out-of-place operators produce an owning `AudioFrame`.
 */
module FrameRefs {
  import opened AudioFrames

  /** The sample cells references point into. */
  type Heap = seq<real>

  /** `AudioFrameRef<N>`: one cell number per channel. */
  datatype AudioFrameRef = AudioFrameRef(cells: seq<nat>)
  {
    function Channels(): nat { |cells| }
  }

  predicate ValidRef(heap: Heap, r: AudioFrameRef)
  {
    forall i :: 0 <= i < |r.cells| ==> r.cells[i] < |heap|
  }

  /** No two channels share a cell. */
  predicate Unaliased(r: AudioFrameRef)
  {
    forall i, j :: 0 <= i < j < |r.cells| ==> r.cells[i] != r.cells[j]
  }

  /** The conversion to an owning frame: a copy of the referenced samples. */
  function ToFrame(heap: Heap, r: AudioFrameRef): (f: AudioFrame)
    requires ValidRef(heap, r)
    ensures f.Channels() == r.Channels()
    ensures forall i :: 0 <= i < r.Channels() ==> At(f, i) == heap[r.cells[i]]
  {
    AudioFrame(seq(|r.cells|, i requires 0 <= i < |r.cells| => heap[r.cells[i]]))
  }

  /** `frame_ref(args...)` takes its arguments by value, builds a reference
      to those copies, and is declared to return `AudioFrame`: the caller
      receives an owning frame of the argument values, one channel per
      argument in order, read back through the reference while the copies
      are alive. */
  function FrameRefOf(args: seq<real>): (f: AudioFrame)
    ensures f == MakeFrame(args)
  {
    var r := AudioFrameRef(seq(|args|, i requires 0 <= i < |args| => i));
    var f := ToFrame(args, r);
    assert f.data == args;
    f
  }

  /** `operator[]` of a reference frame reads the referenced cell. */
  function RefAt(heap: Heap, r: AudioFrameRef, i: int): (v: real)
    requires ValidRef(heap, r) && 0 <= i < r.Channels()
    ensures v == At(ToFrame(heap, r), i)
  {
    heap[r.cells[i]]
  }

  // ---------------------------------------------------------------------------
  // Out-of-place operators: an owning frame, the heap untouched
  // ---------------------------------------------------------------------------

  /** `ref op af`: the owning result of applying `op` to the current values. */
  function RefOp(heap: Heap, r: AudioFrameRef, op: BinOp, b: AudioFrame): (f: AudioFrame)
    requires ValidRef(heap, r) && r.Channels() == b.Channels() && DefinedOn(op, b)
    ensures f.Channels() == r.Channels()
    ensures forall i :: 0 <= i < r.Channels() ==> At(f, i) == Apply(op, heap[r.cells[i]], At(b, i))
  {
    FrameOp(ToFrame(heap, r), op, b)
  }

  /** `ref op x` for a scalar `x`. */
  function RefScalarOp(heap: Heap, r: AudioFrameRef, op: BinOp, x: real): (f: AudioFrame)
    requires ValidRef(heap, r) && Defined(op, x)
    ensures f.Channels() == r.Channels()
    ensures forall i :: 0 <= i < r.Channels() ==> At(f, i) == Apply(op, heap[r.cells[i]], x)
  {
    ScalarOp(ToFrame(heap, r), op, x)
  }

  /** The non-member `x op ref`: the scalar stays the left operand. */
  function ScalarRefOp(heap: Heap, x: real, op: BinOp, r: AudioFrameRef): (f: AudioFrame)
    requires ValidRef(heap, r) && DefinedOn(op, ToFrame(heap, r))
    ensures f.Channels() == r.Channels()
    ensures forall i :: 0 <= i < r.Channels() ==> At(f, i) == Apply(op, x, heap[r.cells[i]])
  {
    OpScalar(x, op, ToFrame(heap, r))
  }

  /** Comparisons of a reference frame are those of its owning copy against
      an owning frame. */
  function RefEq(heap: Heap, r: AudioFrameRef, b: AudioFrame): (e: bool)
    requires ValidRef(heap, r) && r.Channels() == b.Channels()
    ensures e <==> forall i :: 0 <= i < r.Channels() ==> heap[r.cells[i]] == At(b, i)
  {
    Eq(ToFrame(heap, r), b)
  }

  function RefLt(heap: Heap, r: AudioFrameRef, b: AudioFrame): (l: bool)
    requires ValidRef(heap, r)
    ensures l <==> LexLess(ToFrame(heap, r).data, b.data)
  {
    Lt(ToFrame(heap, r), b)
  }

  // ---------------------------------------------------------------------------
  // In-place operators: write through, channel 0 first
  // ---------------------------------------------------------------------------

  /** `ref op= af`: channel `i` writes `heap[cell i] op af[i]`, in channel
      order. Only referenced cells change; without aliasing the referenced
      values end up equal to the out-of-place `ref op af`. */
  method RefOpAssign(heap: Heap, r: AudioFrameRef, op: BinOp, b: AudioFrame) returns (h: Heap)
    requires ValidRef(heap, r) && r.Channels() == b.Channels() && DefinedOn(op, b)
    ensures |h| == |heap| && ValidRef(h, r)
    ensures forall c :: 0 <= c < |heap| && c !in r.cells ==> h[c] == heap[c]
    ensures Unaliased(r) ==> ToFrame(h, r) == RefOp(heap, r, op, b)
  {
    h := heap;
    var i := 0;
    while i < |r.cells|
      invariant 0 <= i <= |r.cells|
      invariant |h| == |heap|
      invariant forall c :: 0 <= c < |heap| && c !in r.cells[..i] ==> h[c] == heap[c]
      invariant Unaliased(r) ==> forall j :: 0 <= j < i ==> h[r.cells[j]] == Apply(op, heap[r.cells[j]], b.data[j])
    {
      h := h[r.cells[i] := Apply(op, h[r.cells[i]], b.data[i])];
      assert r.cells[..i + 1] == r.cells[..i] + [r.cells[i]];
      i := i + 1;
    }
    assert r.cells[..i] == r.cells;
    if Unaliased(r) {
      assert ToFrame(h, r).data == RefOp(heap, r, op, b).data;
    }
  }

  /** `ref op= x` for a scalar `x`. */
  method RefScalarOpAssign(heap: Heap, r: AudioFrameRef, op: BinOp, x: real) returns (h: Heap)
    requires ValidRef(heap, r) && Defined(op, x)
    ensures |h| == |heap| && ValidRef(h, r)
    ensures forall c :: 0 <= c < |heap| && c !in r.cells ==> h[c] == heap[c]
    ensures Unaliased(r) ==> ToFrame(h, r) == RefScalarOp(heap, r, op, x)
  {
    h := heap;
    var i := 0;
    while i < |r.cells|
      invariant 0 <= i <= |r.cells|
      invariant |h| == |heap|
      invariant forall c :: 0 <= c < |heap| && c !in r.cells[..i] ==> h[c] == heap[c]
      invariant Unaliased(r) ==> forall j :: 0 <= j < i ==> h[r.cells[j]] == Apply(op, heap[r.cells[j]], x)
    {
      h := h[r.cells[i] := Apply(op, h[r.cells[i]], x)];
      assert r.cells[..i + 1] == r.cells[..i] + [r.cells[i]];
      i := i + 1;
    }
    assert r.cells[..i] == r.cells;
    if Unaliased(r) {
      assert ToFrame(h, r).data == RefScalarOp(heap, r, op, x).data;
    }
  }

  // ---------------------------------------------------------------------------
  // zip_audio_transform
  // ---------------------------------------------------------------------------

  /** Over const references: the values are copied into an owning frame. */
  function ZipTransformConst(heap: Heap, cells: seq<nat>): (f: AudioFrame)
    requires ValidRef(heap, AudioFrameRef(cells))
    ensures f.Channels() == |cells|
    ensures forall i :: 0 <= i < |cells| ==> At(f, i) == heap[cells[i]]
  {
    MakeFrame(seq(|cells|, i requires 0 <= i < |cells| => heap[cells[i]]))
  }

  /** Over mutable references: a reference frame aliasing each argument. */
  function ZipTransformMutable(cells: seq<nat>): (r: AudioFrameRef)
    ensures r.Channels() == |cells|
    ensures forall i :: 0 <= i < |cells| ==> r.cells[i] == cells[i]
  {
    AudioFrameRef(cells)
  }

  /** The two overloads agree on values: converting the aliasing frame gives
      the copied frame. */
  lemma ZipTransformOverloadsAgree(heap: Heap, cells: seq<nat>)
    requires ValidRef(heap, AudioFrameRef(cells))
    ensures ToFrame(heap, ZipTransformMutable(cells)) == ZipTransformConst(heap, cells)
  {
    assert ToFrame(heap, ZipTransformMutable(cells)).data == ZipTransformConst(heap, cells).data;
  }
}
