/**
 * `zip_audio`: zip several channel buffers into a range of frames, each
 * frame holding one sample per channel at the same index.
 */
module ZipAudio {
  import opened AudioFrames
  import opened FrameRefs
  import opened Iterators

  function Lengths(chs: seq<seq<real>>): (r: seq<int>)
    ensures |r| == |chs| && forall k :: 0 <= k < |chs| ==> r[k] == |chs[k]|
  {
    seq(|chs|, k requires 0 <= k < |chs| => |chs[k]|)
  }

  /** Over const buffers: owning frames, as many as the shortest buffer
      holds; frame `i` holds sample `i` of every channel, in channel order. */
  function ZipAudioConst(chs: seq<seq<real>>): (r: seq<AudioFrame>)
    requires |chs| >= 1
    ensures |r| == Min(Lengths(chs))
    ensures forall i, k :: 0 <= i < |r| && 0 <= k < |chs| ==>
              r[i].Channels() == |chs| && At(r[i], k) == chs[k][i]
  {
    var n := ZipCount(Lengths(chs), 0);
    seq(n, i requires 0 <= i < n =>
      MakeFrame(seq(|chs|, k requires 0 <= k < |chs| => chs[k][i])))
  }

  /** Channel `k` stored in the heap from cell `bases[k]` on, `lens[k]` long. */
  predicate Laid(heap: Heap, bases: seq<nat>, lens: seq<nat>)
  {
    |bases| == |lens| && forall k :: 0 <= k < |bases| ==> bases[k] + lens[k] <= |heap|
  }

  function ReadChannels(heap: Heap, bases: seq<nat>, lens: seq<nat>): (chs: seq<seq<real>>)
    requires Laid(heap, bases, lens)
    ensures |chs| == |bases|
    ensures forall k :: 0 <= k < |chs| ==> chs[k] == heap[bases[k] .. bases[k] + lens[k]]
  {
    seq(|bases|, k requires 0 <= k < |bases| => heap[bases[k] .. bases[k] + lens[k]])
  }

  /** Over mutable buffers: reference frames whose channel `k` at index `i`
      aliases cell `bases[k] + i`. */
  function ZipAudioMutable(bases: seq<nat>, lens: seq<nat>): (r: seq<AudioFrameRef>)
    requires |bases| == |lens| >= 1
    ensures |r| == Min(lens)
    ensures forall i, k :: 0 <= i < |r| && 0 <= k < |bases| ==>
              r[i].Channels() == |bases| && r[i].cells[k] == bases[k] + i
  {
    var n := ZipCount(lens, 0);
    seq(n, i requires 0 <= i < n =>
      ZipTransformMutable(seq(|bases|, k requires 0 <= k < |bases| => bases[k] + i)))
  }

  /** Read channels are exactly as long as laid out. */
  lemma ReadChannelsLengths(heap: Heap, bases: seq<nat>, lens: seq<nat>)
    requires Laid(heap, bases, lens)
    ensures Lengths(ReadChannels(heap, bases, lens)) == lens
  {
    var ls := Lengths(ReadChannels(heap, bases, lens));
    assert |ls| == |lens|;
    assert forall k :: 0 <= k < |ls| ==> ls[k] == lens[k];
  }

  /** One cell of one frame: the mutable overload's channel `k` at index `i`
      reads sample `i` of channel `k`, as the const overload's frame holds. */
  lemma ZipAudioCellAgrees(heap: Heap, bases: seq<nat>, lens: seq<nat>, i: nat, k: nat)
    requires |bases| >= 1 && Laid(heap, bases, lens)
    requires i < Min(lens) && k < |bases|
    ensures Lengths(ReadChannels(heap, bases, lens)) == lens
    ensures ZipAudioMutable(bases, lens)[i].cells[k] == bases[k] + i < |heap|
    ensures ZipAudioConst(ReadChannels(heap, bases, lens))[i].Channels() == |bases|
    ensures heap[bases[k] + i] == At(ZipAudioConst(ReadChannels(heap, bases, lens))[i], k)
  {
    var chs := ReadChannels(heap, bases, lens);
    ReadChannelsLengths(heap, bases, lens);
    assert i < lens[k];
    assert chs[k][i] == heap[bases[k] + i];
  }

  /** A reference frame reads as `f` when every channel's cell holds `f`'s sample. */
  lemma ToFrameFromCells(heap: Heap, r: AudioFrameRef, f: AudioFrame)
    requires ValidRef(heap, r) && f.Channels() == r.Channels()
    requires forall k :: 0 <= k < r.Channels() ==> heap[r.cells[k]] == At(f, k)
    ensures ToFrame(heap, r) == f
  {
    var g := ToFrame(heap, r);
    forall k | 0 <= k < |f.data|
      ensures g.data[k] == f.data[k]
    {
      assert At(g, k) == heap[r.cells[k]];
    }
    assert g.data == f.data;
  }

  /** Reading through the aliasing frames gives the owning frames of the
      const overload over the same samples. */
  lemma ZipAudioOverloadsAgree(heap: Heap, bases: seq<nat>, lens: seq<nat>, i: nat)
    requires |bases| >= 1 && Laid(heap, bases, lens)
    requires i < Min(lens)
    ensures Lengths(ReadChannels(heap, bases, lens)) == lens
    ensures ValidRef(heap, ZipAudioMutable(bases, lens)[i])
    ensures ToFrame(heap, ZipAudioMutable(bases, lens)[i]) == ZipAudioConst(ReadChannels(heap, bases, lens))[i]
  {
    ReadChannelsLengths(heap, bases, lens);
    var r := ZipAudioMutable(bases, lens)[i];
    var f := ZipAudioConst(ReadChannels(heap, bases, lens))[i];
    assert r.Channels() == f.Channels() == |bases|;
    forall k | 0 <= k < |bases|
      ensures r.cells[k] < |heap| && heap[r.cells[k]] == At(f, k)
    {
      ZipAudioCellAgrees(heap, bases, lens, i, k);
    }
    ToFrameFromCells(heap, r, f);
  }
}
