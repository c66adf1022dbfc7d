/**
 * The per-cycle unit of exchange between pipeline stages: a number of
 * non-owning audio buffer handles, a MIDI event queue and a frame count.
 *
 * The source specialises the record for 0, 1 and N channels; here one
 * datatype covers every arity, the arity being the number of handles.
 */
module Processor {

  /** A non-owning handle on `length` contiguous samples of one channel,
      starting at `offset` inside the storage block numbered `storage`. */
  datatype BufferHandle = BufferHandle(storage: nat, offset: nat, length: nat)

  /** The sample memory the handles point into: one sequence per storage block. */
  type Storage = seq<seq<real>>

  /** A MIDI event of the per-cycle queue (the wire encoding is not modelled). */
  datatype MidiEvent =
    | NoteOn(channel: nat, key: nat, velocity: nat)
    | NoteOff(channel: nat, key: nat, velocity: nat)
    | ControlChange(channel: nat, controller: nat, value: nat)

  datatype ProcessData = ProcessData(audio: seq<BufferHandle>, midi: seq<MidiEvent>, nframes: int)
  {
    /** Number of audio channels, the `N` of `ProcessData<N>`. */
    function Arity(): nat { |audio| }
  }

  // ---------------------------------------------------------------------------
  // Buffer handles
  // ---------------------------------------------------------------------------

  /** A handle points at memory that exists. */
  predicate Valid(store: Storage, h: BufferHandle)
  {
    h.storage < |store| && h.offset + h.length <= |store[h.storage]|
  }

  /** The samples a valid handle designates. */
  function Read(store: Storage, h: BufferHandle): (r: seq<real>)
    requires Valid(store, h)
    ensures |r| == h.length
  {
    store[h.storage][h.offset .. h.offset + h.length]
  }

  /** Zero-copy slicing of one handle: only the window moves. */
  function SliceHandle(h: BufferHandle, idx: nat, len: nat): (r: BufferHandle)
    requires idx + len <= h.length
    ensures r.storage == h.storage && r.length == len
    ensures r.offset - h.offset == idx
  {
    BufferHandle(h.storage, h.offset + idx, len)
  }

  /** Slicing a handle designates exactly the matching window of the original
      samples, without copying anything. */
  lemma SliceHandleReadsWindow(store: Storage, h: BufferHandle, idx: nat, len: nat)
    requires Valid(store, h)
    requires idx + len <= h.length
    ensures Valid(store, SliceHandle(h, idx, len))
    ensures Read(store, SliceHandle(h, idx, len)) == Read(store, h)[idx .. idx + len]
  {
  }

  // ---------------------------------------------------------------------------
  // Constructors
  // ---------------------------------------------------------------------------

  /** The constructor taking handles and MIDI but no frame count: the frame
      count is the length of channel 0. */
  function FromAudioAndMidi(audio: seq<BufferHandle>, midi: seq<MidiEvent>): (r: ProcessData)
    requires |audio| >= 1
    ensures r.audio == audio && r.midi == midi
    ensures r.nframes == audio[0].length
  {
    ProcessData(audio, midi, audio[0].length)
  }

  /** The audio-only constructor: frame count from channel 0, empty MIDI queue. */
  function FromAudio(audio: seq<BufferHandle>): (r: ProcessData)
    requires |audio| >= 1
    ensures r.audio == audio && r.midi == []
    ensures r.nframes == audio[0].length
  {
    FromAudioAndMidi(audio, [])
  }

  /** `ProcessData<0>`: MIDI and a frame count, no audio. */
  function MidiData(midi: seq<MidiEvent>, nframes: int): (r: ProcessData)
    ensures r.Arity() == 0 && r.midi == midi && r.nframes == nframes
  {
    ProcessData([], midi, nframes)
  }

  /** Every handle spans exactly the frame count: the normal state of a record. */
  predicate Consistent(p: ProcessData)
  {
    forall c :: 0 <= c < |p.audio| ==> p.audio[c].length == p.nframes
  }

  /** The constructors without a frame count give a consistent record exactly
      when all handles are as long as channel 0. */
  lemma ConstructedConsistentIffEqualLengths(audio: seq<BufferHandle>, midi: seq<MidiEvent>)
    requires |audio| >= 1
    ensures Consistent(FromAudioAndMidi(audio, midi))
        <==> forall c :: 0 <= c < |audio| ==> audio[c].length == audio[0].length
    ensures Consistent(FromAudio(audio)) <==> Consistent(FromAudioAndMidi(audio, midi))
  {
  }

  /** The one-channel constructors, from a handle or from a one-element array
      alike, build a consistent record whose frame count is the handle's
      length; slicing it from 0 to the end, or keeping only its MIDI, gives
      what the record already says. */
  lemma MonoRecordIsConsistent(h: BufferHandle, midi: seq<MidiEvent>)
    ensures Consistent(FromAudioAndMidi([h], midi)) && FromAudioAndMidi([h], midi).nframes == h.length
    ensures Consistent(FromAudio([h])) && FromAudio([h]).nframes == h.length
    ensures Consistent(MidiData(midi, h.length).(audio := [h]))
    ensures MidiOnly(FromAudioAndMidi([h], midi)) == MidiData(midi, h.length)
  {
  }

  // ---------------------------------------------------------------------------
  // Structural rewrites
  // ---------------------------------------------------------------------------

  /** Drop the audio, keep MIDI and frame count (result arity 0). */
  function MidiOnly(p: ProcessData): (r: ProcessData)
    ensures r.Arity() == 0
    ensures r.midi == p.midi && r.nframes == p.nframes
  {
    MidiData(p.midi, p.nframes)
  }

  /** Keep the audio and frame count, with an empty MIDI queue. */
  function AudioOnly(p: ProcessData): (r: ProcessData)
    ensures r.audio == p.audio && r.nframes == p.nframes
    ensures r.midi == []
  {
    ProcessData(p.audio, [], p.nframes)
  }

  /** Install other buffers (of any arity, also from an arity-0 record);
      MIDI and frame count are kept. No length check is made: matching the
      arity is the caller's business. */
  function Redirect(p: ProcessData, buf: seq<BufferHandle>): (r: ProcessData)
    ensures r.audio == buf
    ensures r.midi == p.midi && r.nframes == p.nframes
  {
    ProcessData(buf, p.midi, p.nframes)
  }

  /** The single-handle overload of `redirect`. */
  function RedirectOne(p: ProcessData, buf: BufferHandle): (r: ProcessData)
    ensures r.Arity() == 1 && r.audio[0] == buf
    ensures r.midi == p.midi && r.nframes == p.nframes
  {
    Redirect(p, [buf])
  }

  /** Redirecting away and back again gives the original record. */
  lemma RedirectRoundTrip(p: ProcessData, buf: seq<BufferHandle>)
    ensures Redirect(Redirect(p, buf), p.audio) == p
    ensures Redirect(RedirectOne(p, buf[0]), p.audio) == p
    requires |buf| >= 1
  {
  }

  /** `midi_only` then `redirect` back to the original handles restores the
      record: the arity-0 record keeps everything but the audio. Redirecting
      an arity-0 record and dropping the audio again gives it back. */
  lemma MidiOnlyRedirectRoundTrip(p: ProcessData, m: seq<MidiEvent>, n: int, buf: seq<BufferHandle>)
    ensures Redirect(MidiOnly(p), p.audio) == p
    ensures MidiOnly(Redirect(MidiData(m, n), buf)) == MidiData(m, n)
  {
  }

  /** `audio_only` is idempotent, keeps consistency either way, and splits a
      record into its audio part and its MIDI part with nothing lost. */
  lemma AudioOnlyLaws(p: ProcessData)
    ensures AudioOnly(AudioOnly(p)) == AudioOnly(p)
    ensures Consistent(AudioOnly(p)) <==> Consistent(p)
    ensures MidiOnly(AudioOnly(p)) == MidiData([], p.nframes)
    ensures AudioOnly(p).(midi := MidiOnly(p).midi) == p
  {
  }

  /** The frame count a slice ends up with: a negative length means "to the end". */
  function SliceLength(nframes: int, idx: int, length: int): int
  {
    if length < 0 then nframes - idx else length
  }

  /** What `slice` documents of its caller, plus the room the handles need. */
  predicate CanSlice(p: ProcessData, idx: int, length: int)
  {
    && 0 <= idx < p.nframes
    && (length < 0 || length <= p.nframes - idx)
    && forall c :: 0 <= c < |p.audio| ==> idx + SliceLength(p.nframes, idx, length) <= p.audio[c].length
  }

  /** Keep `length` frames starting at `idx`: a copy of the record in which only
      the frame count and the handle windows change. */
  function Slice(p: ProcessData, idx: int, length: int): (r: ProcessData)
    requires CanSlice(p, idx, length)
    ensures r.nframes == (if length < 0 then p.nframes - idx else length)
    ensures 0 <= r.nframes <= p.nframes - idx
    ensures r.midi == p.midi
    ensures |r.audio| == |p.audio|
    ensures forall c :: 0 <= c < |r.audio| ==>
              && r.audio[c].storage == p.audio[c].storage
              && r.audio[c].offset == p.audio[c].offset + idx
              && r.audio[c].length == r.nframes
  {
    var n := SliceLength(p.nframes, idx, length);
    ProcessData(seq(|p.audio|, c requires 0 <= c < |p.audio| => SliceHandle(p.audio[c], idx, n)), p.midi, n)
  }

  /** On a consistent record the documented precondition of `slice` is
      enough: every handle is then long enough for the window. */
  lemma DocumentedSlicePreconditionSuffices(p: ProcessData, idx: int, length: int)
    requires Consistent(p)
    requires 0 <= idx < p.nframes && (length < 0 || length <= p.nframes - idx)
    ensures CanSlice(p, idx, length)
  {
  }

  /** Slicing a consistent record gives a consistent record whose channels read
      the matching window of the original samples. */
  lemma SliceIsZeroCopyWindow(store: Storage, p: ProcessData, idx: int, length: int, c: nat)
    requires CanSlice(p, idx, length)
    requires c < |p.audio| && Valid(store, p.audio[c])
    ensures Consistent(Slice(p, idx, length))
    ensures Valid(store, Slice(p, idx, length).audio[c])
    ensures Read(store, Slice(p, idx, length).audio[c])
         == Read(store, p.audio[c])[idx .. idx + SliceLength(p.nframes, idx, length)]
  {
    SliceHandleReadsWindow(store, p.audio[c], idx, SliceLength(p.nframes, idx, length));
  }

  /** Slicing twice is one slice at the summed index. */
  lemma SliceOfSlice(p: ProcessData, i: int, l: int, j: int, m: int)
    requires CanSlice(p, i, l)
    requires CanSlice(Slice(p, i, l), j, m)
    ensures CanSlice(p, i + j, SliceLength(Slice(p, i, l).nframes, j, m))
    ensures Slice(Slice(p, i, l), j, m) == Slice(p, i + j, SliceLength(Slice(p, i, l).nframes, j, m))
  {
  }

  /** Slicing a consistent record from 0 to the end changes nothing. */
  lemma SliceWholeIsIdentity(p: ProcessData)
    requires Consistent(p) && p.nframes > 0
    ensures CanSlice(p, 0, -1)
    ensures Slice(p, 0, -1) == p
  {
    var r := Slice(p, 0, -1);
    assert r.audio == p.audio;
  }

  /** Emptying the MIDI queue and slicing commute. */
  lemma AudioOnlySliceCommute(p: ProcessData, idx: int, length: int)
    requires CanSlice(p, idx, length)
    ensures CanSlice(AudioOnly(p), idx, length)
    ensures Slice(AudioOnly(p), idx, length) == AudioOnly(Slice(p, idx, length))
  {
  }
}
