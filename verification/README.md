# OTTO core, modelled in Dafny

This project models the deterministic core of OTTO, a synthesizer and
sampler whose audio engines exchange buffers, MIDI and control values once
per audio callback. Four groups of logic are modelled and proved here:

- **The per-cycle audio data model.**
  - `ProcessData` (module `Processor`) is a record of buffer handles, a MIDI queue and a frame count. It supports constructors, `slice`, `audio_only`, `midi_only` and `redirect`.
  - A buffer handle is (storage, offset, length), so a zero-copy slice is offset arithmetic.
  - `AudioFrame` (module `AudioFrames`) is a sample vector with elementwise and scalar arithmetic, compound assignment and lexicographic comparison.
  - `AudioFrameRef` (module `FrameRefs`) is a vector of cell numbers into a heap of samples. Its in-place operators write through to those cells.
  - `zip_audio` and `zip_audio_transform` (modules `ZipAudio` and `FrameRefs`) build frames across channels.
- **The lazy iterator and view library** (modules `Iterators` and `Views`). Iterators are positions in a sequence.
  - The facade derives `++`, `--`, `+`, `-` and the orderings from `advance` and `difference`.
  - It covers circular, filtering, zipped, adjacent-pair, transforming and generating iterators, and the sentinel iterator.
  - View operations become sequence functions and loop methods: fold, the three quantifiers, `find_if`, `collect`, `zip` and `indexed`.
- **Control-value mappings.**
  - The double filter's knob-to-cutoff and crossfade rules (module `DoubleFilter`).
  - The send-level normalisation of the sends engine around a shared scale (module `Sends`).
  - The dry/pan split of the sends engine's audio side (module `SendsAudio`).
- **The RtAudio driver's decision rules** (module `AudioDriver`):
  - device fallback, and the single retry without input;
  - the MIDI port filter;
  - the run and frame-count guards of the audio callback;
  - mono input duplication and stereo interleaving.

Samples, levels and knob values are `real`. Functions the source takes as
callables are Dafny function values. Optional results use `Maybe.Option`.

## Model

| member | source | states |
|---|---|---|
| Processor.FromAudioAndMidi | src/core/audio/processor.inl:15-19 | built from handles and MIDI without a frame count, the record keeps both and takes `nframes` from the first handle's length |
| Processor.FromAudio | src/core/audio/processor.inl:21-24 | the audio-only constructor starts with an empty MIDI queue and takes `nframes` from the first handle |
| Processor.MidiData | src/core/audio/processor.inl:76-79 | a zero-channel record keeps the given MIDI and frame count |
| Processor.ConstructedConsistentIffEqualLengths | src/core/audio/processor.inl:15-24 | a record built without a frame count has every handle spanning its frame count exactly when all handles are as long as channel 0, with or without MIDI |
| Processor.MonoRecordIsConsistent | src/core/audio/processor.inl:99-127 | a one-channel record built from a handle or a one-element array is consistent with the handle's length as frame count, and its `midi_only` is the arity-0 record of its MIDI and that count |
| Processor.MidiOnly | src/core/audio/processor.inl:26-30 | `midi_only` has no channels and the same MIDI and frame count |
| Processor.AudioOnly | src/core/audio/processor.inl:32-36 | `audio_only` keeps handles and frame count and empties the MIDI queue |
| Processor.Redirect | src/core/audio/processor.inl:38-43 | `redirect` installs exactly the given handles, of any arity, and keeps MIDI and frame count |
| Processor.RedirectOne | src/core/audio/processor.inl:45-49 | redirecting to one handle gives a one-channel record with that handle and the same MIDI and frame count |
| Processor.RedirectRoundTrip | src/core/audio/processor.inl:81-90 | redirecting away and back, to an array or a single handle, gives back the original record |
| Processor.MidiOnlyRedirectRoundTrip | src/core/audio/processor.inl:26-30 | `midi_only` followed by `redirect` to the original handles restores the record, and `midi_only` undoes a redirect of an arity-0 record |
| Processor.AudioOnlyLaws | src/core/audio/processor.inl:32-36 | `audio_only` is idempotent, preserves consistency both ways, and together with `midi_only` loses nothing of the record |
| Processor.AudioOnlySliceCommute | src/core/audio/processor.inl:32-66 | emptying the MIDI queue and slicing commute |
| Processor.Slice | src/core/audio/processor.inl:51-66 | under the documented precondition, with every handle long enough for the window (always true of a consistent record), the frame count becomes `length`, or `nframes - idx` for a negative length; MIDI is untouched; every handle keeps its storage and moves its offset by `idx` |
| Processor.DocumentedSlicePreconditionSuffices | src/core/audio/processor.inl:51-57 | on a consistent record, the documented bounds on `idx` and `length` alone let every handle be sliced |
| Processor.SliceHandleReadsWindow | src/core/audio/processor.inl:64 | a sliced handle reads exactly the samples `idx .. idx + len` of the original handle |
| Processor.SliceIsZeroCopyWindow | src/core/audio/processor.inl:58-66 | each channel of a slice reads the window `idx .. idx + nframes'` of the original samples |
| Processor.SliceOfSlice | src/core/audio/processor.inl:58-66 | slicing a slice is one slice of the original at the summed offset |
| Processor.SliceWholeIsIdentity | src/core/audio/processor.inl:58-66 | `slice(0, -1)` of a consistent record is the record itself |
| AudioFrames.MakeFrame | src/core/audio/audio_frame.hpp:151-155 | `frame(args...)` has one channel per argument, in argument order |
| AudioFrames.Transform | src/core/audio/audio_frame.inl:44-51 | `transform(f)` applies `f` to every channel and keeps the arity |
| AudioFrames.Transform2 | src/core/audio/audio_frame.inl:53-60 | the binary transform combines channel `i` of both frames |
| AudioFrames.FrameOp | src/core/audio/audio_frame.inl:76-115 | frame-by-frame `+ - * /` is elementwise |
| AudioFrames.ScalarOp | src/core/audio/audio_frame.inl:76-111 | a scalar on the right is broadcast to every channel |
| AudioFrames.OpScalar | src/core/audio/audio_frame.inl:191-210 | a scalar on the left keeps operand order, so `(f - a)[i] == f - a[i]` |
| AudioFrames.AddCommutesSubSelfIsZero | src/core/audio/audio_frame.inl:81-100 | frame addition commutes and `a - a` is the zero frame |
| AudioFrames.AddThenSubtract | src/core/audio/audio_frame.inl:81-100 | adding then subtracting the same frame gives back the original |
| AudioFrames.ScalarOperandOrder | src/core/audio/audio_frame.inl:191-210 | `(f - a) + a` is the constant frame `f`, and `(a - f) + f == a` |
| AudioFrames.OperatorsAreTransforms | src/core/audio/audio_frame.inl:53-60 | each operator is the matching transform with the scalar operator as its callable |
| AudioFrames.OpAssign | src/core/audio/audio_frame.inl:117-156 | the in-place frame operator leaves the frame equal to the out-of-place result |
| AudioFrames.ScalarOpAssign | src/core/audio/audio_frame.inl:117-150 | the in-place scalar operator leaves the frame equal to the out-of-place result |
| AudioFrames.Eq | src/core/audio/audio_frame.inl:158-162 | `==` holds iff every channel is equal |
| AudioFrames.Ne | src/core/audio/audio_frame.inl:163-167 | `!=` holds iff some channel differs |
| AudioFrames.At | src/core/audio/audio_frame.inl:62-74 | `operator[]` reads channel `i`, defined only below the arity as the debug assertion demands; every other frame contract is stated through it |
| AudioFrames.Lt | src/core/audio/audio_frame.inl:168-172 | `<` is lexicographic and hence never holds between equal frames |
| AudioFrames.Gt | src/core/audio/audio_frame.inl:173-177 | `a > b` is `b < a` |
| AudioFrames.Le | src/core/audio/audio_frame.inl:178-182 | `<=` is defined as not `>`, and on frames of one arity that is `<` or equal |
| AudioFrames.Ge | src/core/audio/audio_frame.inl:183-187 | `>=` is defined as not `<`, and on frames of one arity that is `>` or equal |
| AudioFrames.LexLessFirstDifference | src/core/audio/audio_frame.inl:168-172 | `<` holds iff at the first differing channel the left sample is smaller |
| AudioFrames.LexLessStrictOrder | src/core/audio/audio_frame.inl:168-172 | `<` is irreflexive and transitive |
| AudioFrames.LexLessTrichotomy | src/core/audio/audio_frame.inl:168-177 | for equal arity, exactly one of `a < b`, `a == b`, `b < a` holds |
| AudioFrames.FrameOrderIsTotal | src/core/audio/audio_frame.inl:168-187 | with `>` swapping the arguments, `<=` as not-greater and `>=` as not-less, `<=` is a total order consistent with `<` |
| FrameRefs.ToFrame | src/core/audio/audio_frame.hpp:142 | the conversion to an owning frame reads the referenced cells in order |
| FrameRefs.FrameRefOf | src/core/audio/audio_frame.hpp:157-161 | reading the by-value argument copies back through a reference gives exactly the frame `frame(args...)` builds |
| FrameRefs.RefAt | src/core/audio/audio_frame.inl:268-280 | element access through a ref reads the referenced cell |
| FrameRefs.RefOp | src/core/audio/audio_frame.inl:282-321 | a ref operator returns an owning frame computed elementwise from the referenced cells |
| FrameRefs.RefScalarOp | src/core/audio/audio_frame.inl:282-321 | a ref-and-scalar operator broadcasts the scalar over the referenced cells |
| FrameRefs.ScalarRefOp | src/core/audio/audio_frame.inl:397-416 | the non-member scalar-on-the-left operators keep operand order |
| FrameRefs.RefEq | src/core/audio/audio_frame.inl:364-373 | a ref equals an owning frame iff every referenced cell equals the matching channel |
| FrameRefs.RefLt | src/core/audio/audio_frame.inl:374-393 | ref ordering is the lexicographic order of the referenced values |
| FrameRefs.RefOpAssign | src/core/audio/audio_frame.inl:323-362 | the in-place ref operator changes no unreferenced cell, and with distinct cells the ref then reads the out-of-place result |
| FrameRefs.RefScalarOpAssign | src/core/audio/audio_frame.inl:234-266 | the same for the scalar in-place ref operators |
| FrameRefs.ZipTransformConst | src/core/audio/audio_frame.inl:427-433 | on const refs, the result is an owning frame of the referenced values |
| FrameRefs.ZipTransformMutable | src/core/audio/audio_frame.inl:419-425 | on mutable refs, the result is a ref aliasing each argument's cell |
| FrameRefs.ZipTransformOverloadsAgree | src/core/audio/audio_frame.inl:418-433 | reading the mutable overload's ref gives the const overload's frame |
| ZipAudio.ZipAudioConst | src/core/audio/audio_frame.inl:436-447 | zipping channels gives one frame per index up to the shortest channel, with channel `k` of frame `i` equal to sample `i` of channel `k` |
| ZipAudio.ZipAudioMutable | src/core/audio/audio_frame.inl:436-447 | the mutable overload gives, per index, refs to sample `i` of every channel |
| ZipAudio.ZipAudioOverloadsAgree | src/core/audio/audio_frame.inl:436-447 | the refs of the mutable overload read the frames of the const overload |
| Iterators.Advance | src/util/iterator.hpp:976-979 | `advance(n)` of each kind keeps the kind; a plain iterator and the corrected transforming iterator move by exactly `n`, and a circular iterator inside its range lands on `first + (pos - first + n) mod len` |
| Iterators.FacadeRandomAccessLaws | src/util/iterator.hpp:294-354 | `(it + d) - it == d`, `++`/`--` undo each other, the orderings follow the sign of `difference`, and `it[d] == *(it + d)` |
| Iterators.TransformAdvanceAsWritten | src/util/iterator.hpp:976-979 | the transforming iterator's `advance` as written moves one step whatever `n` is |
| Iterators.TransformAdvanceAsWrittenStepsLikeIncrement | src/util/iterator.hpp:976-979 | for one step the as-written `advance` agrees with `++`, so iteration by `++` alone is unaffected by the defect |
| Iterators.TransformAdvanceAsWrittenBreaksFacade | src/util/iterator.hpp:976-979 | as written, `it + 2` is one step away and `--` moves forward |
| Iterators.CircularAdvance | src/util/iterator.hpp:1094-1105 | circular `advance(n)` takes `abs(n)` single wrapping steps and, started inside `[first, last)`, never leaves it; `advance(0)` stays put |
| Iterators.CircularAdvanceIsModular | src/util/iterator.hpp:1094-1110 | circular `advance(n)` lands on `first + (pos - first + n) mod len` for either sign of `n` and never on `last` |
| Iterators.CircularViewUnbounded | src/util/iterator.hpp:1153-1161 | a circular view over a non-empty range starts at `begin` and never compares equal to its end |
| Iterators.NextValid | src/util/iterator.hpp:1018-1037 | a filter iterator is positioned on the first matching element at or after its start, or on `last` |
| Iterators.MakeFilterIter | src/util/iterator.hpp:1018-1037 | a constructed filter iterator is valid and skips only rejected elements |
| Iterators.FilterIncrement | src/util/iterator.hpp:1039-1045 | `++` moves strictly forward to the next match or `last`, skipping only rejected elements |
| Iterators.FilterSkipsRejected | src/util/iterator.hpp:1018-1045 | skipping to the next match removes no match from what remains |
| Iterators.FilterAdvance | src/util/iterator.hpp:1039-1050 | `advance(n)` consumes exactly `n` matches |
| Iterators.FilterEnumerate | src/util/iterator.hpp:1039-1065 | stepping a filter iterator to its end visits at most the remaining positions, each visited element satisfies the predicate, and the first is the current element |
| Iterators.FilterView | src/util/iterator.hpp:1143-1151 | the filter view's begin sits on the first match at or after `first` (or on `last`), skipping only rejected elements, and its end sits on `last` |
| Iterators.FilterViewEnumeratesMatches | src/util/iterator.hpp:1143-1151 | the filter view enumerates exactly the matching elements, in order |
| Iterators.FilterEnumerateIsFilter | src/util/iterator.hpp:1039-1065 | from any valid filter iterator, enumeration yields the matches of the rest of the range |
| Iterators.ZipEqualFrom | src/util/iterator.hpp:860-865 | zipped iterators compare equal as soon as any component is equal |
| Iterators.ZipAdvance | src/util/iterator.hpp:845-848 | `advance` moves every component by `n` |
| Iterators.ZipCount | src/util/iterator.hpp:796-873 | a zipped range from a common start yields as many tuples as its shortest component |
| Iterators.ZipYieldsShortest | src/util/iterator.hpp:803-865 | from a common start the zipped iterator differs from the end at every step before the shortest length and meets it there, so it yields that many tuples, with every component moved along |
| Iterators.AdjacentRange | src/util/iterator.hpp:911-929 | the begin iterator pairs elements 0 and 1; the range is empty when there are no elements and otherwise ends at pair (n-1, n) |
| Iterators.AdjEnumerate | src/util/iterator.hpp:879-909 | adjacent-pair iteration yields `(s[i], s[i+1])` for each step |
| Iterators.AdjacentPairs | src/util/iterator.hpp:889-929 | over n >= 1 elements the range yields the n-1 neighbour pairs in order, and none over an empty range |
| Iterators.MakeGenIter | src/util/iterator.hpp:744-752 | a generating iterator starts on its initial value without calling the generator |
| Iterators.GenAdvance | src/util/iterator.hpp:753-758 | `advance(n)` calls the generator `n` times and holds its last value |
| Iterators.GenReadsLagOneCall | src/util/iterator.hpp:751-771 | a fresh generating iterator reads its unprimed member, and after `n >= 1` advances it reads the generator's result number `n - 1`, one behind |
| Views.SentinelAdvance | src/util/view.hpp:18 | advancing a sentinel is a no-op |
| Views.SentinelEqual | src/util/view.hpp:23-26 | two sentinels are always equal |
| Views.NullIterOperand | src/util/view.hpp:41-42 | `nulliter<V>` is a const variable, so as an argument it is a const lvalue sentinel of value type `V` |
| Views.SentinelEquals | src/util/view.hpp:28-33 | as written, `==` tests the forwarding-deduced type, so it holds only against a non-const rvalue sentinel of the same value type, and never against a named or const one |
| Views.SentinelNotEquals | src/util/view.hpp:34-38 | as written, `!=` is the negation of the same deduced-type test |
| Views.SentinelNeverEqualsNullIter | src/util/view.hpp:28-42 | as written, a sentinel is never `==` to `nulliter` of its own value type, nor to a named sentinel, and is `!=` to it; only a temporary compares equal |
| Views.SentinelEqualsDecayed | src/util/view.hpp:28-38 | the corrected test on the decayed type holds against every sentinel of the same value type, however passed |
| Views.SentinelEqualsDecayedAgreesWithEqual | src/util/view.hpp:23-38 | corrected, `nulliter<V>` equals a sentinel of value type `V`, the test agrees with `equal`, and it differs from the as-written test exactly on same-type sentinels that are not non-const rvalues |
| Views.SentinelDeref | src/util/view.hpp:19-22 | dereferencing a sentinel is an assertion failure |
| Views.FromContainer | src/util/view.hpp:54-56 | a view of a container spans it from begin to end |
| Views.FromIterators | src/util/view.hpp:57 | a view built from two iterators stores them unchanged |
| Views.Empty | src/util/view.inl:82-86 | `empty()` holds iff the view has no elements |
| Views.FoldLeftSnoc | src/util/view.inl:88-95 | the left fold of one more element applies the operator once more at the end |
| Views.Accumulate | src/util/view.inl:88-95 | `accumulate(init, op)` is the left fold of `op` over the elements from `init` |
| Views.ForOne | src/util/view.inl:162-169 | `for_one` holds iff some element satisfies the predicate |
| Views.ForAll | src/util/view.inl:171-178 | `for_all` holds iff every element satisfies it |
| Views.ForNone | src/util/view.inl:180-185 | `for_none` holds iff no element satisfies it |
| Views.FindIf | src/util/view.inl:134-141 | `find_if` returns none iff nothing matches, and otherwise a matching element |
| Views.Collect | src/util/view.inl:143-154 | `collect()` returns the elements in iteration order |
| Views.CollectArray | src/util/view.inl:16-31 | collecting into an N-array needs exactly N elements and keeps their order |
| Views.TransformEnumerate | src/util/iterator.hpp:961-1005 | a transforming iterator stepped one at a time yields `f` of each element |
| Views.FilterViewElements | src/util/view.inl:107-115 | `filter(p)` yields exactly the view's elements that satisfy `p`, in order |
| Views.TransformView | src/util/view.inl:97-105 | the transform view yields `f` of each element, in order |
| Views.Zip | src/util/view.inl:187-192 | `zip` pairs elements positionally and stops at the shorter range |
| Views.IndexedAsWritten | src/util/view.inl:194-199 | as written, `indexed` keeps the elements but takes the counter from a generating iterator |
| Views.IndexedAsWrittenIsOffByOne | src/util/iterator.hpp:751-772 | as written, the first index is the generator's unprimed value and element `i >= 1` gets `start + i - 1` |
| Views.MakePrimedGenIter | src/util/iterator.hpp:744-758 | a generating iterator primed with one call holds the generator's first value |
| Views.PrimedGenReadsInOrder | src/util/iterator.hpp:751-771 | primed, the read after `n` advances is the generator's result number `n`: reads no longer lag calls |
| Views.Indexed | src/util/view.inl:194-199 | `indexed(s)` pairs element `i` with `s + i` |
| DoubleFilter.ValueToFreq | src/util/dsp/DoubleFilter.hpp:33-36 | the cubic sweep maps 0 to 20 Hz and 1 to 20 kHz |
| DoubleFilter.ValueToFreqIncreasing | src/util/dsp/DoubleFilter.hpp:33-36 | the sweep is strictly increasing |
| DoubleFilter.ValueToFreqRange | src/util/dsp/DoubleFilter.hpp:33-36 | the sweep stays in [20, 20000] on [0, 1] and below 20000 before 1 |
| DoubleFilter.Sweep | src/util/dsp/DoubleFilter.hpp:48 | the sweep position `fr - floor(fr)` lies in [0, 1) |
| DoubleFilter.GetFilterParams | src/util/dsp/DoubleFilter.hpp:38-66 | the four bands choose which filter is swept, and at which resonance, and where the other filter is parked |
| DoubleFilter.FilterParamsInRange | src/util/dsp/DoubleFilter.hpp:38-66 | every cutoff stays in [20, 20000], every swept cutoff below 20000, and every resonance is 1 or 2.5 |
| DoubleFilter.GetMixingParams | src/util/dsp/DoubleFilter.hpp:68-96 | the two shares add up to 1, each in [0, 1], with plateaus at 1 and 0 between the ramps |
| DoubleFilter.MixLowIsContinuous | src/util/dsp/DoubleFilter.hpp:70-93 | the low-pass share changes by at most 2.5 per knob unit, so adjacent branches agree at every breakpoint |
| DoubleFilter.MixLowBreakpoints | src/util/dsp/DoubleFilter.hpp:70-93 | the values at the ramp ends and midpoints |
| DoubleFilter.MixLowRampsAreMonotone | src/util/dsp/DoubleFilter.hpp:70-93 | the low-pass share falls across 1, rises across 2, falls across 3, and is flat between the ramps |
| Sends.LedFor | src/engines/misc/sends/sends.cpp:10-29 | every channel lights a key: internal the synth key, all three external variants the external key, sampler n key Sn |
| Sends.LedForSeparatesSamplers | src/engines/misc/sends/sends.cpp:17-26 | no two channels share a sampler's key |
| Sends.Branch | src/engines/misc/sends/sends.cpp:59-77 | the four cases in the source's order: all-zero only for a value below the threshold; new largest when the value reaches the loudest other output's heard level; otherwise the value is below one of them, and the was-largest case is the one where the changed stored level exceeded both others |
| Sends.SetCore | src/engines/misc/sends/sends.cpp:57-80 | `set` with the was-largest scale corrected to `new_largest * s`: stored levels stay nonnegative, and the scale becomes 0 exactly in the all-zero case |
| Sends.SetCoreAsWritten | src/engines/misc/sends/sends.cpp:57-80 | `set` as written: stored levels stay nonnegative, the scale becomes 0 exactly in the all-zero case, and the result is the corrected one in every case but was-largest |
| Sends.Set | src/engines/misc/sends/sends.cpp:33-44 | the corrected `set` applied through an output's change callback keeps all levels nonnegative and zeroes the scale exactly in the all-zero case |
| Sends.SetAsWritten | src/engines/misc/sends/sends.cpp:33-80 | the as-written `set` through a callback keeps levels nonnegative and equals the corrected `Set` whenever the lowered output was not the loudest |
| Sends.SetAsWrittenChangesOnlyOneOutput | src/engines/misc/sends/sends.cpp:57-80 | as written, outside the was-largest case, the changed output is heard at `value`, the others as before, and the levels stay normalised |
| Sends.NoDivisionByZero | src/engines/misc/sends/sends.cpp:57-80 | with nonnegative levels and a positive threshold, each branch's divisor is positive |
| Sends.SetCoreKeepsEffectiveLevels | src/engines/misc/sends/sends.cpp:57-80 | outside the all-zero case the changed output is heard at `value` and the others as before; in the all-zero case all are silent |
| Sends.SetCorePreservesNormalised | src/engines/misc/sends/sends.cpp:57-80 | stored levels stay in [0, 1] with the largest at 1 |
| Sends.SetCoreAsWrittenLosesScale | src/engines/misc/sends/sends.cpp:71-76 | as written, lowering the loudest output moves the levels heard on the other outputs |
| Sends.SetChangesOnlyOneOutput | src/engines/misc/sends/sends.cpp:33-44 | through each prop's callback, the corrected `set` changes what is heard on that output only and keeps the levels normalised |
| Sends.WriteProp | src/engines/misc/sends/sends.cpp:33-44 | a prop write changes only its own prop and calls the corrected `set` for its output unless the recursion guard is held, in which case the levels stay |
| Sends.SetScale | src/engines/misc/sends/sends.cpp:47-55 | `set_scale(x)` sets the scale to `x`, leaves the stored levels alone, ends with every prop equal to its heard level, and clears the guard |
| Sends.UserPropChangeIsHeard | src/engines/misc/sends/sends.cpp:33-44 | with the corrected `set`, a prop changed by the user becomes the level heard on its output and the others keep theirs |
| SendsAudio.RecalculateDry | src/engines/misc/sends/audio.hpp:12-17 | the left gain is `(1 - pan)·dry` and the right gain `pan·dry`, leaving dry level, pan and sends alone; so the two add up to the dry level, all left at pan 0 and all right at pan 1 |
| SendsAudio.Action | src/engines/misc/sends/audio.hpp:19-36 | dry and pan messages set their input and recompute the dry gains; an effect message changes only its own send |
| SendsAudio.ActionKeepsConsistent | src/engines/misc/sends/audio.hpp:19-36 | every handler keeps the dry gains derived from the current dry level and pan |
| SendsAudio.ApplyAllFromDefault | src/engines/misc/sends/audio.hpp:38-46 | from the defaults, any run of messages leaves dry gains that split the last dry level by the last pan, and the two sends at their last values |
| AudioDriver.ResolveDevice | boards/parts/audio/rtaudio/src/audio_driver.cpp:56-57 | a device index outside [0, count) is replaced by the default device |
| AudioDriver.ResolveDevices | boards/parts/audio/rtaudio/src/audio_driver.cpp:56-57 | input and output devices fall back independently |
| AudioDriver.ResolveDeviceIdempotent | boards/parts/audio/rtaudio/src/audio_driver.cpp:56-57 | resolving a resolved device changes nothing |
| AudioDriver.InitAudio | boards/parts/audio/rtaudio/src/audio_driver.cpp:74-95 | at most two open attempts, the second only after a failure with input; the stream starts iff the last attempt opens; the error escapes iff every attempt fails |
| AudioDriver.InitAudioKeepsInputOnlyOnFirstSuccess | boards/parts/audio/rtaudio/src/audio_driver.cpp:86-95 | input stays enabled iff the first attempt with input succeeds |
| AudioDriver.PortsToOpen | boards/parts/audio/rtaudio/src/audio_driver.cpp:103-117 | a port is opened iff its name starts with neither `OTTO:` nor `Midi Through:Midi Through`, in port order |
| AudioDriver.OwnAndThroughPortsNeverConnect | boards/parts/audio/rtaudio/src/audio_driver.cpp:105 | OTTO never connects to its own ports or the loop-back port |
| AudioDriver.AsUnsigned32 | boards/parts/audio/rtaudio/src/audio_driver.cpp:145 | the unsigned cast keeps nonnegative counts and wraps negative ones by 2^32 |
| AudioDriver.PrepareInput | boards/parts/audio/rtaudio/src/audio_driver.cpp:158-171 | both input channels carry the mono input, or silence when input is disabled |
| AudioDriver.Interleaved | boards/parts/audio/rtaudio/src/audio_driver.cpp:184-188 | the interleaved buffer holds `L[i]` at `2i` and `R[i]` at `2i+1` |
| AudioDriver.DeinterleaveInterleaved | boards/parts/audio/rtaudio/src/audio_driver.cpp:184-188 | the even and odd slots of the interleaved buffer give back the two channels |
| AudioDriver.Interleave | boards/parts/audio/rtaudio/src/audio_driver.cpp:184-188 | the copy loop writes exactly the first `2n` slots, interleaved, and leaves the rest alone |
| AudioDriver.Process | boards/parts/audio/rtaudio/src/audio_driver.cpp:133-207 | returns 0 always; when not running or on a frame-count mismatch it writes nothing; a nonzero stream status is only logged; otherwise the output holds the engines' interleaved output |

## Left out

- I/O and foreign calls are parameters. The RtAudio and RtMidi stream and port calls, the MIDI input callback thread and MIDI output sending are left out, as are the engine manager, `validate_audio`, the buffer pool and the MIDI double buffer. `AudioDriver.Process` takes the engines as a function and `AudioDriver.InitAudio` takes the library's open outcome as a function.
- AudioDriver.Process: the `pre_process_tasks` call and the CPU-load timing (`audio_driver.cpp:204`) are left out, because they depend on a clock and on code that is not part of this model.
- Floating point is not modelled. Samples, levels and knob values are `real`, so commutativity, `a - a == 0` and the send rescaling identities hold exactly. The `0.2f` crossfade width and the 0–3.99 knob range of the nuclear synth are exact reals here.
- AudioFrames.FrameOp: frame division requires every divisor channel to be nonzero, because real division by zero is undefined where IEEE floats give an infinity or NaN. The same applies to `ScalarOp`, `OpScalar`, `OpAssign`, `ScalarOpAssign` and the ref operators.
- FrameRefs.RefOpAssign: the elementwise result is promised only when the ref's cells are distinct. With aliased cells, a later write sees an earlier one, and only "no other cell changes" is stated.
- FrameRefs.RefScalarOpAssign: the same restriction. With aliased cells the scalar operation is applied once per alias, and only "no other cell changes" is stated.
- Processor.Slice: besides the documented bounds on `idx` and `length`, the model requires every handle to be long enough for the window, because a handle cannot designate memory it does not span. `Processor.DocumentedSlicePreconditionSuffices` shows this adds nothing for a consistent record.
- Sends.SetCore: the send threshold is a parameter required to be positive, because its value lives in a header that is not part of this model. Incoming levels are required to be nonnegative, as the props' ranges are.
- Sends.Set: models the corrected `set` of "## Findings". As written, when the loudest output is lowered below another, the changed output is heard at `value / s` and the other outputs' heard levels move. `Sends.SetAsWritten` is the as-written version, and `Sends.SetAsWrittenChangesOnlyOneOutput` states what survives of the promise: everything outside that case.
- Sends.WriteProp: calls the corrected `Sends.Set`, so in the was-largest case its levels are not the ones the source computes.
- Sends.SetChangesOnlyOneOutput: describes the corrected `set`. For the source as written, the statement holds only outside the was-largest case, which `Sends.SetAsWrittenChangesOnlyOneOutput` states.
- Sends.UserPropChangeIsHeard: describes the corrected `set`. As written, lowering the loudest output below another makes it heard at `value / s`, not at `value`.
- Views.Accumulate: models the evidently intended left fold. As written, `accumulate` is a `const` member that increments the member `first_`, which is not `mutable` (`view.hpp:107`), so the template is ill-formed as soon as it is called, like `find` and `generate`. The defaults `init = {}` and `op = std::plus` are not modelled: the caller always passes both.
- Views.IndexedAsWritten: models the element pairing the zipped iterators would give. As written, `indexed` builds its begin as a zipped iterator over a `generating_iterator` and its end as a zipped iterator over a `SentinelIterator<int>`. The facade's `!=` (`iterator.hpp:191`) and the zipped `equal` (`iterator.hpp:860`) only take the same type, so the view cannot be iterated as written.
- `float_step_iterator` (fractional stepping) is floating-point numerics.
- `View::rbegin`/`rend`/`reverse`, `View::find` and `View::generate` are not modelled. The reverse helpers are built from the first iterator and do not reverse, and the other two are ill-formed templates that can never be instantiated.
- Ownership of callables through `shared_ptr`, and `raw_audio_buffers`, are memory plumbing.
- `processor.inl` lines 172-615 repeat the frame code of `audio_frame.inl` and are modelled once.
- The synth engines (rhodes, nuclear, oscillators), `DoubleFilter::set` and its `operator()` call into the Gamma DSP library, or are screen drawing and encoder handling.
- The voice manager is not part of this model.
- `Sends::encoder` and the sends screen are UI.

## Findings

| source | as written | input that shows it | evidently intended | confidence | as-written member | corrected member |
|---|---|---|---|---|---|---|
| src/util/iterator.hpp:976-979 | `transform_iterator::advance(n)` increments the wrapped iterator once, ignoring `n` | `it + 2` on a transforming iterator is one step away, and `--it` moves forward | move the wrapped iterator by `n` | not executed | Iterators.TransformAdvanceAsWritten | Iterators.FacadeRandomAccessLaws |
| src/engines/misc/sends/sends.cpp:71-76 | in the "was largest, now not" branch, `s` becomes `new_largest`, dropping the old scale | scale 0.5, stored levels (1, 0.8, 0.4); set dry to 0.3: dry is heard at 0.6 and fx1 at 0.8 instead of 0.3 and 0.4 | `s = new_largest * s`, which keeps the other outputs' heard levels | not executed | Sends.SetCoreAsWrittenLosesScale | Sends.SetCoreKeepsEffectiveLevels |
| src/util/iterator.hpp:751-771 | `generating_iterator` calls its generator only in `advance`, and its `val` member has no initialiser, so a fresh iterator's dereference reads an unprimed value (indeterminate for `int`) and every later read lags the generator by one call | dereferencing a fresh `generator(f)` with `f` returning 0, 1, 2, … reads the uninitialised `val` rather than 0, and after one `++` it reads 0 rather than 1; `indexed` inherits this and pairs element `i >= 1` with `start + i - 1` | prime `val` with one generator call on construction, so the `n`-th read is the generator's result number `n` | not executed | Iterators.GenReadsLagOneCall | Views.PrimedGenReadsInOrder |
| src/util/view.hpp:28-38 | the sentinel's `==` and `!=` test `std::is_same_v<O, SentinelIterator<V>>` on the forwarding-reference type `O`, which is a reference type for every lvalue argument | `s == nulliter<V>` passes a const lvalue, so `O` is `const SentinelIterator<V>&`: the result is false, and `s != nulliter<V>` is true | compare `std::decay_t<O>`, so any sentinel of the same value type is equal, as `equal` already says | not executed | Views.SentinelNeverEqualsNullIter | Views.SentinelEqualsDecayedAgreesWithEqual |

In the model, `Iterators.Advance` moves a transforming iterator by `n`, and
`Sends.SetCore` uses the corrected scale. `Views.Indexed` primes its counter
with one generator call, and all later reasoning uses these corrected
definitions. The sentinel comparison is used by nothing else in the model;
both its as-written and its decayed form are stated.
