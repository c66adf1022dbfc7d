/**
 * The RtAudio/RtMidi board driver: device selection and the one retry of
 * `init_audio`, the MIDI port filter of `init_midi`, and the per-callback
 * logic of `process` (the guards, the mono input duplication and the
 * interleaving of the engine's stereo output). The audio and MIDI
 * libraries themselves appear only as parameters.
 */
module AudioDriver {

  /** The device index used: a requested index outside [0, count) is
      replaced by the library's default device. */
  function ResolveDevice(requested: int, count: nat, default: nat): (d: int)
    ensures 0 <= requested < count ==> d == requested
    ensures (requested < 0 || requested >= count) ==> d == default
    ensures default < count ==> 0 <= d < count
  {
    if requested < 0 || requested >= count then default else requested
  }

  /** Both devices go through the same fallback, independently. */
  datatype Devices = Devices(input: int, output: int)

  function ResolveDevices(requested: Devices, count: nat, defaultIn: nat, defaultOut: nat): (d: Devices)
    ensures d.input == ResolveDevice(requested.input, count, defaultIn)
    ensures d.output == ResolveDevice(requested.output, count, defaultOut)
  {
    Devices(ResolveDevice(requested.input, count, defaultIn), ResolveDevice(requested.output, count, defaultOut))
  }

  /** A valid request is kept, and resolving twice changes nothing. */
  lemma ResolveDeviceIdempotent(requested: int, count: nat, default: nat)
    requires default < count
    ensures ResolveDevice(ResolveDevice(requested, count, default), count, default) == ResolveDevice(requested, count, default)
  {
  }

  /** The result of one `openStream` call. */
  datatype OpenOutcome = Opened(bufferSize: nat) | OpenFailed

  /** The result of `init_audio`: the stream was started with the buffer size
      the library settled on, or the last error escaped. */
  datatype InitStatus = Started(bufferSize: nat) | Threw

  /** `attempts` lists the `enable_input` flag of every open attempt, in order. */
  datatype InitResult = InitResult(attempts: seq<bool>, enableInput: bool, status: InitStatus)

  /** `init_audio`, with `open(withInput)` standing for the library's answer
      to an open request with or without an input stream. A failure with
      input enabled disables input and retries; a failure without input
      rethrows. */
  function InitAudio(enableInput: bool, open: bool -> OpenOutcome): (r: InitResult)
    ensures 1 <= |r.attempts| <= 2 && r.attempts[0] == enableInput
    ensures |r.attempts| == 2 <==> enableInput && open(true).OpenFailed?
    ensures |r.attempts| == 2 ==> r.attempts == [true, false] && !r.enableInput
    ensures r.status.Started? <==> open(r.attempts[|r.attempts| - 1]).Opened?
    ensures r.status.Started? ==> open(r.enableInput) == Opened(r.status.bufferSize)
    ensures r.status.Threw? <==> open(false).OpenFailed? && (enableInput ==> open(true).OpenFailed?)
    decreases enableInput
  {
    match open(enableInput)
    case Opened(size) => InitResult([enableInput], enableInput, Started(size))
    case OpenFailed =>
      if enableInput then
        var again := InitAudio(false, open);
        InitResult([true] + again.attempts, again.enableInput, again.status)
      else
        InitResult([false], false, Threw)
  }

  /** A stream that starts always uses the input setting of the last
      attempt, so input stays enabled only if the first attempt worked. */
  lemma InitAudioKeepsInputOnlyOnFirstSuccess(enableInput: bool, open: bool -> OpenOutcome)
    ensures InitAudio(enableInput, open).enableInput <==> enableInput && open(true).Opened?
  {
  }

  const OwnPortPrefix: string := "OTTO:"
  const ThroughPortPrefix: string := "Midi Through:Midi Through"

  /** A MIDI port is connected unless it is one of OTTO's own ports or the
      system's loop-back port. */
  predicate Connects(name: string)
  {
    !(OwnPortPrefix <= name) && !(ThroughPortPrefix <= name)
  }

  /** The loop over the ports of `init_midi`: the indices it opens, in the
      order it opens them. */
  method PortsToOpen(names: seq<string>) returns (ports: seq<nat>)
    ensures forall k :: 0 <= k < |ports| ==> ports[k] < |names| && Connects(names[ports[k]])
    ensures forall i :: 0 <= i < |names| && Connects(names[i]) ==> i in ports
    ensures forall k, m :: 0 <= k < m < |ports| ==> ports[k] < ports[m]
  {
    ports := [];
    var i := 0;
    while i < |names|
      invariant 0 <= i <= |names|
      invariant forall k :: 0 <= k < |ports| ==> ports[k] < i && Connects(names[ports[k]])
      invariant forall j :: 0 <= j < i && Connects(names[j]) ==> j in ports
      invariant forall k, m :: 0 <= k < m < |ports| ==> ports[k] < ports[m]
    {
      if Connects(names[i]) {
        ports := ports + [i];
      }
      i := i + 1;
    }
  }

  /** OTTO never connects to itself or to the loop-back port. */
  lemma OwnAndThroughPortsNeverConnect(suffix: string)
    ensures !Connects(OwnPortPrefix + suffix)
    ensures !Connects(ThroughPortPrefix + suffix)
    ensures Connects("USB MIDI Interface")
  {
    assert OwnPortPrefix <= OwnPortPrefix + suffix;
    assert ThroughPortPrefix <= ThroughPortPrefix + suffix;
    var usb := "USB MIDI Interface";
    assert usb[0] != OwnPortPrefix[0] && usb[0] != ThroughPortPrefix[0];
  }

  /** `(unsigned) nframes`: the two's-complement reinterpretation of a
      32-bit signed frame count. */
  function AsUnsigned32(n: int): (u: nat)
    ensures u < 0x1_0000_0000
    ensures 0 <= n < 0x1_0000_0000 ==> u == n
    ensures -0x8000_0000 <= n < 0 ==> u == n + 0x1_0000_0000
  {
    n % 0x1_0000_0000
  }

  function Zeros(n: nat): (z: seq<real>)
    ensures |z| == n && forall i :: 0 <= i < n ==> z[i] == 0.0
  {
    seq(n, _ => 0.0)
  }

  /** The two input channels handed to the engines: the mono input copied
      into both, or silence when input is disabled. */
  method PrepareInput(inData: seq<real>, n: nat, enableInput: bool) returns (left: seq<real>, right: seq<real>)
    requires enableInput ==> |inData| >= n
    ensures left == right
    ensures enableInput ==> left == inData[..n]
    ensures !enableInput ==> left == Zeros(n)
  {
    left, right := [], [];
    var i := 0;
    while i < n
      invariant 0 <= i <= n && left == right && |left| == i
      invariant enableInput ==> left == inData[..i]
      invariant !enableInput ==> left == Zeros(i)
    {
      var x := if enableInput then inData[i] else 0.0;
      left, right := left + [x], right + [x];
      i := i + 1;
    }
  }

  /** The interleaved layout RtAudio expects: left and right samples alternate. */
  function Interleaved(l: seq<real>, r: seq<real>): (s: seq<real>)
    requires |l| == |r|
    ensures |s| == 2 * |l|
    ensures forall j :: 0 <= j < |l| ==> s[2 * j] == l[j] && s[2 * j + 1] == r[j]
    decreases |l|
  {
    if |l| == 0 then [] else [l[0], r[0]] + Interleaved(l[1..], r[1..])
  }

  function Evens(s: seq<real>): (e: seq<real>)
    ensures |e| == |s| / 2
  {
    seq(|s| / 2, j requires 0 <= j < |s| / 2 => s[2 * j])
  }

  function Odds(s: seq<real>): (o: seq<real>)
    ensures |o| == |s| / 2
  {
    seq(|s| / 2, j requires 0 <= j < |s| / 2 => s[2 * j + 1])
  }

  /** Interleaving loses nothing: the even slots give back the left channel
      and the odd slots the right one. */
  lemma DeinterleaveInterleaved(l: seq<real>, r: seq<real>)
    requires |l| == |r|
    ensures Evens(Interleaved(l, r)) == l
    ensures Odds(Interleaved(l, r)) == r
  {
    var s := Interleaved(l, r);
    assert |s| / 2 == |l|;
    forall j | 0 <= j < |l|
      ensures Evens(s)[j] == l[j] && Odds(s)[j] == r[j]
    {
    }
  }

  /** The copy loop at the end of `process`: writes `out[2i]` and `out[2i+1]`
      for every `i < n` and leaves the rest of the output buffer alone. */
  method Interleave(outData: seq<real>, l: seq<real>, r: seq<real>, n: nat) returns (out: seq<real>)
    requires |l| >= n && |r| >= n && |outData| >= 2 * n
    ensures |out| == |outData|
    ensures out[..2 * n] == Interleaved(l[..n], r[..n])
    ensures out[2 * n..] == outData[2 * n..]
  {
    out := outData;
    var i := 0;
    while i < n
      invariant 0 <= i <= n && |out| == |outData|
      invariant forall j :: 0 <= j < i ==> out[2 * j] == l[j] && out[2 * j + 1] == r[j]
      invariant forall k :: 2 * i <= k < |out| ==> out[k] == outData[k]
    {
      out := out[2 * i := l[i]][2 * i + 1 := r[i]];
      i := i + 1;
    }
    var want := Interleaved(l[..n], r[..n]);
    forall k | 0 <= k < 2 * n
      ensures out[..2 * n][k] == want[k]
    {
      var j := k / 2;
      assert out[..2 * n][k] == out[k];
      if k == 2 * j {
        assert want[2 * j] == l[..n][j] == l[j];
      } else {
        assert k == 2 * j + 1;
        assert want[2 * j + 1] == r[..n][j] == r[j];
      }
    }
  }

  /** What `process` reports through the log. */
  datatype LogEntry = FrameCountMismatch(requested: int, expected: nat) | StreamStatus(status: int) | FramesMissing

  /** What the engines hand back for one buffer. */
  datatype EngineOut = EngineOut(left: seq<real>, right: seq<real>, nframes: int)

  /** The driver state `process` reads. */
  datatype Driver = Driver(running: bool, appRunning: bool, bufferSize: nat, enableInput: bool)

  ghost predicate EngineKeepsLength(engine: (seq<real>, seq<real>) -> EngineOut, n: nat)
  {
    forall l: seq<real>, r: seq<real> {:trigger engine(l, r)} ::
      |l| == n && |r| == n ==> |engine(l, r).left| >= n && |engine(l, r).right| >= n
  }

  /** One audio callback. `engine` stands for the engine manager; the
      frame count cast to unsigned must match the configured buffer size.
      The result is the value returned to RtAudio, the output buffer and the
      log lines written. */
  method Process(d: Driver, outData: seq<real>, inData: seq<real>, nframes: int, status: int,
                 engine: (seq<real>, seq<real>) -> EngineOut)
    returns (ret: int, out: seq<real>, log: seq<LogEntry>)
    requires d.bufferSize < 0x1_0000_0000 && -0x8000_0000 <= nframes < 0x8000_0000
    requires nframes >= 0 ==> |outData| >= 2 * nframes
    requires nframes >= 0 && d.enableInput ==> |inData| >= nframes
    requires nframes >= 0 ==> EngineKeepsLength(engine, nframes)
    ensures ret == 0 && |out| == |outData|
    ensures !(d.running && d.appRunning) ==> out == outData && log == []
    ensures d.running && d.appRunning && AsUnsigned32(nframes) != d.bufferSize ==>
              out == outData && log == [FrameCountMismatch(nframes, d.bufferSize)]
    ensures d.running && d.appRunning && AsUnsigned32(nframes) == d.bufferSize && nframes >= 0 ==>
              var input := if d.enableInput then inData[..nframes] else Zeros(nframes);
              var e := engine(input, input);
              && out[..2 * nframes] == Interleaved(e.left[..nframes], e.right[..nframes])
              && out[2 * nframes..] == outData[2 * nframes..]
              && (status != 0 <==> StreamStatus(status) in log)
              && (e.nframes != nframes <==> FramesMissing in log)
  {
    ret := 0;
    out := outData;
    log := [];
    if !(d.running && d.appRunning) {
      return;
    }
    if AsUnsigned32(nframes) != d.bufferSize {
      log := [FrameCountMismatch(nframes, d.bufferSize)];
      return;
    }
    if status != 0 {
      log := log + [StreamStatus(status)];
    }
    var n: nat := if nframes > 0 then nframes else 0;
    var left, right := PrepareInput(inData, n, d.enableInput);
    var e := engine(left, right);
    if e.nframes != nframes {
      log := log + [FramesMissing];
    }
    out := Interleave(outData, e.left, e.right, n);
  }
}
