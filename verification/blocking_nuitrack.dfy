/**
  The blocking API's `Nuitrack` handle: a second process-wide "initialized"
  flag (`blockingInit`, separate from the async runtime guard's), won by
  `init` and given back by `Drop`. `init` also selects the first enumerated
  device.

  `InitAsWritten` keeps the flag set when the SDK's `init`, the device list or
  `set_device` throws, so no handle exists to drop and every later `init` is
  refused; `Init` is the corrected version, which gives the flag back on every
  error path.
 */
module BlockingNuitrack {
  import opened Wrappers
  import opened Errors
  import opened World
  import RuntimeGuard

  /** The handle proves this wrapper initialized the SDK. */
  datatype Nuitrack = Nuitrack

  /** `config_path.unwrap_or("")`. */
  function ConfigPathOrEmpty(configPath: Option<string>): (p: string)
    ensures configPath.Some? ==> p == configPath.value
    ensures configPath.None? ==> p == []
  {
    match configPath
    case Some(path) => path
    case None => ""
  }

  /** The three native calls a successful `init` makes, in order. */
  function InitCalls(w: World, configPath: Option<string>): seq<Call>
    requires |w.devices| > 0
  {
    [Call.Init(ConfigPathOrEmpty(configPath)), GetDevices, SetDevice(w.devices[0].handle)]
  }

  /** None of the native calls numbered `lo` up to, not including, `hi` throws. */
  predicate CallsSucceed(w: World, lo: nat, hi: nat) {
    forall k: nat :: lo <= k < hi ==> !FaultAt(w, k)
  }

  /**
    Bailing out after the SDK was initialized: with `reset`, the best-effort
    release and the flag reset of the no-device path; without it, nothing.
   */
  function Abandon(w: World, reset: bool): (r: World)
    ensures reset ==> r == w.(log := w.log + [Release], blockingInit := false)
    ensures !reset ==> r == w
  {
    if reset then Invoke(w, Release).0.(blockingInit := false) else w
  }

  /** `init`, with the error-path handling of the flag chosen by `reset`. */
  function InitWith(w: World, configPath: Option<string>, reset: bool): (r: (World, NuitrackResult<Nuitrack>))
    ensures w.blockingInit ==> r == (w, Err(AlreadyInitialized))
    ensures !w.blockingInit ==>
              (r.1.Ok? <==> |w.devices| > 0 && CallsSucceed(w, |w.log|, |w.log| + 3))
    ensures r.1.Ok? ==> r.0 == w.(blockingInit := true, log := w.log + InitCalls(w, configPath))
    ensures !w.blockingInit && r.1.Err? && r.1.error.NoDeviceFound? ==> !r.0.blockingInit
    ensures !w.blockingInit && r.1.Err? && !r.1.error.NoDeviceFound? ==> r.0.blockingInit == !reset
    ensures !w.blockingInit && r.1.Err? ==>
              (r.1.error.InitFailed? <==> FaultAt(w, |w.log|))
    ensures !w.blockingInit && r.1.Err? ==>
              (r.1.error.DeviceError? <==> !FaultAt(w, |w.log|)
                                           && (FaultAt(w, |w.log| + 1) || (|w.devices| > 0 && FaultAt(w, |w.log| + 2))))
    ensures !w.blockingInit && r.1.Err? ==>
              (r.1.error.NoDeviceFound? <==> |w.devices| == 0 && CallsSucceed(w, |w.log|, |w.log| + 2))
    ensures !w.blockingInit && r.1.Err? ==>
              r.1.error.InitFailed? || r.1.error.DeviceError? || r.1.error.NoDeviceFound?
    ensures !w.blockingInit && |w.devices| == 0 && CallsSucceed(w, |w.log|, |w.log| + 2) ==>
              && r.1 == Err(NoDeviceFound) && !r.0.blockingInit
              && r.0.log == w.log + [Call.Init(ConfigPathOrEmpty(configPath)), GetDevices, Release]
    ensures r.0.asyncInit == w.asyncInit && r.0.lockPoisoned == w.lockPoisoned
    ensures r.0 == w.(blockingInit := r.0.blockingInit, log := r.0.log)
  {
    if w.blockingInit then (w, Err(AlreadyInitialized))
    else
      var won := w.(blockingInit := true);
      var (w1, initReply) := Invoke(won, Call.Init(ConfigPathOrEmpty(configPath)));
      match initReply
      case Threw(what) =>
        assert FaultAt(w, |w.log|);
        (if reset then w1.(blockingInit := false) else w1, Err(InitFailed("FFI init_nuitrack: " + what)))
      case Returned =>
        var (w2, listReply) := Invoke(w1, GetDevices);
        match listReply
        case Threw(what) =>
          assert FaultAt(w, |w.log| + 1);
          (Abandon(w2, reset), Err(DeviceError("FFI get_nuitrack_device_list: " + what)))
        case Returned =>
          if |w.devices| == 0 then
            (Invoke(w2, Release).0.(blockingInit := false), Err(NoDeviceFound))
          else
            var (w3, setReply) := Invoke(w2, SetDevice(w.devices[0].handle));
            match setReply
            case Threw(what) =>
              assert FaultAt(w, |w.log| + 2);
              (Abandon(w3, reset), Err(DeviceError("FFI set_device: " + what)))
            case Returned => (w3, Ok(Nuitrack))
  }

  /**
    `Nuitrack::init` as the code stands: the flag is won first and given back
    only when no device is found.
   */
  function InitAsWritten(w: World, configPath: Option<string>): (r: (World, NuitrackResult<Nuitrack>))
    ensures w.blockingInit ==> r == (w, Err(AlreadyInitialized))
    ensures !w.blockingInit ==> (r.1.Ok? <==> |w.devices| > 0 && CallsSucceed(w, |w.log|, |w.log| + 3))
    ensures !w.blockingInit ==> (r.0.blockingInit <==> !(r.1.Err? && r.1.error.NoDeviceFound?))
    ensures !w.blockingInit && |w.devices| == 0 && CallsSucceed(w, |w.log|, |w.log| + 2) ==>
              && r.1 == Err(NoDeviceFound) && !r.0.blockingInit
              && r.0.log == w.log + [Call.Init(ConfigPathOrEmpty(configPath)), GetDevices, Release]
  {
    InitWith(w, configPath, false)
  }

  /**
    `Nuitrack::init`, corrected: the flag is set exactly when a handle is
    returned, and an error after the SDK was initialized also releases it.
   */
  function Init(w: World, configPath: Option<string>): (r: (World, NuitrackResult<Nuitrack>))
    ensures w.blockingInit ==> r == (w, Err(AlreadyInitialized))
    ensures !w.blockingInit ==> (r.1.Ok? <==> |w.devices| > 0 && CallsSucceed(w, |w.log|, |w.log| + 3))
    ensures !w.blockingInit ==> (r.0.blockingInit <==> r.1.Ok?)
    ensures r.1.Ok? ==> r.0.log == w.log + InitCalls(w, configPath)
    ensures !w.blockingInit && r.1.Err? && !FaultAt(w, |w.log|) ==>
              |r.0.log| > |w.log| && r.0.log[|r.0.log| - 1] == Release
  {
    InitWith(w, configPath, true)
  }

  /** `run`: one native call; a throw converts to the `FFI` error. */
  function Run(w: World, n: Nuitrack): (r: (World, NuitrackResult<Unit>))
    ensures r.0 == w.(log := w.log + [Call.Run])
    ensures r.1.Ok? <==> !Faulty(w)
    ensures r.1.Err? ==> r.1.error == Ffi(w.faults[|w.log|])
  {
    var (w1, reply) := Invoke(w, Call.Run);
    match reply
    case Threw(what) => (w1, Err(Ffi(what)))
    case Returned => (w1, Ok(Unit))
  }

  /** `Drop`: native `release` (its error only logged), then the flag is cleared unconditionally. */
  function DropNuitrack(w: World, n: Nuitrack): (r: World)
    ensures r == w.(log := w.log + [Release], blockingInit := false)
  {
    Invoke(w, Release).0.(blockingInit := false)
  }

  /**
    As written, a throwing native `init` leaves the flag set with no handle to
    drop: from then on every `init`, with any configuration path, is refused.
   */
  lemma InitFailureLocksOut(w: World, configPath: Option<string>)
    requires !w.blockingInit && FaultAt(w, |w.log|)
    ensures var (w1, r) := InitAsWritten(w, configPath);
            && r.Err? && r.error.InitFailed? && w1.blockingInit
            && forall p :: InitAsWritten(w1, p) == (w1, Err(AlreadyInitialized))
  {
  }

  /** The same happens when `set_device` throws, after the SDK was initialized and never released. */
  lemma SetDeviceFailureLocksOut(w: World, configPath: Option<string>)
    requires !w.blockingInit && |w.devices| > 0
    requires !FaultAt(w, |w.log|) && !FaultAt(w, |w.log| + 1) && FaultAt(w, |w.log| + 2)
    ensures var (w1, r) := InitAsWritten(w, configPath);
            && r.Err? && r.error.DeviceError? && w1.blockingInit
            && Occurrences(w1.log, Release) == Occurrences(w.log, Release)
            && forall p :: InitAsWritten(w1, p) == (w1, Err(AlreadyInitialized))
  {
    var (w1, r) := InitAsWritten(w, configPath);
    assert w1.log == w.log + InitCalls(w, configPath);
    OccurrencesAppend(w.log, InitCalls(w, configPath), Release);
    OccurrencesAbsent(InitCalls(w, configPath), Release);
  }

  /**
    Corrected: whatever error `init` gives, the flag is clear afterwards, so a
    retry whose native calls succeed returns a handle.
   */
  lemma InitFailureRecovers(w: World, configPath: Option<string>, retryPath: Option<string>)
    requires !w.blockingInit && |w.devices| > 0
    ensures var (w1, r) := Init(w, configPath);
            r.Err? ==> && !w1.blockingInit
                       && (CallsSucceed(w1, |w1.log|, |w1.log| + 3) ==> Init(w1, retryPath).1.Ok?)
  {
  }

  /** A handle's lifetime: `init`, then `Drop`, leaves the flag clear and the SDK released, so `init` may run again. */
  lemma InitDropCycle(w: World, configPath: Option<string>)
    requires !w.blockingInit && |w.devices| > 0 && CallsSucceed(w, |w.log|, |w.log| + 3)
    ensures var (w1, r) := Init(w, configPath);
            && r.Ok?
            && var w2 := DropNuitrack(w1, r.value);
               && !w2.blockingInit
               && w2.log == w.log + InitCalls(w, configPath) + [Release]
               && Init(w2, configPath).1 != Err(AlreadyInitialized)
  {
  }

  /**
    The blocking flag and the async runtime guard's flag are separate statics:
    neither API's `init` looks at or touches the other's flag, so with no
    native failure both can hold the SDK at once.
   */
  lemma FlagsIndependent(w: World, configPath: string, blockingPath: Option<string>)
    requires !w.asyncInit && !w.blockingInit && !w.lockPoisoned && |w.devices| > 0
    requires CallsSucceed(w, |w.log|, |w.log| + 4)
    ensures var (w1, g) := RuntimeGuard.Acquire(w, configPath);
            && g.Ok? && !w1.blockingInit
            && var (w2, n) := Init(w1, blockingPath);
               && n.Ok? && w2.asyncInit && w2.blockingInit
  {
    assert !FaultAt(w, |w.log|);
    var (w1, g) := RuntimeGuard.Acquire(w, configPath);
    assert |w1.log| == |w.log| + 1;
    forall k: nat | |w1.log| <= k < |w1.log| + 3
      ensures !FaultAt(w1, k)
    {
      assert !FaultAt(w, k);
    }
  }
}
