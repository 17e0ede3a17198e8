/**
  `NuitrackSessionBuilder` and the `DeviceDiscoveryState` typestate: device
  discovery, device selection, per-device module creation and the ownership
  of the runtime guard until a session holds it.
 */
module SessionBuilder {
  import opened Wrappers
  import opened Errors
  import opened World
  import opened RuntimeGuard
  import opened Tracker
  import opened SessionConfig
  import opened Session

  /** The stream table of `AsyncHandTracker`. */
  const HandStreams: seq<StreamSpec> := [StreamSpec("hand_frames", DataConversion)]

  /** The stream table of `AsyncSkeletonTracker`. */
  const SkeletonStreams: seq<StreamSpec> := [
    StreamSpec("skeleton_frames", DataConversion),
    StreamSpec("new_user_events", DirectItem),
    StreamSpec("lost_user_events", DirectItem)
  ]

  /** A device-info getter's result, with "N/A" for a getter that throws. */
  function OrNotAvailable(field: Option<string>): (s: string)
    ensures field.Some? ==> s == field.value
    ensures field.None? ==> s == "N/A"
  {
    match field
    case Some(v) => v
    case None => "N/A"
  }

  /**
    `fetch_available_devices_info_internal`: under the global lock, list the
    devices and read each one's name, serial and provider.
   */
  function FetchAvailableDevices(w: World): (r: (World, NuitrackResult<seq<DeviceInfo>>))
    ensures r.0 == w.(log := w.log + (if w.lockPoisoned then [] else [GetDevices]))
    ensures r.1.Ok? <==> !w.lockPoisoned && !Faulty(w)
    ensures r.1.Err? ==> (r.1.error.OperationFailed? <==> w.lockPoisoned)
    ensures r.1.Err? ==> (r.1.error.DeviceError? <==> !w.lockPoisoned)
    ensures r.1.Ok? ==> |r.1.value| == |w.devices|
    ensures r.1.Ok? ==> forall i :: 0 <= i < |w.devices| ==>
              && r.1.value[i].originalIndex == i
              && r.1.value[i].device == w.devices[i].handle
              && r.1.value[i].name == OrNotAvailable(w.devices[i].name)
              && r.1.value[i].serial == OrNotAvailable(w.devices[i].serial)
              && r.1.value[i].provider == OrNotAvailable(w.devices[i].provider)
  {
    if w.lockPoisoned then (w, Err(OperationFailed("Global API lock for getDeviceList")))
    else
      var (w1, reply) := Invoke(w, GetDevices);
      match reply
      case Threw(what) => (w1, Err(DeviceError("FFI GetDeviceList: " + what)))
      case Returned =>
        var devs := w.devices;
        (w1, Ok(seq(|devs|, i requires 0 <= i < |devs| =>
          DeviceInfo(OrNotAvailable(devs[i].name), OrNotAvailable(devs[i].serial),
                     OrNotAvailable(devs[i].provider), i, devs[i].handle))))
  }

  /** Index of the first entry with serial number `serial`, or the list's length when there is none. */
  function SerialIndex(devs: seq<DeviceInfo>, serial: string): (k: nat)
    ensures k <= |devs|
    ensures forall j :: 0 <= j < k ==> devs[j].serial != serial
    ensures k < |devs| ==> devs[k].serial == serial
  {
    if |devs| == 0 || devs[0].serial == serial then 0 else 1 + SerialIndex(devs[1..], serial)
  }

  /** `find_target_device_from_cache`: a pure resolver; every failure is a `DeviceError`. */
  function FindTargetDevice(devs: seq<DeviceInfo>, selector: DeviceSelector): (r: NuitrackResult<DeviceInfo>)
    ensures r.Err? ==> r.error.DeviceError?
    ensures selector.DefaultSingle? ==> (r.Ok? <==> |devs| == 1) && (r.Ok? ==> r.value == devs[0])
    ensures selector.ByIndex? ==> (r.Ok? <==> selector.index < |devs|) && (r.Ok? ==> r.value == devs[selector.index])
    ensures selector.BySerialNumber? ==>
              && (r.Ok? <==> exists k :: 0 <= k < |devs| && devs[k].serial == selector.serial)
              && (r.Ok? ==> exists k :: && 0 <= k < |devs| && devs[k] == r.value && devs[k].serial == selector.serial
                                        && forall j :: 0 <= j < k ==> devs[j].serial != selector.serial)
  {
    match selector
    case DefaultSingle =>
      if |devs| == 1 then Ok(devs[0])
      else Err(DeviceError("DefaultSingle policy: Expected 1 device, found another number."))
    case ByIndex(i) =>
      if i < |devs| then Ok(devs[i]) else Err(DeviceError("Device at index not found."))
    case BySerialNumber(serial) =>
      var k := SerialIndex(devs, serial);
      if k < |devs| then Ok(devs[k]) else Err(DeviceError("Device with serial not found."))
  }

  /** The configuration `init_session` uses for a single attached device when none is given. */
  const DefaultConfig: DeviceConfig := DeviceConfig(ByIndex(0), [HandTracker, SkeletonTracker])

  /** `init_session`'s defaulting: the given configs, or a policy depending on the number of devices. */
  function EffectiveConfigs(configs: seq<DeviceConfig>, deviceCount: nat): (r: NuitrackResult<seq<DeviceConfig>>)
    ensures |configs| > 0 ==> r == Ok(configs)
    ensures |configs| == 0 && deviceCount == 0 ==> r == Ok([])
    ensures |configs| == 0 && deviceCount == 1 ==> r == Ok([DefaultConfig])
    ensures |configs| == 0 && deviceCount >= 2 ==> r.Err? && r.error.DeviceError?
    ensures r.Ok? && |configs| == 0 ==> |r.value| <= 1
  {
    if |configs| > 0 then Ok(configs)
    else if deviceCount == 1 then Ok([DefaultConfig])
    else if deviceCount == 0 then Ok([])
    else Err(DeviceError("Multiple devices found; specific configuration or DefaultSingle selector required."))
  }

  /** The factory call a module type makes, if it is one the builder creates. */
  function CreateCallOf(m: ModuleType): seq<Call> {
    match m
    case HandTracker => [Create(HandModule)]
    case SkeletonTracker => [Create(SkeletonModule)]
    case _ => []
  }

  /** The factory calls for a module list, in list order. */
  function CreateCalls(modules: seq<ModuleType>): seq<Call> {
    if |modules| == 0 then [] else CreateCallOf(modules[0]) + CreateCalls(modules[1..])
  }

  /** The first module type of the list the update loop can wait on. */
  function FirstWaitable(modules: seq<ModuleType>): (m: Option<ModuleType>)
    ensures m.Some? ==> IsWaitable(m.value) && m.value in modules
    ensures m.None? <==> forall k :: 0 <= k < |modules| ==> !IsWaitable(modules[k])
  {
    if |modules| == 0 then None
    else if IsWaitable(modules[0]) then Some(modules[0])
    else FirstWaitable(modules[1..])
  }

  /** A device context under construction and its representative module so far. */
  datatype Built = Built(ctx: DeviceContext, rep: Option<Waitable>)

  /** Every tracker of the context has all its slots empty. */
  predicate Untouched(ctx: DeviceContext) {
    && (ctx.hand.Some? ==> AllEmpty(ctx.hand.value.slots))
    && (ctx.skeleton.Some? ==> AllEmpty(ctx.skeleton.value.slots))
  }

  /**
    One iteration of the module loop: create the tracker, keep it as the
    representative if there is none yet, and store it (replacing, and so
    dropping, a tracker of the same type). Other module types are ignored.
   */
  function CreateModule(w: World, m: ModuleType, b: Built): (r: (World, NuitrackResult<Built>))
    ensures r.0 == w.(log := w.log + CreateCallOf(m))
    ensures !IsWaitable(m) ==> r.1 == Ok(b)
    ensures IsWaitable(m) ==> (r.1.Ok? <==> !Faulty(w))
    ensures r.1.Ok? <==> NoFaultIn(w.faults, |w.log|, |r.0.log|)
    ensures r.1.Err? ==> r.1.error.ModuleCreationFailed?
    ensures r.1.Ok? ==> && r.1.value.ctx.info == b.ctx.info
                        && (r.1.value.ctx.hand.Some? <==> b.ctx.hand.Some? || m == HandTracker)
                        && (r.1.value.ctx.skeleton.Some? <==> b.ctx.skeleton.Some? || m == SkeletonTracker)
                        && (b.rep.Some? ==> r.1.value.rep == b.rep)
                        && (b.rep.None? && m == HandTracker ==> r.1.value.rep.Some? && r.1.value.rep.value.WaitHand?)
                        && (b.rep.None? && m == SkeletonTracker ==> r.1.value.rep.Some? && r.1.value.rep.value.WaitSkeleton?)
                        && (Untouched(b.ctx) ==> Untouched(r.1.value.ctx))
    ensures r.1.Ok? ==> Extends(b, [m], r.1.value)
  {
    match m
    case HandTracker =>
      var (w1, t) := NewAsync(w, HandModule, HandStreams);
      if t.Err? then (w1, Err(t.error))
      else
        var rep := if b.rep.None? then Some(WaitHand(t.value.handle)) else b.rep;
        (w1, Ok(Built(b.ctx.(hand := Some(t.value)), rep)))
    case SkeletonTracker =>
      var (w1, t) := NewAsync(w, SkeletonModule, SkeletonStreams);
      if t.Err? then (w1, Err(t.error))
      else
        var rep := if b.rep.None? then Some(WaitSkeleton(t.value.handle)) else b.rep;
        (w1, Ok(Built(b.ctx.(skeleton := Some(t.value)), rep)))
    case _ => (w, Ok(b))
  }

  /**
    What running the module loop over `modules` adds to `b`: the same device,
    a tracker of each listed kind on top of those already there, and the
    first waitable listed module as representative unless one is already set.
   */
  predicate Extends(b: Built, modules: seq<ModuleType>, b2: Built)
  {
    && b2.ctx.info == b.ctx.info
    && (b2.ctx.hand.Some? <==> b.ctx.hand.Some? || HandTracker in modules)
    && (b2.ctx.skeleton.Some? <==> b.ctx.skeleton.Some? || SkeletonTracker in modules)
    && (b.rep.Some? ==> b2.rep == b.rep)
    && (b.rep.None? ==> (b2.rep.None? <==> FirstWaitable(modules).None?))
    && (b.rep.None? && FirstWaitable(modules) == Some(HandTracker) ==> b2.rep.Some? && b2.rep.value.WaitHand?)
    && (b.rep.None? && FirstWaitable(modules) == Some(SkeletonTracker) ==> b2.rep.Some? && b2.rep.value.WaitSkeleton?)
    && (Untouched(b.ctx) ==> Untouched(b2.ctx))
  }

  /** One module, then the rest of the list, extends by the whole list. */
  lemma ExtendsCons(b: Built, modules: seq<ModuleType>, b1: Built, b2: Built)
    requires |modules| > 0
    requires Extends(b, [modules[0]], b1) && Extends(b1, modules[1..], b2)
    ensures Extends(b, modules, b2)
  {
    assert modules == [modules[0]] + modules[1..];
    assert FirstWaitable([modules[0]]) == if IsWaitable(modules[0]) then Some(modules[0]) else None;
    assert FirstWaitable(modules) == if IsWaitable(modules[0]) then Some(modules[0]) else FirstWaitable(modules[1..]);
  }

  /** The module loop of one device: the first creation failure aborts. */
  function CreateModules(w: World, modules: seq<ModuleType>, b: Built): (r: (World, NuitrackResult<Built>))
    ensures |w.log| <= |r.0.log| <= |w.log| + |CreateCalls(modules)|
    ensures r.0 == w.(log := r.0.log)
    ensures w.log <= r.0.log && r.0.log[|w.log|..] <= CreateCalls(modules)
    ensures r.1.Ok? ==> r.0.log == w.log + CreateCalls(modules)
    ensures r.1.Err? ==> r.1.error.ModuleCreationFailed?
    ensures StopsAtFirstFault(w.faults, |w.log|, |w.log| + |CreateCalls(modules)|, r.1.Ok?, |r.0.log|)
    ensures r.1.Ok? ==> Extends(b, modules, r.1.value)
    decreases |modules|
  {
    if |modules| == 0 then (w, Ok(b))
    else
      var one := CreateModule(w, modules[0], b);
      var w1 := one.0;
      var b1 := one.1;
      var first := CreateCallOf(modules[0]);
      assert CreateCalls(modules) == first + CreateCalls(modules[1..]);
      assert w1.faults == w.faults && |w1.log| == |w.log| + |first| <= |w.log| + 1;
      var hi := |w.log| + |CreateCalls(modules)|;
      if b1.Err? then
        LogPrefixStep(w.log, first, CreateCalls(modules[1..]), w1.log);
        StopsAtFirstFaultPrefix(w.faults, |w.log|, |w1.log|, hi, false, false, 0);
        (w1, Err(b1.error))
      else
        var r := CreateModules(w1, modules[1..], b1.value);
        LogPrefixStep(w.log, first, CreateCalls(modules[1..]), r.0.log);
        StopsAtFirstFaultPrefix(w.faults, |w.log|, |w1.log|, hi, true, r.1.Ok?, |r.0.log|);
        if r.1.Ok? then ExtendsCons(b, modules, b1.value, r.1.value); r
        else r
  }

  /**
    A run of native calls meant to cover `[lo, hi)` that stops at the first
    throw: it succeeds exactly when no call in the range throws, and a failed
    run ends with the call that threw, after calls that did not.
   */
  predicate StopsAtFirstFault(faults: map<nat, string>, lo: int, hi: int, ok: bool, end: int)
  {
    && (ok <==> NoFaultIn(faults, lo, hi))
    && (!ok ==> lo < end && end - 1 in faults && NoFaultIn(faults, lo, end - 1))
  }

  /** Putting one call (or none) in front of a run that stops at its first throw. */
  lemma StopsAtFirstFaultPrefix(faults: map<nat, string>, lo: int, mid: int, hi: int, firstOk: bool, ok: bool, end: int)
    requires lo <= mid <= lo + 1 && mid <= hi
    requires mid == lo ==> firstOk
    requires firstOk <==> NoFaultIn(faults, lo, mid)
    requires firstOk ==> StopsAtFirstFault(faults, mid, hi, ok, end)
    ensures firstOk ==> StopsAtFirstFault(faults, lo, hi, ok, end)
    ensures !firstOk ==> StopsAtFirstFault(faults, lo, hi, false, mid)
  {
    NoFaultSplit(faults, lo, mid, hi);
    if firstOk && !ok {
      NoFaultSplit(faults, lo, mid, end - 1);
    }
  }

  /** A run of calls without a throw has none in any shorter run from the same start. */
  lemma NoFaultWithin(faults: map<nat, string>, lo: int, hi: int, hi2: int)
    requires hi2 <= hi && NoFaultIn(faults, lo, hi)
    ensures NoFaultIn(faults, lo, hi2)
  {
  }

  /** A run of calls has no throw exactly when neither of its two halves has one. */
  lemma NoFaultSplit(faults: map<nat, string>, lo: int, mid: int, hi: int)
    requires lo <= mid <= hi
    ensures NoFaultIn(faults, lo, hi) <==> NoFaultIn(faults, lo, mid) && NoFaultIn(faults, mid, hi)
  {
  }

  /** A log that extends `log + first` by a prefix of `rest` extends `log` by a prefix of `first + rest`. */
  lemma LogPrefixStep(log: seq<Call>, first: seq<Call>, rest: seq<Call>, out: seq<Call>)
    requires log + first <= out && out[|log + first|..] <= rest
    ensures log <= out && out[|log|..] <= first + rest
    ensures out == log + first + rest ==> out == log + (first + rest)
  {
    assert out[|log|..] == first + out[|log + first|..];
  }


  /**
    What a configured device holds: the resolved device, a tracker for each
    requested module kind and no other, untouched readiness flags, and the
    first waitable module in list order as the device's representative.
   */
  predicate ConfiguredFor(bt: Built, info: DeviceInfo, modules: seq<ModuleType>)
  {
    && bt.ctx.info == info
    && (bt.ctx.hand.Some? <==> HandTracker in modules)
    && (bt.ctx.skeleton.Some? <==> SkeletonTracker in modules)
    && (bt.rep.None? <==> FirstWaitable(modules).None?)
    && (FirstWaitable(modules) == Some(HandTracker) ==> bt.rep.Some? && bt.rep.value.WaitHand?)
    && (FirstWaitable(modules) == Some(SkeletonTracker) ==> bt.rep.Some? && bt.rep.value.WaitSkeleton?)
    && Untouched(bt.ctx)
  }

  /** The module loop for a device just made current, starting from an empty context. */
  function CreateOnDevice(w: World, info: DeviceInfo, modules: seq<ModuleType>): (r: (World, NuitrackResult<Built>))
    ensures r.0 == w.(log := r.0.log) && w.log <= r.0.log
    ensures StopsAtFirstFault(w.faults, |w.log|, |w.log| + |CreateCalls(modules)|, r.1.Ok?, |r.0.log|)
    ensures r.1.Err? ==> r.1.error.ModuleCreationFailed?
    ensures r.1.Ok? ==> r.0.log == w.log + CreateCalls(modules) && ConfiguredFor(r.1.value, info, modules)
  {
    var b := Built(DeviceContext(info, None, None), None);
    var r := CreateModules(w, modules, b);
    r
  }

  /**
    The native part of one device configuration: `setDevice` on the resolved
    device, then its module loop; a throwing `setDevice` aborts before any
    module is created.
   */
  function SetDeviceAndCreate(w: World, info: DeviceInfo, modules: seq<ModuleType>): (r: (World, NuitrackResult<Built>))
    ensures r.0 == w.(log := r.0.log) && w.log <= r.0.log
    ensures FaultAt(w, |w.log|) ==> r.1.Err? && r.1.error.DeviceError? && r.0.log == w.log + [SetDevice(info.device)]
    ensures StopsAtFirstFault(w.faults, |w.log|, |w.log| + 1 + |CreateCalls(modules)|, r.1.Ok?, |r.0.log|)
    ensures r.1.Err? ==> r.1.error.DeviceError? || r.1.error.ModuleCreationFailed?
    ensures r.1.Ok? ==> r.0.log == w.log + [SetDevice(info.device)] + CreateCalls(modules)
    ensures r.1.Ok? ==> ConfiguredFor(r.1.value, info, modules)
  {
    var (w1, reply) := Invoke(w, SetDevice(info.device));
    match reply
    case Threw(what) =>
      StopsAtFirstFaultPrefix(w.faults, |w.log|, |w1.log|, |w.log| + 1 + |CreateCalls(modules)|, false, false, 0);
      (w1, Err(DeviceError("FFI Nuitrack::setDevice failed: " + what)))
    case Returned =>
      var r := CreateOnDevice(w1, info, modules);
      StopsAtFirstFaultPrefix(w.faults, |w.log|, |w1.log|, |w.log| + 1 + |CreateCalls(modules)|, true, r.1.Ok?, |r.0.log|);
      r
  }

  /**
    One device configuration: resolve the selector (no native call), make the
    device current under the global lock, then create its modules. The first
    failure ends it: an unresolved selector or a poisoned lock before any
    native call, a throwing `setDevice` or factory right after that call.
   */
  function ConfigureOne(w: World, devs: seq<DeviceInfo>, config: DeviceConfig): (r: (World, NuitrackResult<Built>))
    ensures FindTargetDevice(devs, config.selector).Err? ==> r == (w, Err(FindTargetDevice(devs, config.selector).error))
    ensures FindTargetDevice(devs, config.selector).Ok? && w.lockPoisoned ==>
              r.0 == w && r.1.Err? && r.1.error.OperationFailed?
    ensures FindTargetDevice(devs, config.selector).Ok? && !w.lockPoisoned && FaultAt(w, |w.log|) ==>
              && r.1.Err? && r.1.error.DeviceError?
              && r.0.log == w.log + [SetDevice(FindTargetDevice(devs, config.selector).value.device)]
    ensures r.1.Ok? <==> && FindTargetDevice(devs, config.selector).Ok? && !w.lockPoisoned
                         && NoFaultIn(w.faults, |w.log|, |w.log| + 1 + |CreateCalls(config.modules)|)
    ensures r.1.Err? ==> NoFaultIn(w.faults, |w.log|, |r.0.log| - 1)
    ensures r.1.Err? && r.1.error.ModuleCreationFailed? ==> |r.0.log| > |w.log| && FaultAt(w, |r.0.log| - 1)
    ensures r.1.Ok? ==> r.0.log == w.log + [SetDevice(FindTargetDevice(devs, config.selector).value.device)] + CreateCalls(config.modules)
    ensures r.1.Ok? ==> ConfiguredFor(r.1.value, FindTargetDevice(devs, config.selector).value, config.modules)
    ensures r.1.Ok? ==> && |r.0.log| == |w.log| + 1 + |CreateCalls(config.modules)|
                        && NoFaultIn(w.faults, |w.log|, |r.0.log|)
    ensures r.1.Err? ==> r.1.error.DeviceError? || r.1.error.OperationFailed? || r.1.error.ModuleCreationFailed?
    ensures r.0 == w.(log := r.0.log) && w.log <= r.0.log
  {
    var target := FindTargetDevice(devs, config.selector);
    if target.Err? then (w, Err(target.error))
    else if w.lockPoisoned then (w, Err(OperationFailed("Global API lock for set_device")))
    else SetDeviceAndCreate(w, target.value, config.modules)
  }

  /** Number of configurations whose module list holds a waitable module. */
  function CountWaitable(configs: seq<DeviceConfig>): nat {
    if |configs| == 0 then 0
    else (if FirstWaitable(configs[0].modules).Some? then 1 else 0) + CountWaitable(configs[1..])
  }

  /**
    `configure_devices_and_modules`: one device context per configuration, in
    configuration order, and at most one representative module per device; any
    error aborts the whole call.
   */
  function ConfigureDevices(w: World, devs: seq<DeviceInfo>, configs: seq<DeviceConfig>)
    : (r: (World, NuitrackResult<(seq<DeviceContext>, seq<Waitable>)>))
    ensures r.0 == w.(log := r.0.log) && w.log <= r.0.log
    ensures r.1.Ok? ==> |r.1.value.0| == |configs| && |r.1.value.1| == CountWaitable(configs)
    ensures r.1.Ok? ==> forall i :: 0 <= i < |configs| ==> ContextFor(r.1.value.0[i], devs, configs[i])
    ensures r.1.Ok? ==> && |r.0.log| == |w.log| + ConfigureCallCount(configs)
                        && NoFaultIn(w.faults, |w.log|, |r.0.log|)
                        && (|configs| > 0 ==> !w.lockPoisoned)
    ensures r.1.Err? ==> && (r.1.error.DeviceError? || r.1.error.OperationFailed? || r.1.error.ModuleCreationFailed?)
                         && NoFaultIn(w.faults, |w.log|, |r.0.log| - 1)
    decreases |configs|
  {
    if |configs| == 0 then (w, Ok(([], [])))
    else
      var (w1, b) := ConfigureOne(w, devs, configs[0]);
      if b.Err? then (w1, Err(b.error))
      else
        var (w2, rest) := ConfigureDevices(w1, devs, configs[1..]);
        NoFaultSplit(w.faults, |w.log|, |w1.log|, |w2.log|);
        if rest.Err? then
          if |w2.log| > |w1.log| then
            NoFaultSplit(w.faults, |w.log|, |w1.log|, |w2.log| - 1);
            (w2, Err(rest.error))
          else
            NoFaultWithin(w.faults, |w.log|, |w1.log|, |w2.log| - 1);
            (w2, Err(rest.error))
        else
          var reps := (if b.value.rep.Some? then [b.value.rep.value] else []) + rest.value.1;
          (w2, Ok(([b.value.ctx] + rest.value.0, reps)))
  }

  /**
    What a configured device context holds: the device its selector resolves
    to, a tracker of each listed kind and no other, and no stream opened yet.
   */
  predicate ContextFor(ctx: DeviceContext, devs: seq<DeviceInfo>, config: DeviceConfig)
  {
    && FindTargetDevice(devs, config.selector).Ok?
    && ctx.info == FindTargetDevice(devs, config.selector).value
    && (ctx.hand.Some? <==> HandTracker in config.modules)
    && (ctx.skeleton.Some? <==> SkeletonTracker in config.modules)
    && Untouched(ctx)
  }

  /** Native calls a successful configuration makes: `setDevice`, then one per waitable module, per configuration. */
  function ConfigureCallCount(configs: seq<DeviceConfig>): nat
  {
    if |configs| == 0 then 0 else 1 + |CreateCalls(configs[0].modules)| + ConfigureCallCount(configs[1..])
  }

  /**
    Configuration succeeds when every selector resolves, the global lock is
    usable (if any device is configured at all) and none of the native calls
    it makes throws; the contract of ConfigureDevices states the converse.
   */
  lemma {:induction false} ConfigureDevicesSucceeds(w: World, devs: seq<DeviceInfo>, configs: seq<DeviceConfig>)
    requires forall i :: 0 <= i < |configs| ==> FindTargetDevice(devs, configs[i].selector).Ok?
    requires |configs| > 0 ==> !w.lockPoisoned
    requires NoFaultIn(w.faults, |w.log|, |w.log| + ConfigureCallCount(configs))
    ensures ConfigureDevices(w, devs, configs).1.Ok?
    decreases |configs|
  {
    if |configs| > 0 {
      ConfigureDevicesStep(w, devs, configs);
      var one := ConfigureOne(w, devs, configs[0]);
      var mid := |w.log| + 1 + |CreateCalls(configs[0].modules)|;
      var hi := |w.log| + ConfigureCallCount(configs);
      assert hi == mid + ConfigureCallCount(configs[1..]);
      NoFaultSplit(w.faults, |w.log|, mid, hi);
      assert FindTargetDevice(devs, configs[0].selector).Ok?;
      assert one.1.Ok?;
      assert one.0.faults == w.faults && one.0.lockPoisoned == w.lockPoisoned && |one.0.log| == mid;
      forall i | 0 <= i < |configs[1..]| ensures FindTargetDevice(devs, configs[1..][i].selector).Ok? {
        assert configs[1..][i] == configs[i + 1];
      }
      ConfigureDevicesSucceeds(one.0, devs, configs[1..]);
    }
  }

  /** One turn of the configuration loop succeeds exactly when both its parts do. */
  lemma ConfigureDevicesStep(w: World, devs: seq<DeviceInfo>, configs: seq<DeviceConfig>)
    requires |configs| > 0
    ensures var one := ConfigureOne(w, devs, configs[0]);
            ConfigureDevices(w, devs, configs).1.Ok? <==>
              one.1.Ok? && ConfigureDevices(one.0, devs, configs[1..]).1.Ok?
  {
  }

  /** A resolver failure for any configuration makes the whole configuration fail. */
  lemma {:induction false} UnresolvableConfigFails(w: World, devs: seq<DeviceInfo>, configs: seq<DeviceConfig>, i: nat)
    requires i < |configs| && FindTargetDevice(devs, configs[i].selector).Err?
    ensures ConfigureDevices(w, devs, configs).1.Err?
  {
    var r := ConfigureDevices(w, devs, configs);
    assert r.1.Ok? ==> ContextFor(r.1.value.0[i], devs, configs[i]);
  }

  /** The typestate between discovery and finalization; it owns the guard until it is taken. */
  datatype DiscoveryState = DiscoveryState(guard: Option<Guard>, devices: seq<DeviceInfo>, runLoop: bool)

  /** `discover_devices_first`: acquire and fetch; a fetch failure drops the guard. */
  function DiscoverDevicesFirst(w: World, configPath: string, runLoop: bool, lockFree: bool)
    : (r: (World, NuitrackResult<DiscoveryState>))
    ensures w.asyncInit ==> r == (w, Err(AlreadyInitialized))
    ensures r.1.Ok? ==> && r.0.asyncInit && r.1.value.guard.Some? && r.1.value.runLoop == runLoop
                        && r.0 == w.(asyncInit := true, log := w.log + [Init(configPath), GetDevices])
                        && |r.1.value.devices| == |w.devices|
    ensures r.1.Ok? ==> forall i :: 0 <= i < |w.devices| ==>
              r.1.value.devices[i].originalIndex == i && r.1.value.devices[i].device == w.devices[i].handle
    ensures r.1.Ok? <==> !w.asyncInit && !w.lockPoisoned && NoFaultIn(w.faults, |w.log|, |w.log| + 2)
    ensures !w.asyncInit && r.1.Err? && lockFree ==> !r.0.asyncInit
  {
    var (w1, g) := Acquire(w, configPath);
    if g.Err? then (w1, Err(g.error))
    else
      var (w2, fetched) := FetchAvailableDevices(w1);
      if fetched.Err? then (DropGuard(w2, lockFree), Err(fetched.error))
      else (w2, Ok(DiscoveryState(Some(g.value), fetched.value, runLoop)))
  }

  /**
    The common tail of `init_session` and `finalize_session`: configure the
    devices and build the session on the guard, or drop the guard on an error.
   */
  function ConfigureAndBuild(w: World, devs: seq<DeviceInfo>, configs: seq<DeviceConfig>, runLoop: bool, lockFree: bool)
    : (r: (World, NuitrackResult<Session>))
    ensures w.log <= r.0.log
    ensures r.1.Ok? ==> r.0.asyncInit == w.asyncInit
    ensures r.1.Ok? ==> && |r.1.value.devices| == |configs| && r.1.value.runLoop == runLoop
                        && LoopFieldsConsistent(r.1.value)
    ensures r.1.Err? && lockFree && !w.lockPoisoned ==> !r.0.asyncInit
  {
    var (w1, configured) := ConfigureDevices(w, devs, configs);
    if configured.Err? then (DropGuard(w1, lockFree), Err(configured.error))
    else (w1, Ok(NewSession(configured.value.0, configured.value.1, runLoop)))
  }

  /**
    `init_session`: acquire the guard, fetch the devices, apply the defaulting
    policy, configure, and build the session. Any error after the guard was won
    drops the guard, which releases the SDK when the lock is free.
   */
  function InitSession(w: World, configPath: string, configs: seq<DeviceConfig>, runLoop: bool, lockFree: bool)
    : (r: (World, NuitrackResult<Session>))
    ensures w.asyncInit ==> r == (w, Err(AlreadyInitialized))
    ensures r.1.Ok? ==> r.0.asyncInit
    ensures !w.asyncInit && r.1.Err? && lockFree ==> !r.0.asyncInit
    ensures r.1.Ok? ==> LoopFieldsConsistent(r.1.value) && r.1.value.runLoop == runLoop
    ensures r.1.Ok? && |configs| > 0 ==> |r.1.value.devices| == |configs|
    ensures r.1.Ok? && |configs| == 0 ==> |r.1.value.devices| <= 1
    ensures r.1.Ok? ==> w.log + [Init(configPath), GetDevices] <= r.0.log
  {
    var (w2, st) := DiscoverDevicesFirst(w, configPath, runLoop, lockFree);
    if st.Err? then (w2, Err(st.error))
    else
      var effective := EffectiveConfigs(configs, |st.value.devices|);
      if effective.Err? then (DropGuard(w2, lockFree), Err(effective.error))
      else
        ConfigureAndBuild(w2, st.value.devices, effective.value, runLoop, lockFree)
  }

  /**
    With one attached device, no configuration and no native failure, the
    session drives that device with a hand and a skeleton tracker, and the
    update loop waits on the hand tracker (the first one created).
   */
  lemma SingleDeviceDefault(w: World, configPath: string, lockFree: bool)
    requires !w.asyncInit && !w.lockPoisoned && |w.devices| == 1
    requires NoFaultIn(w.faults, |w.log|, |w.log| + 5)
    ensures var (w1, s) := InitSession(w, configPath, [], true, lockFree);
            && s.Ok? && |s.value.devices| == 1
            && s.value.devices[0].info.originalIndex == 0
            && s.value.devices[0].info.device == w.devices[0].handle
            && s.value.devices[0].hand.Some? && s.value.devices[0].skeleton.Some?
            && |s.value.loopModules| == 1 && s.value.loopModules[0].WaitHand?
            && w1.log == w.log + [Init(configPath), GetDevices, SetDevice(w.devices[0].handle),
                                  Create(HandModule), Create(SkeletonModule)]
  {
    var d := DiscoverDevicesFirst(w, configPath, true, lockFree);
    assert d.1.Ok?;
    var devs := d.1.value.devices;
    DefaultConfigures(d.0, devs);
    var cd := ConfigureDevices(d.0, devs, [DefaultConfig]);
    var built := ConfigureAndBuild(d.0, devs, [DefaultConfig], true, lockFree);
    assert built.0 == cd.0;
    assert EffectiveConfigs([], 1) == Ok([DefaultConfig]);
    assert InitSession(w, configPath, [], true, lockFree) == built;
    var tail := [SetDevice(w.devices[0].handle), Create(HandModule), Create(SkeletonModule)];
    assert cd.0.log == (w.log + [Init(configPath), GetDevices]) + tail;
  }

  /**
    The default configuration applied to the first enumerated device, with no
    native failure: `set_device`, then a hand and a skeleton tracker, the hand
    tracker being the module the loop waits on.
   */
  lemma DefaultConfigures(w: World, devs: seq<DeviceInfo>)
    requires |devs| > 0 && !w.lockPoisoned && NoFaultIn(w.faults, |w.log|, |w.log| + 3)
    ensures var (w1, cd) := ConfigureDevices(w, devs, [DefaultConfig]);
            && cd.Ok? && |cd.value.0| == 1 && |cd.value.1| == 1
            && cd.value.0[0].info == devs[0]
            && cd.value.0[0].hand.Some? && cd.value.0[0].skeleton.Some?
            && cd.value.1[0].WaitHand?
            && w1.log == w.log + [SetDevice(devs[0].device), Create(HandModule), Create(SkeletonModule)]
  {
    var info := devs[0];
    assert FindTargetDevice(devs, ByIndex(0)) == Ok(info);
    var wa := w.(log := w.log + [SetDevice(info.device)]);
    assert |w.log| !in w.faults;
    var b0 := Built(DeviceContext(info, None, None), None);
    DefaultModulesCreated(wa, b0);
    var one := CreateModules(wa, DefaultConfig.modules, b0);
    assert ConfigureOne(w, devs, DefaultConfig) == one;
    assert CreateCalls(DefaultConfig.modules) == [Create(HandModule), Create(SkeletonModule)];
    assert [DefaultConfig][1..] == [];
    assert ConfigureDevices(one.0, devs, []) == (one.0, Ok(([], [])));
    var cd := ConfigureDevices(w, devs, [DefaultConfig]);
    assert cd.1.Ok? && cd.0 == one.0 && cd.1.value.0 == [one.1.value.ctx] + [] && cd.1.value.1 == [one.1.value.rep.value] + [];
  }

  /** With no native failure, the default module list creates both trackers. */
  lemma DefaultModulesCreated(w: World, b: Built)
    requires NoFaultIn(w.faults, |w.log|, |w.log| + 2)
    ensures CreateModules(w, DefaultConfig.modules, b).1.Ok?
  {
    var (w1, t1) := CreateModule(w, HandTracker, b);
    assert |w.log| !in w.faults;
    var (w2, t2) := CreateModule(w1, SkeletonTracker, t1.value);
    assert |w1.log| !in w.faults;
    assert CreateModules(w2, [], t2.value) == (w2, t2);
    assert [SkeletonTracker][1..] == [];
    assert CreateModules(w1, [SkeletonTracker], t1.value) == (w2, t2);
    assert [HandTracker, SkeletonTracker][1..] == [SkeletonTracker];
  }

  /** With several attached devices and no configuration, `init_session` refuses and gives the guard back. */
  lemma SeveralDevicesNeedConfig(w: World, configPath: string, runLoop: bool)
    requires !w.asyncInit && !w.lockPoisoned && |w.devices| >= 2
    requires NoFaultIn(w.faults, |w.log|, |w.log| + 2)
    ensures var (w1, s) := InitSession(w, configPath, [], runLoop, true);
            && s.Err? && s.error.DeviceError? && !w1.asyncInit
            && w1.log == w.log + [Init(configPath), GetDevices, Release]
  {
    var d := DiscoverDevicesFirst(w, configPath, runLoop, true);
    assert d.1.Ok? && |d.1.value.devices| >= 2;
    assert d.0.asyncInit && !d.0.lockPoisoned && d.0.log == w.log + [Init(configPath), GetDevices];
    var r := InitSession(w, configPath, [], runLoop, true);
    assert r.0 == DropGuard(d.0, true);
    assert r.1.Err? && r.1.error.DeviceError?;
  }

  /**
    `finalize_session`: take the guard (an `OperationFailed` if it is gone) and
    configure the discovered devices; on a configuration error the taken guard
    is dropped. The consumed state is dropped with no guard left in it.
   */
  function FinalizeSession(w: World, st: DiscoveryState, configs: seq<DeviceConfig>, lockFree: bool)
    : (r: (World, NuitrackResult<Session>))
    ensures st.guard.None? ==> r.0 == w && r.1.Err? && r.1.error.OperationFailed?
    ensures r.1.Ok? ==> r.0.asyncInit == w.asyncInit && |r.1.value.devices| == |configs|
    ensures r.1.Ok? ==> r.1.value.runLoop == st.runLoop && LoopFieldsConsistent(r.1.value)
    ensures st.guard.Some? && r.1.Err? && lockFree && !w.lockPoisoned ==> !r.0.asyncInit
  {
    if st.guard.None? then
      (w, Err(OperationFailed("NuitrackRuntimeGuard already taken/missing in DeviceDiscoveryState")))
    else
      ConfigureAndBuild(w, st.devices, configs, st.runLoop, lockFree)
  }

  /** `DeviceDiscoveryState`'s `Drop`: a guard still held is dropped, releasing the SDK when the lock is free. */
  function DropDiscoveryState(w: World, st: DiscoveryState, lockFree: bool): (r: World)
    ensures st.guard.None? ==> r == w
    ensures st.guard.Some? && lockFree && !w.lockPoisoned && w.asyncInit ==> r == w.(asyncInit := false, log := w.log + [Release])
    ensures st.guard.Some? && !(lockFree && !w.lockPoisoned && w.asyncInit) ==> r == w
  {
    if st.guard.Some? then DropGuard(w, lockFree) else w
  }

  /** Discovering and then abandoning the devices calls native `release` exactly once and clears the flag. */
  lemma DiscoverThenAbandon(w: World, configPath: string, runLoop: bool)
    requires !w.asyncInit && !w.lockPoisoned && NoFaultIn(w.faults, |w.log|, |w.log| + 2)
    ensures var (w1, st) := DiscoverDevicesFirst(w, configPath, runLoop, true);
            && st.Ok?
            && var w2 := DropDiscoveryState(w1, st.value, true);
               && !w2.asyncInit
               && w2.log == w.log + [Init(configPath), GetDevices, Release]
  {
  }
}
