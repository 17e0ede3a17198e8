/**
  `NuitrackSession`: the devices a session drives, the internal update loop's
  bookkeeping (modules to wait on, cancellation token, task handle), one
  iteration of that loop, the manual `drive_update_cycle`, and `close`.

  The spawned loop runs concurrently with everything else; here one iteration
  is a function of the world, and cancellation (which only ever goes from
  "not cancelled" to "cancelled") is a number `cancelAfter`: the iteration's
  `k`-th look at the token sees it cancelled exactly when `cancelAfter <= k`.
  Look 0 is the biased `select!` branch, look `1 + j` the check before waiting
  on module `j`, and looks 1 and 2 the two checks of the fallback path.
 */
module Session {
  import opened Wrappers
  import opened Errors
  import opened World
  import opened Strings
  import opened RuntimeGuard
  import opened Tracker
  import opened SessionConfig

  /**
    `ActiveDeviceContext`: one tracker slot per waitable module type (the
    source declares the skeleton slot with the hand tracker's type).
   */
  datatype DeviceContext = DeviceContext(info: DeviceInfo, skeleton: Option<Tracker>, hand: Option<Tracker>)

  /** `WaitableModuleFfiVariant`: the module handle the loop waits on. */
  datatype Waitable = WaitHand(handle: nat) | WaitSkeleton(handle: nat)

  datatype Token = Token(cancelled: bool)

  /**
    The session. `task` is the shared slot for the loop's join handle
    (`None` without a loop, `Some(None)` before the loop is spawned);
    `spawned` counts the loop tasks spawned so far, task `k` being the `k`-th.
   */
  datatype Session = Session(
    devices: seq<DeviceContext>,
    runLoop: bool,
    loopModules: seq<Waitable>,
    token: Option<Token>,
    task: Option<Option<nat>>,
    spawned: nat)

  /** Token, handle slot and module list exist only for a session that runs its own loop. */
  predicate LoopFieldsConsistent(s: Session) {
    && (s.token.Some? <==> s.runLoop)
    && (s.task.Some? <==> s.runLoop)
    && (!s.runLoop ==> s.loopModules == [])
  }

  /** `NuitrackSession::new` (always `Ok` in the source). */
  function NewSession(devices: seq<DeviceContext>, modules: seq<Waitable>, runLoop: bool): (s: Session)
    ensures s.devices == devices && s.runLoop == runLoop && s.spawned == 0
    ensures runLoop ==> s.loopModules == modules && s.token == Some(Token(false)) && s.task == Some(None)
    ensures LoopFieldsConsistent(s)
  {
    if runLoop then Session(devices, true, modules, Some(Token(false)), Some(None), 0)
    else Session(devices, false, [], None, None, 0)
  }

  /**
    `start_processing`: native `run` under the global lock; on success, a
    session that runs its own loop spawns it and stores the join handle.
   */
  function StartProcessing(w: World, s: Session): (r: (World, Session, NuitrackResult<Unit>))
    ensures r.0 == w.(log := w.log + (if w.lockPoisoned then [] else [Run]))
    ensures r.2.Ok? <==> !w.lockPoisoned && !Faulty(w)
    ensures r.2.Err? ==> r.2.error.OperationFailed? && r.1 == s
    ensures r.2.Ok? && s.runLoop && LoopFieldsConsistent(s) ==>
              r.1 == s.(task := Some(Some(s.spawned)), spawned := s.spawned + 1)
    ensures !s.runLoop ==> r.1 == s
    ensures LoopFieldsConsistent(s) ==> LoopFieldsConsistent(r.1)
  {
    if w.lockPoisoned then (w, s, Err(OperationFailed("Global API Lock poisoned for Nuitrack::run")))
    else
      var (w1, reply) := Invoke(w, Run);
      match reply
      case Threw(what) => (w1, s, Err(OperationFailed("FFI Nuitrack::run: " + what)))
      case Returned =>
        if s.runLoop && s.token.Some? && s.task.Some? then
          (w1, s.(task := Some(Some(s.spawned)), spawned := s.spawned + 1), Ok(Unit))
        else
          (w1, s, Ok(Unit))
  }

  /**
    Starting twice spawns a second loop and overwrites the stored handle: the
    first loop task is no longer held, so `close` can join only the second.
   */
  lemma StartTwiceDetachesFirst(w: World, s: Session)
    requires LoopFieldsConsistent(s) && s.runLoop
    requires !w.lockPoisoned && !Faulty(w) && !FaultAt(w, |w.log| + 1)
    ensures var (w1, s1, r1) := StartProcessing(w, s);
            var (w2, s2, r2) := StartProcessing(w1, s1);
            && r1.Ok? && r2.Ok? && s2.spawned == s.spawned + 2
            && s2.task == Some(Some(s.spawned + 1))
  {
  }

  /** How the loop wraps a native failure before classifying it. */
  datatype ErrorMapping =
    | AsWritten   // wrapped into `OperationFailed`, as the loop does
    | Classified  // kept as the `Ffi` variant that `is_fatal_error` inspects

  datatype Step = Continue | Stop(selfCancelled: bool)

  /** `is_fatal_error`: the FFI variant whose message mentions a lost license. */
  function IsFatalError(e: NuitrackError): (b: bool)
    ensures b <==> e.Ffi? && exists i :: OccursAt(e.what, "LicenseNotAcquired", i)
  {
    if e.Ffi? then Contains(e.what, "LicenseNotAcquired")
    else false
  }

  /** The error a native failure with message `what` becomes under `mapping`. */
  function NativeError(mapping: ErrorMapping, context: string, what: string): (e: NuitrackError)
    ensures mapping == AsWritten ==> e.OperationFailed?
    ensures mapping == Classified ==> e == Ffi(what)
    ensures IsFatalError(e) <==> mapping == Classified && Contains(what, "LicenseNotAcquired")
  {
    match mapping
    case AsWritten => OperationFailed(context + what)
    case Classified => Ffi(what)
  }

  /** Native call number `i` throws an error the loop treats as fatal. */
  predicate FatalFault(faults: map<nat, string>, mapping: ErrorMapping, i: nat) {
    i in faults && mapping == Classified && Contains(faults[i], "LicenseNotAcquired")
  }

  /** The waits on modules `from` up to (not including) `to`, in order. */
  function WaitCalls(ms: seq<Waitable>, from: nat, to: nat): (calls: seq<Call>)
    requires from <= to <= |ms|
    ensures |calls| == to - from
    ensures forall i :: 0 <= i < |calls| ==> calls[i] == WaitUpdate(ms[from + i].handle)
  {
    seq(to - from, i requires 0 <= i < to - from => WaitUpdate(ms[from + i].handle))
  }

  /**
    The module pass of one loop iteration from module `j` on: before each wait
    the token is checked; a failed wait ends the iteration (cancelling the
    token) only when its error is fatal.
   */
  function ModulesPass(w: World, ms: seq<Waitable>, j: nat, cancelAfter: nat, mapping: ErrorMapping): (r: (World, Step))
    requires j <= |ms|
    ensures |w.log| <= |r.0.log| <= |w.log| + (|ms| - j)
    ensures r.0 == w.(log := w.log + WaitCalls(ms, j, j + (|r.0.log| - |w.log|)))
    ensures r.1 == Continue ==> |r.0.log| == |w.log| + (|ms| - j) && (j < |ms| ==> |ms| < cancelAfter)
    ensures r.1 == Stop(false) ==> j + (|r.0.log| - |w.log|) < |ms| && cancelAfter <= 1 + j + (|r.0.log| - |w.log|)
    ensures r.1 == Stop(true) ==> |r.0.log| > |w.log| && FatalFault(w.faults, mapping, |r.0.log| - 1)
    ensures forall i :: |w.log| <= i < |r.0.log| && (r.1 != Stop(true) || i < |r.0.log| - 1) ==> !FatalFault(w.faults, mapping, i)
    ensures mapping == AsWritten ==> r.1 != Stop(true)
    decreases |ms| - j
  {
    if j == |ms| then (w, Continue)
    else if cancelAfter <= 1 + j then (w, Stop(false))
    else
      var (w1, reply) := Invoke(w, WaitUpdate(ms[j].handle));
      match reply
      case Threw(what) =>
        if IsFatalError(NativeError(mapping, "FFI wait_update: ", what)) then (w1, Stop(true))
        else
          assert !FatalFault(w.faults, mapping, |w.log|);
          ModulesPass(w1, ms, j + 1, cancelAfter, mapping)
      case Returned =>
        ModulesPass(w1, ms, j + 1, cancelAfter, mapping)
  }

  /**
    One iteration of the internal update loop: stop on a cancelled token;
    otherwise wait on every collected module, or, with none collected, fall
    back to one global `update` while devices are active.
   */
  function LoopIteration(w: World, ms: seq<Waitable>, devicesPresent: bool, cancelAfter: nat, mapping: ErrorMapping): (r: (World, Step))
    ensures cancelAfter == 0 ==> r == (w, Stop(false))
    ensures |ms| > 0 ==> |w.log| <= |r.0.log| <= |w.log| + |ms| && r.0 == w.(log := w.log + WaitCalls(ms, 0, |r.0.log| - |w.log|))
    ensures |ms| == 0 ==> r.0 == w.(log := w.log + (if devicesPresent && 1 < cancelAfter then [Update] else []))
    ensures r.1 == Stop(false) ==> cancelAfter <= |ms| + 2
    ensures mapping == AsWritten ==> r.1 != Stop(true)
  {
    if cancelAfter == 0 then (w, Stop(false))
    else if |ms| > 0 then ModulesPass(w, ms, 0, cancelAfter, mapping)
    else if 1 < cancelAfter && devicesPresent then
      var (w1, reply) := Invoke(w, Update);
      match reply
      case Threw(what) =>
        if IsFatalError(NativeError(mapping, "FFI Nuitrack::update in internal loop: ", what)) then (w1, Stop(true))
        else (w1, Continue)
      case Returned => (w1, Continue)
    else if cancelAfter <= 2 then (w, Stop(false))
    else (w, Continue)
  }

  /**
    Finding, as written: even when every wait of an iteration fails with a
    lost license, the iteration makes all its waits and carries on; as written
    the loop ends only when someone else cancels its token.
   */
  lemma LicenseLossIgnoredAsWritten(w: World, ms: seq<Waitable>, devicesPresent: bool, cancelAfter: nat)
    requires |ms| > 0 && |ms| < cancelAfter
    requires forall i :: |w.log| <= i < |w.log| + |ms| ==> i in w.faults && w.faults[i] == "LicenseNotAcquired"
    ensures LoopIteration(w, ms, devicesPresent, cancelAfter, AsWritten) == (w.(log := w.log + WaitCalls(ms, 0, |ms|)), Continue)
  {
    var r := ModulesPass(w, ms, 0, cancelAfter, AsWritten);
    assert r.1 != Stop(false);
  }

  /**
    Corrected: with the native error kept as `Ffi`, the first wait that reports
    a lost license ends the iteration and cancels the token, with no further wait.
   */
  lemma LicenseLossStopsLoop(w: World, ms: seq<Waitable>, devicesPresent: bool, cancelAfter: nat)
    requires |ms| > 0 && 1 < cancelAfter
    requires |w.log| in w.faults && Contains(w.faults[|w.log|], "LicenseNotAcquired")
    ensures LoopIteration(w, ms, devicesPresent, cancelAfter, Classified) == (w.(log := w.log + [WaitUpdate(ms[0].handle)]), Stop(true))
  {
  }

  /**
    The waits `drive_update_cycle` makes for a list of devices: one per device
    with a hand tracker and no skeleton tracker (the skeleton wait is commented
    out in the source, yet a skeleton tracker still takes priority).
   */
  function HandWaits(devs: seq<DeviceContext>): seq<Call> {
    if |devs| == 0 then [] else HandWait(devs[0]) + HandWaits(devs[1..])
  }

  /** The wait one device contributes: its hand tracker's, unless it also has a skeleton tracker. */
  function HandWait(d: DeviceContext): seq<Call> {
    if d.skeleton.None? && d.hand.Some? then [WaitUpdate(d.hand.value.handle)] else []
  }

  /** No native call numbered from `lo` up to (not including) `hi` throws. */
  predicate NoFaultIn(faults: map<nat, string>, lo: int, hi: int) {
    forall i: nat :: lo <= i < hi ==> i !in faults
  }

  lemma NoFaultShift(faults: map<nat, string>, lo: nat, hi: int)
    requires lo !in faults
    ensures NoFaultIn(faults, lo, hi) <==> NoFaultIn(faults, lo + 1, hi)
  {
  }

  /** One device's step of `drive_update_cycle`: its hand wait, if any; a throw is the device's error. */
  function DriveDevice(w: World, d: DeviceContext): (r: (World, NuitrackResult<Unit>))
    ensures r.0 == w.(log := w.log + HandWait(d))
    ensures r.1.Err? <==> |HandWait(d)| == 1 && FaultAt(w, |w.log|)
    ensures r.1.Err? ==> r.1.error.OperationFailed?
  {
    if d.skeleton.Some? || d.hand.None? then (w, Ok(Unit))
    else
      var (w1, reply) := Invoke(w, WaitUpdate(d.hand.value.handle));
      match reply
      case Threw(what) => (w1, Err(OperationFailed("FFI wait_update_hand_tracker: " + what)))
      case Returned => (w1, Ok(Unit))
  }

  /** The per-device part of `drive_update_cycle`: the waits in order, stopping at the first that fails. */
  function DriveDevices(w: World, devs: seq<DeviceContext>): (r: (World, NuitrackResult<Unit>))
    ensures |w.log| <= |r.0.log| <= |w.log| + |HandWaits(devs)|
    ensures r.0 == w.(log := w.log + HandWaits(devs)[..|r.0.log| - |w.log|])
    ensures r.1.Ok? ==> |r.0.log| == |w.log| + |HandWaits(devs)|
    ensures r.1.Err? ==> r.1.error.OperationFailed? && |r.0.log| > |w.log| && FaultAt(w, |r.0.log| - 1)
    decreases |devs|
  {
    if |devs| == 0 then (w, Ok(Unit))
    else
      var (w1, res) := DriveDevice(w, devs[0]);
      var head := HandWait(devs[0]);
      assert HandWaits(devs) == head + HandWaits(devs[1..]);
      if res.Err? then
        assert HandWaits(devs)[..1] == head;
        (w1, res)
      else
        var r := DriveDevices(w1, devs[1..]);
        DriveStep(w, head, HandWaits(devs[1..]), r.0.log, |r.0.log| - |w1.log|);
        r
  }

  /**
    The outcome of the per-device waits: `Ok` exactly when none of the waits
    throws, and on an error every wait before the failing one returned.
   */
  lemma {:induction false} DriveDevicesOutcome(w: World, devs: seq<DeviceContext>)
    ensures var r := DriveDevices(w, devs);
            && (r.1.Ok? <==> NoFaultIn(w.faults, |w.log|, |w.log| + |HandWaits(devs)|))
            && (r.1.Err? ==> NoFaultIn(w.faults, |w.log|, |r.0.log| - 1))
  {
    var r := DriveDevices(w, devs);
    if r.1.Err? {
      // The failing wait is one of the waits, so not all of them succeed.
      var k: nat := |r.0.log| - 1;
      assert k in w.faults && |w.log| <= k < |w.log| + |HandWaits(devs)|;
      DriveDevicesFailsFirst(w, devs);
    } else {
      DriveDevicesOkClean(w, devs);
    }
  }

  /** A successful pass saw no wait throw. */
  lemma {:induction false} DriveDevicesOkClean(w: World, devs: seq<DeviceContext>)
    requires DriveDevices(w, devs).1.Ok?
    ensures NoFaultIn(w.faults, |w.log|, |w.log| + |HandWaits(devs)|)
    decreases |devs|
  {
    if |devs| > 0 {
      var head := HandWait(devs[0]);
      var w1 := w.(log := w.log + head);
      assert DriveDevices(w, devs) == DriveDevices(w1, devs[1..]);
      DriveDevicesOkClean(w1, devs[1..]);
      if |head| == 1 {
        NoFaultShift(w.faults, |w.log|, |w.log| + |HandWaits(devs)|);
      }
    }
  }

  /** A failed pass failed at its first throwing wait. */
  lemma {:induction false} DriveDevicesFailsFirst(w: World, devs: seq<DeviceContext>)
    requires DriveDevices(w, devs).1.Err?
    ensures NoFaultIn(w.faults, |w.log|, |DriveDevices(w, devs).0.log| - 1)
    decreases |devs|
  {
    var head := HandWait(devs[0]);
    var w1 := w.(log := w.log + head);
    if !DriveDevice(w, devs[0]).1.Err? {
      assert DriveDevices(w, devs) == DriveDevices(w1, devs[1..]);
      DriveDevicesFailsFirst(w1, devs[1..]);
      if |head| == 1 {
        NoFaultShift(w.faults, |w.log|, |DriveDevices(w, devs).0.log| - 1);
      }
    }
  }

  lemma DriveStep(w: World, head: seq<Call>, rest: seq<Call>, log: seq<Call>, n: nat)
    requires n <= |rest| && log == w.log + head + rest[..n]
    ensures log == w.log + (head + rest)[..|head| + n]
  {
    assert (head + rest)[..|head| + n] == head + rest[..n];
  }

  /**
    `drive_update_cycle`: with no active devices, exactly one global `update`
    whose result is returned; otherwise the per-device waits.
   */
  function DriveUpdateCycle(w: World, s: Session): (r: (World, NuitrackResult<Unit>))
    ensures |s.devices| == 0 ==> && r.0 == w.(log := w.log + [Update])
                                 && (r.1.Ok? <==> !Faulty(w))
                                 && (r.1.Err? ==> r.1.error.OperationFailed?)
    ensures |s.devices| > 0 ==> r == DriveDevices(w, s.devices)
  {
    if |s.devices| == 0 then
      var (w1, reply) := Invoke(w, Update);
      match reply
      case Threw(what) => (w1, Err(OperationFailed("FFI Nuitrack::update in drive_update_cycle (no active devices): " + what)))
      case Returned => (w1, Ok(Unit))
    else
      DriveDevices(w, s.devices)
  }

  /** Devices that all have a skeleton tracker are driven without any native call. */
  lemma {:induction false} SkeletonDevicesNeverWait(devs: seq<DeviceContext>)
    requires forall k :: 0 <= k < |devs| ==> devs[k].skeleton.Some?
    ensures HandWaits(devs) == []
    decreases |devs|
  {
    if |devs| > 0 {
      assert forall k :: 0 <= k < |devs[1..]| ==> devs[1..][k] == devs[k + 1];
      SkeletonDevicesNeverWait(devs[1..]);
    }
  }

  /** The markers `close` records while stopping the loop: cancel the token, then join the stored task. */
  function LoopStopMarks(s: Session): seq<Call> {
    if s.runLoop then
      (if s.token.Some? then [CancelLoop] else []) + (if s.task.Some? && s.task.value.Some? then [JoinLoop] else [])
    else []
  }

  /** The disconnect calls made when one device context is dropped: its skeleton slot, then its hand slot. */
  function DeviceCalls(d: DeviceContext): seq<Call> {
    (if d.skeleton.Some? then Disconnects(d.skeleton.value.handle, d.skeleton.value.slots, 0) else [])
    + (if d.hand.Some? then Disconnects(d.hand.value.handle, d.hand.value.slots, 0) else [])
  }

  /** The disconnect calls made when the session's device contexts are dropped, in order. */
  function DeviceDisconnects(devs: seq<DeviceContext>): seq<Call> {
    if |devs| == 0 then [] else DeviceCalls(devs[0]) + DeviceDisconnects(devs[1..])
  }

  /** Dropping one device context, and with it its trackers. */
  function DropDevice(w: World, d: DeviceContext): (r: World)
    ensures r.log == w.log + DeviceCalls(d)
    ensures SameSetting(w, r)
  {
    var skeletonCalls := if d.skeleton.Some? then Disconnects(d.skeleton.value.handle, d.skeleton.value.slots, 0) else [];
    var handCalls := if d.hand.Some? then Disconnects(d.hand.value.handle, d.hand.value.slots, 0) else [];
    var w1 := if d.skeleton.Some? then DropTracker(w, d.skeleton.value) else w;
    assert w1.log == w.log + skeletonCalls && SameSetting(w, w1);
    var w2 := if d.hand.Some? then DropTracker(w1, d.hand.value) else w1;
    assert w2.log == w1.log + handCalls && SameSetting(w1, w2);
    LogThen(w.log, w1.log, w2.log, skeletonCalls, handCalls);
    w2
  }

  /** Dropping the device contexts in order. */
  function DropDevices(w: World, devs: seq<DeviceContext>): (r: World)
    ensures SameSetting(w, r)
    decreases |devs|
  {
    if |devs| == 0 then w else DropDevices(DropDevice(w, devs[0]), devs[1..])
  }

  /** The contexts' drops make exactly their disconnect calls, device after device. */
  lemma {:induction false} DropDevicesLog(w: World, devs: seq<DeviceContext>)
    ensures DropDevices(w, devs).log == w.log + DeviceDisconnects(devs)
    decreases |devs|
  {
    if |devs| > 0 {
      var w1 := DropDevice(w, devs[0]);
      var r := DropDevices(w1, devs[1..]);
      assert DropDevices(w, devs) == r;
      DropDevicesLog(w1, devs[1..]);
      LogThen(w.log, w1.log, r.log, DeviceCalls(devs[0]), DeviceDisconnects(devs[1..]));
    }
  }

  /**
    `close`: cancel and join the loop, release through the guard, and forget
    the guard. On a release error the session, guard included, is dropped
    instead; either way the device contexts are dropped last.
   */
  function Close(w: World, s: Session, lockFree: bool): (r: (World, NuitrackResult<Unit>))
    ensures r.0.log == w.log + LoopStopMarks(s)
                      + (if w.asyncInit && !w.lockPoisoned then [Release] else [])
                      + DeviceDisconnects(s.devices)
    ensures !r.0.asyncInit
    ensures r.1.Ok? <==> !w.asyncInit || (!w.lockPoisoned && !FaultAt(w, |w.log| + |LoopStopMarks(s)|))
    ensures r.1.Err? ==> r.1.error.OperationFailed?
  {
    var w1 := w.(log := w.log + LoopStopMarks(s));
    var (w2, res) := ReleaseAsync(w1);
    assert w2.log == w1.log + (if w.asyncInit && !w.lockPoisoned then [Release] else []) && !w2.asyncInit;
    var w3 := if res.Err? then DropGuard(w2, lockFree) else w2;
    assert w3 == w2;
    DropDevicesLog(w3, s.devices);
    (DropDevices(w3, s.devices), res)
  }

  lemma {:induction false} DisconnectsOnly(handle: nat, slots: seq<Slot>, base: nat)
    ensures forall i :: 0 <= i < |Disconnects(handle, slots, base)| ==> Disconnects(handle, slots, base)[i].DisconnectCallback?
    decreases |slots|
  {
    if |slots| > 0 {
      DisconnectsOnly(handle, slots[1..], base + 1);
    }
  }

  lemma {:induction false} DeviceDisconnectsOnly(devs: seq<DeviceContext>)
    ensures forall i :: 0 <= i < |DeviceDisconnects(devs)| ==> DeviceDisconnects(devs)[i].DisconnectCallback?
    decreases |devs|
  {
    if |devs| > 0 {
      assert DeviceDisconnects(devs) == DeviceCalls(devs[0]) + DeviceDisconnects(devs[1..]);
      if devs[0].skeleton.Some? {
        DisconnectsOnly(devs[0].skeleton.value.handle, devs[0].skeleton.value.slots, 0);
      }
      if devs[0].hand.Some? {
        DisconnectsOnly(devs[0].hand.value.handle, devs[0].hand.value.slots, 0);
      }
      DeviceDisconnectsOnly(devs[1..]);
    }
  }

  /**
    Ordering in `close`: the loop is cancelled and joined before native
    `release`, and every tracker's callback disconnect comes after it.
   */
  lemma CloseOrdering(w: World, s: Session, lockFree: bool)
    requires s.runLoop && s.token.Some? && s.task.Some? && s.task.value.Some? && w.asyncInit && !w.lockPoisoned
    ensures var log := Close(w, s, lockFree).0.log;
            && log[|w.log|] == CancelLoop && log[|w.log| + 1] == JoinLoop && log[|w.log| + 2] == Release
            && forall i :: |w.log| + 2 < i < |log| ==> log[i].DisconnectCallback?
  {
    DeviceDisconnectsOnly(s.devices);
  }

  /**
    A whole session: a won `acquire`, a session built on the guard, `close`,
    and then any further drop of the guard call native `release` exactly once,
    and the flag ends clear.
   */
  lemma SessionReleasesOnce(w: World, path: string, devs: seq<DeviceContext>, modules: seq<Waitable>,
                            runLoop: bool, lockFree: bool, lockFreeLater: bool)
    requires !w.asyncInit && !w.lockPoisoned && !Faulty(w)
    ensures var (w1, g) := Acquire(w, path);
            var s := NewSession(devs, modules, runLoop);
            var (w2, c) := Close(w1, s, lockFree);
            var w3 := DropGuard(w2, lockFreeLater);
            && g.Ok? && !w3.asyncInit
            && Occurrences(w3.log[|w.log|..], Release) == 1
  {
    var (w1, g) := Acquire(w, path);
    var s := NewSession(devs, modules, runLoop);
    var (w2, c) := Close(w1, s, lockFree);
    var w3 := DropGuard(w2, lockFreeLater);
    var marks := LoopStopMarks(s);
    var tail := DeviceDisconnects(devs);
    assert w3 == w2;
    assert w3.log[|w.log|..] == [Init(path)] + marks + [Release] + tail;
    DeviceDisconnectsOnly(devs);
    OccurrencesAbsent(tail, Release);
    OccurrencesAbsent([Init(path)] + marks, Release);
    OccurrencesAppend([Init(path)] + marks, [Release], Release);
    OccurrencesAppend([Init(path)] + marks + [Release], tail, Release);
  }
}
