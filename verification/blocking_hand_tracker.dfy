/**
  `BlockingHandTracker`: a hand tracker whose single callback runs on the SDK's
  own thread. The user's closure is boxed and leaked to the SDK as `user_data`
  (`Box::into_raw`); the tracker keeps the handler id and the raw pointer and
  must reclaim the box exactly once, whichever way the callback is torn down.

  The box is a `World` box; its channel entry stands for the callback's record
  of the results it was handed, in call order.
 */
module BlockingHandTracker {
  import opened Wrappers
  import opened Errors
  import opened World

  /** The native module handle, the registered handler id, and the leaked callback box. */
  datatype Blocking = Blocking(handle: nat, handler: Option<nat>, box: Option<nat>)

  /** Between calls the handler id and the box are registered and torn down together. */
  predicate Paired(b: Blocking) {
    b.handler.Some? <==> b.box.Some?
  }

  /** `new_blocking`: one factory call; a throw is `ModuleCreationFailed`. */
  function NewBlocking(w: World): (r: (World, NuitrackResult<Blocking>))
    ensures r.0 == w.(log := w.log + [Create(HandModule)])
    ensures r.1.Ok? <==> !Faulty(w)
    ensures r.1.Ok? ==> r.1.value == Blocking(|w.log|, None, None) && Paired(r.1.value)
    ensures r.1.Err? ==> r.1.error.ModuleCreationFailed?
  {
    var (w1, reply) := Invoke(w, Create(HandModule));
    match reply
    case Threw(what) => (w1, Err(ModuleCreationFailed("BlockingHandTracker FFI create: " + what)))
    case Returned => (w1, Ok(Blocking(|w.log|, None, None)))
  }

  /**
    `connect_on_update`: refused while a callback is registered; otherwise box
    the callback, register it, and on a native failure reclaim the box at once.
    The handler id is the position of the connect call.
   */
  function ConnectOnUpdate(w: World, b: Blocking): (r: (World, Blocking, NuitrackResult<nat>))
    ensures b.handler.Some? ==> r.0 == w && r.1 == b && r.2.Err? && r.2.error.OperationFailed?
    ensures b.handler.None? ==> && r.0.log == w.log + [ConnectBlocking(b.handle)]
                                && r.0.doubleFrees == w.doubleFrees && SameSetting(w, r.0)
                                && r.0.nextBox == w.nextBox + 1 && r.1.handle == b.handle
    ensures b.handler.None? ==> (r.2.Ok? <==> !Faulty(w))
    ensures b.handler.None? && r.2.Ok? ==> && r.2.value == |w.log|
                                           && r.1 == Blocking(b.handle, Some(|w.log|), Some(w.nextBox))
                                           && r.0.live == w.live + {w.nextBox}
                                           && w.nextBox in r.0.channels && r.0.channels[w.nextBox] == Channel([], true, true)
    ensures b.handler.None? && r.2.Err? ==> && r.2.error.OperationFailed?
                                            && r.1 == b.(box := None)
                                            && r.0.live == w.live - {w.nextBox}
    ensures WellFormed(w) ==> WellFormed(r.0)
  {
    if b.handler.Some? then
      var refused: NuitrackResult<nat> := Err(OperationFailed("Callback already registered for this BlockingHandTracker"));
      (w, b, refused)
    else
      var (w1, a) := Alloc(w);
      var (w2, reply) := Invoke(w1, ConnectBlocking(b.handle));
      match reply
      case Threw(what) =>
        (Reclaim(w2, a), b.(box := None), Err(OperationFailed("FFI connect_blocking_callback: " + what)))
      case Returned =>
        (w2, b.(handler := Some(|w.log|), box := Some(a)), Ok(|w.log|))
  }

  /**
    `disconnect_on_update`: with no handler, nothing to do. Otherwise take the
    handler, disconnect it, reclaim the box whatever the disconnect gave, and
    return the disconnect's result.
   */
  function DisconnectOnUpdate(w: World, b: Blocking): (r: (World, Blocking, NuitrackResult<Unit>))
    ensures b.handler.None? ==> r == (w, b, Ok(Unit))
    ensures b.handler.Some? ==> && r.0.log == w.log + [DisconnectBlocking(b.handle, b.handler.value)]
                                && r.1 == Blocking(b.handle, None, None) && SameSetting(w, r.0)
                                && r.0.nextBox == w.nextBox
                                && r.0.live == w.live - (if b.box.Some? then {b.box.value} else {})
                                && r.0.doubleFrees == w.doubleFrees + (if b.box.Some? && b.box.value !in w.live then 1 else 0)
    ensures b.handler.Some? ==> (r.2.Ok? <==> !Faulty(w))
    ensures r.2.Err? ==> r.2.error.OperationFailed?
    ensures WellFormed(w) ==> WellFormed(r.0)
  {
    match b.handler
    case None => (w, b, Ok(Unit))
    case Some(id) =>
      var (w1, reply) := Invoke(w, DisconnectBlocking(b.handle, id));
      var result: NuitrackResult<Unit> :=
        match reply
        case Threw(what) => Err(OperationFailed("FFI disconnect_on_update: " + what))
        case Returned => Ok(Unit);
      var w2 := if b.box.Some? then Reclaim(w1, b.box.value) else w1;
      (w2, Blocking(b.handle, None, None), result)
  }

  /**
    `Drop`: a registered handler is disconnected (its error is discarded); a box
    left without a handler is reclaimed directly.
   */
  function DropBlocking(w: World, b: Blocking): (r: World)
    ensures b.handler.Some? ==> r == DisconnectOnUpdate(w, b).0
    ensures b.handler.None? && b.box.None? ==> r == w
    ensures b.handler.None? && b.box.Some? ==> r == Reclaim(w, b.box.value)
    ensures r.nextBox == w.nextBox && SameSetting(w, r)
  {
    if b.handler.Some? then DisconnectOnUpdate(w, b).0
    else if b.box.Some? then Reclaim(w, b.box.value)
    else w
  }

  /** What the callback is handed for one SDK frame pointer. */
  function Delivered(frame: Option<nat>): NuitrackResult<Value> {
    match frame
    case Some(f) => Ok(HandFrame(f))
    case None => Err(OperationFailed("BlockingCallback: Failed to create HandFrame from FFI (BridgedHandTrackerData was null or invalid)"))
  }

  /**
    `rust_blocking_hand_tracker_trampoline`: a null `user_data` is ignored;
    otherwise the callback in the box is handed the frame, or `OperationFailed`
    when the SDK's frame pointer is null. The box must still be live: the SDK
    only calls a registered handler.
   */
  function Trampoline(w: World, userData: Option<nat>, frame: Option<nat>): (r: World)
    requires userData.Some? ==> userData.value in w.channels
    ensures userData.None? ==> r == w
    ensures && r.live == w.live && r.log == w.log && r.doubleFrees == w.doubleFrees
            && r.nextBox == w.nextBox && SameSetting(w, r) && r.channels.Keys == w.channels.Keys
    ensures userData.Some? ==> && r.channels[userData.value].items == w.channels[userData.value].items + [Delivered(frame)]
                               && (frame.Some? <==> Delivered(frame).Ok?)
    ensures forall k :: k in w.channels && Some(k) != userData ==> r.channels[k] == w.channels[k]
  {
    match userData
    case None => w
    case Some(a) =>
      var c := w.channels[a];
      w.(channels := w.channels[a := c.(items := c.items + [Delivered(frame)])])
  }

  /** Several SDK callbacks on the same registered box, one after the other. */
  function Trampolines(w: World, a: nat, frames: seq<Option<nat>>): (r: World)
    requires a in w.channels
    ensures a in r.channels && r.live == w.live && r.log == w.log
    decreases |frames|
  {
    if |frames| == 0 then w
    else Trampolines(Trampoline(w, Some(a), frames[0]), a, frames[1..])
  }

  /** The results a run of SDK frame pointers hands the callback, one per pointer. */
  function DeliveredAll(frames: seq<Option<nat>>): (rs: seq<NuitrackResult<Value>>)
    ensures |rs| == |frames|
    ensures forall k :: 0 <= k < |frames| ==> rs[k] == Delivered(frames[k])
  {
    if |frames| == 0 then [] else [Delivered(frames[0])] + DeliveredAll(frames[1..])
  }

  /** The callback sees one result per SDK call, in call order: a frame, or an error for a null frame. */
  lemma {:induction false} TrampolineOrder(w: World, a: nat, frames: seq<Option<nat>>)
    requires a in w.channels
    ensures Trampolines(w, a, frames).channels[a].items == w.channels[a].items + DeliveredAll(frames)
    decreases |frames|
  {
    if |frames| == 0 {
      assert w.channels[a].items + DeliveredAll(frames) == w.channels[a].items;
    } else {
      var w1 := Trampoline(w, Some(a), frames[0]);
      TrampolineOrder(w1, a, frames[1..]);
      var rest := DeliveredAll(frames[1..]);
      assert DeliveredAll(frames) == [Delivered(frames[0])] + rest;
      AppendThenRest(w.channels[a].items, Delivered(frames[0]), rest);
    }
  }

  lemma AppendThenRest(xs: seq<NuitrackResult<Value>>, x: NuitrackResult<Value>, rest: seq<NuitrackResult<Value>>)
    ensures xs + [x] + rest == xs + ([x] + rest)
  {
  }

  /** The operations a user can issue on a blocking tracker. */
  datatype Op = Connect | Disconnect

  function Apply(w: World, b: Blocking, op: Op): (r: (World, Blocking)) {
    match op
    case Connect => var (w1, b1, _) := ConnectOnUpdate(w, b); (w1, b1)
    case Disconnect => var (w1, b1, _) := DisconnectOnUpdate(w, b); (w1, b1)
  }

  function ApplyAll(w: World, b: Blocking, ops: seq<Op>): (r: (World, Blocking))
    decreases |ops|
  {
    if |ops| == 0 then (w, b) else var (w1, b1) := Apply(w, b, ops[0]); ApplyAll(w1, b1, ops[1..])
  }

  /**
    What stays true between calls, relative to the world `w0` the tracker was
    created in: the box, if any, is the only box the tracker added, it is live
    and was never in `w0`, and nothing was freed twice.
   */
  predicate Owns(w0: World, w: World, b: Blocking) {
    && WellFormed(w) && Paired(b)
    && w.nextBox >= w0.nextBox && w.doubleFrees == w0.doubleFrees
    && (b.box.None? ==> w.live == w0.live)
    && (b.box.Some? ==> b.box.value >= w0.nextBox && w.live == w0.live + {b.box.value})
  }

  lemma ApplyKeepsOwnership(w0: World, w: World, b: Blocking, op: Op)
    requires WellFormed(w0) && Owns(w0, w, b)
    ensures var (w1, b1) := Apply(w, b, op); Owns(w0, w1, b1)
  {
    match op
    case Connect =>
      if b.handler.None? {
        assert w.nextBox !in w0.live;
      }
    case Disconnect =>
  }

  lemma {:induction false} ApplyAllKeepsOwnership(w0: World, w: World, b: Blocking, ops: seq<Op>)
    requires WellFormed(w0) && Owns(w0, w, b)
    ensures var (w1, b1) := ApplyAll(w, b, ops); Owns(w0, w1, b1)
    decreases |ops|
  {
    if |ops| > 0 {
      var (w1, b1) := Apply(w, b, ops[0]);
      ApplyKeepsOwnership(w0, w, b, ops[0]);
      ApplyAllKeepsOwnership(w0, w1, b1, ops[1..]);
    }
  }

  /**
    Whatever sequence of connects and disconnects a fresh blocking tracker goes
    through, dropping it leaves exactly the boxes that were live before it was
    created: every callback box is reclaimed, and none twice.
   */
  lemma EveryBoxFreedOnce(w: World, handle: nat, ops: seq<Op>)
    requires WellFormed(w)
    ensures var (w1, b1) := ApplyAll(w, Blocking(handle, None, None), ops);
            var w2 := DropBlocking(w1, b1);
            w2.live == w.live && w2.doubleFrees == w.doubleFrees
  {
    ApplyAllKeepsOwnership(w, w, Blocking(handle, None, None), ops);
    var (w1, b1) := ApplyAll(w, Blocking(handle, None, None), ops);
    if b1.box.Some? {
      assert b1.box.value !in w.live;
      assert w1.live - {b1.box.value} == w.live;
    }
  }

  /** End to end: once connected, every SDK callback reaches the user's record, in order. */
  lemma ConnectedCallbackReceivesFrames(w: World, handle: nat, frames: seq<Option<nat>>)
    requires WellFormed(w) && !Faulty(w)
    ensures var (w1, b1, id) := ConnectOnUpdate(w, Blocking(handle, None, None));
            && id.Ok? && b1.box == Some(w.nextBox)
            && Trampolines(w1, w.nextBox, frames).channels[w.nextBox].items == DeliveredAll(frames)
  {
    var (w1, b1, id) := ConnectOnUpdate(w, Blocking(handle, None, None));
    TrampolineOrder(w1, w.nextBox, frames);
    assert w1.channels[w.nextBox].items == [];
    assert [] + DeliveredAll(frames) == DeliveredAll(frames);
  }
}
