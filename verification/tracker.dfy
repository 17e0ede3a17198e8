/**
  The tracker that `generate_async_tracker!` expands to, written once and
  parameterised by a table of stream specs instead of per-modality code.

  A tracker holds a shared native module handle and, per declared stream, a
  slot: the callback handler id returned by the native connect call, and the
  address of the boxed channel sender handed to the native side as user data.
  Stream `i` of the table is served by slot `i`.
 */
module Tracker {
  import opened Wrappers
  import opened Errors
  import opened World

  /** The two dispatcher shapes: a payload needing a fallible conversion, or a direct scalar. */
  datatype DispatcherKind = DataConversion | DirectItem

  datatype StreamSpec = StreamSpec(name: string, dispatcher: DispatcherKind)

  datatype Slot = Slot(handler: Option<nat>, sender: Option<nat>)

  datatype Tracker = Tracker(kind: ModuleKind, handle: nat, slots: seq<Slot>)

  /** The consumer half of a stream's channel, named by the box feeding it. */
  datatype Stream = Stream(channel: nat)

  predicate AllEmpty(slots: seq<Slot>) {
    forall k :: 0 <= k < |slots| ==> slots[k] == Slot(None, None)
  }

  /** The boxes the slots record. */
  function Senders(slots: seq<Slot>): set<nat> {
    set k | 0 <= k < |slots| && slots[k].sender.Some? :: slots[k].sender.value
  }

  /** No box is recorded by two slots. */
  predicate SendersDistinct(slots: seq<Slot>) {
    forall j, k :: 0 <= j < k < |slots| && slots[j].sender.Some? && slots[k].sender.Some? ==>
      slots[j].sender.value != slots[k].sender.value
  }

  /** `new_async`: the native factory call; every slot starts empty. */
  function NewAsync(w: World, kind: ModuleKind, streams: seq<StreamSpec>): (r: (World, NuitrackResult<Tracker>))
    ensures r.0 == w.(log := w.log + [Create(kind)])
    ensures r.1.Ok? <==> !Faulty(w)
    ensures r.1.Err? ==> r.1.error.ModuleCreationFailed?
    ensures r.1.Ok? ==> && r.1.value.kind == kind && r.1.value.handle == |w.log|
                        && |r.1.value.slots| == |streams| && AllEmpty(r.1.value.slots)
  {
    var (w1, reply) := Invoke(w, Create(kind));
    match reply
    case Threw(what) => (w1, Err(ModuleCreationFailed("FFI create: " + what)))
    case Returned => (w1, Ok(Tracker(kind, |w.log|, seq(|streams|, _ => Slot(None, None)))))
  }

  /** `Clone`: shares the module handle; no registration is copied. */
  function Clone(t: Tracker): (c: Tracker)
    ensures c.kind == t.kind && c.handle == t.handle
    ensures |c.slots| == |t.slots| && AllEmpty(c.slots) && Senders(c.slots) == {}
  {
    Tracker(t.kind, t.handle, seq(|t.slots|, _ => Slot(None, None)))
  }

  /**
    The generated per-stream method, as written: refuse an occupied slot;
    otherwise box a fresh sender, record it, call native connect, and store the
    handler id it returns. On a connect failure the receiver is dropped, the
    handler id stays empty, and the sender stays recorded.
   */
  function OpenStream(w: World, t: Tracker, i: nat): (r: (World, Tracker, NuitrackResult<Stream>))
    requires i < |t.slots|
    ensures |r.1.slots| == |t.slots|
    ensures t.slots[i].handler.Some? ==> r.0 == w && r.1 == t && r.2.Err? && r.2.error.OperationFailed?
    ensures t.slots[i].handler.None? ==>
      && r.0.log == w.log + [ConnectCallback(t.handle, i)]
      && r.0.live == w.live + {w.nextBox}
      && r.1 == t.(slots := t.slots[i := Slot(r.1.slots[i].handler, Some(w.nextBox))])
      && (r.2.Ok? <==> !Faulty(w))
      && (r.2.Ok? ==> r.1.slots[i].handler == Some(|w.log|) && r.2.value == Stream(w.nextBox))
      && (r.2.Ok? ==> w.nextBox in r.0.channels && r.0.channels[w.nextBox] == Channel([], true, true))
      && (r.2.Err? ==> r.2.error.OperationFailed? && r.1.slots[i].handler.None?)
    ensures r.0.asyncInit == w.asyncInit && r.0.doubleFrees == w.doubleFrees
  {
    if t.slots[i].handler.Some? then
      (w, t, Err(OperationFailed("Stream already initialized")))
    else
      var (w1, p) := Alloc(w);
      var recorded := t.(slots := t.slots[i := Slot(None, Some(p))]);
      var (w2, reply) := Invoke(w1, ConnectCallback(t.handle, i));
      match reply
      case Threw(what) =>
        (DropReceiver(w2, p), recorded, Err(OperationFailed("FFI connect call failed: " + what)))
      case Returned =>
        (w2, recorded.(slots := t.slots[i := Slot(Some(|w1.log|), Some(p))]), Ok(Stream(p)))
  }

  /**
    The per-stream method with the connect-failure path corrected: the sender
    box is reclaimed and the slot left empty, as the blocking hand tracker does.
   */
  function OpenStreamFixed(w: World, t: Tracker, i: nat): (r: (World, Tracker, NuitrackResult<Stream>))
    requires i < |t.slots|
    ensures t.slots[i].handler.Some? ==> r.0 == w && r.1 == t && r.2.Err? && r.2.error.OperationFailed?
    ensures t.slots[i].handler.None? ==>
      && r.0.log == w.log + [ConnectCallback(t.handle, i)]
      && (r.2.Ok? <==> !Faulty(w))
      && (r.2.Ok? ==> && r.0.live == w.live + {w.nextBox}
                      && r.1 == t.(slots := t.slots[i := Slot(Some(|w.log|), Some(w.nextBox))])
                      && r.2.value == Stream(w.nextBox))
      && (r.2.Err? ==> && r.2.error.OperationFailed? && r.1 == t.(slots := t.slots[i := Slot(None, None)])
                       && r.0.live == w.live + {w.nextBox} - {w.nextBox})
    ensures r.0.asyncInit == w.asyncInit && r.0.doubleFrees == w.doubleFrees
  {
    if t.slots[i].handler.Some? then
      (w, t, Err(OperationFailed("Stream already initialized")))
    else
      var (w1, p) := Alloc(w);
      var (w2, reply) := Invoke(w1, ConnectCallback(t.handle, i));
      match reply
      case Threw(what) =>
        (Reclaim(DropReceiver(w2, p), p), t.(slots := t.slots[i := Slot(None, None)]),
         Err(OperationFailed("FFI connect call failed: " + what)))
      case Returned =>
        (w2, t.(slots := t.slots[i := Slot(Some(|w1.log|), Some(p))]), Ok(Stream(p)))
  }

  /** Dropping a stream only drops its receiver: the generated stream has no `Drop` of its own. */
  function DropStream(w: World, s: Stream): World {
    DropReceiver(w, s.channel)
  }

  /** The disconnect calls a tracker's `Drop` makes: one per slot holding a handler id, in slot order. */
  function Disconnects(handle: nat, slots: seq<Slot>, base: nat): seq<Call>
    decreases |slots|
  {
    if |slots| == 0 then []
    else
      DisconnectOf(handle, slots[0], base) + Disconnects(handle, slots[1..], base + 1)
  }

  lemma SendersTail(slots: seq<Slot>)
    requires |slots| > 0
    ensures Senders(slots) == Senders(slots[1..]) + (if slots[0].sender.Some? then {slots[0].sender.value} else {})
  {
    var tail := slots[1..];
    forall a | a in Senders(slots)
      ensures a in Senders(tail) + (if slots[0].sender.Some? then {slots[0].sender.value} else {})
    {
      var k :| 0 <= k < |slots| && slots[k].sender.Some? && slots[k].sender.value == a;
      if k > 0 {
        assert tail[k - 1] == slots[k];
      }
    }
    forall a | a in Senders(tail)
      ensures a in Senders(slots)
    {
      var k :| 0 <= k < |tail| && tail[k].sender.Some? && tail[k].sender.value == a;
      assert slots[k + 1] == tail[k];
    }
  }

  /** The disconnect call of one slot, if it holds a handler id. */
  function DisconnectOf(handle: nat, s: Slot, idx: nat): seq<Call> {
    if s.handler.Some? then [DisconnectCallback(handle, idx, s.handler.value)] else []
  }

  /** The part of `Drop` for one slot: disconnect (errors only logged), then reclaim the sender. */
  function DropSlot(w: World, handle: nat, s: Slot, idx: nat): (r: World)
    ensures r.log == w.log + DisconnectOf(handle, s, idx)
    ensures r.live == w.live - (if s.sender.Some? then {s.sender.value} else {})
    ensures r.doubleFrees == w.doubleFrees + (if s.sender.Some? && s.sender.value !in w.live then 1 else 0)
    ensures SameSetting(w, r)
    ensures WellFormed(w) ==> WellFormed(r)
  {
    var w1 := if s.handler.Some? then Invoke(w, DisconnectCallback(handle, idx, s.handler.value)).0 else w;
    if s.sender.Some? then Reclaim(w1, s.sender.value) else w1
  }

  /** The slot-by-slot part of the tracker's `Drop`, from stream number `base` on. */
  function DropSlots(w: World, handle: nat, slots: seq<Slot>, base: nat): (r: World)
    ensures r.log == w.log + Disconnects(handle, slots, base)
    ensures r.live == w.live - Senders(slots)
    ensures Senders(slots) <= w.live && SendersDistinct(slots) ==> r.doubleFrees == w.doubleFrees
    ensures SameSetting(w, r)
    ensures WellFormed(w) ==> WellFormed(r)
    decreases |slots|
  {
    if |slots| == 0 then w
    else
      var w1 := DropSlot(w, handle, slots[0], base);
      SendersTail(slots);
      DistinctTail(slots);
      var r := DropSlots(w1, handle, slots[1..], base + 1);
      var head := DisconnectOf(handle, slots[0], base);
      var rest := Disconnects(handle, slots[1..], base + 1);
      LogThen(w.log, w1.log, r.log, head, rest);
      r
  }

  lemma DistinctTail(slots: seq<Slot>)
    requires |slots| > 0
    ensures SendersDistinct(slots) ==> SendersDistinct(slots[1..])
    ensures SendersDistinct(slots) && slots[0].sender.Some? ==> slots[0].sender.value !in Senders(slots[1..])
  {
    var tail := slots[1..];
    forall a | a in Senders(tail)
      ensures exists k :: 1 <= k < |slots| && slots[k].sender.Some? && slots[k].sender.value == a
    {
      var k :| 0 <= k < |tail| && tail[k].sender.Some? && tail[k].sender.value == a;
      assert slots[k + 1] == tail[k];
    }
  }

  /**
    The tracker's `Drop`: one disconnect per slot holding a handler id (errors
    only logged) and one reclaim per recorded sender.
   */
  function DropTracker(w: World, t: Tracker): (r: World)
    ensures r.log == w.log + Disconnects(t.handle, t.slots, 0)
    ensures r.live == w.live - Senders(t.slots)
    ensures Senders(t.slots) <= w.live && SendersDistinct(t.slots) ==> r.doubleFrees == w.doubleFrees
    ensures SameSetting(w, r)
    ensures WellFormed(w) ==> WellFormed(r)
  {
    DropSlots(w, t.handle, t.slots, 0)
  }

  /** A tracker whose slots are all empty is dropped without any native call or free. */
  lemma DropEmptyTracker(w: World, t: Tracker)
    requires AllEmpty(t.slots)
    ensures DropTracker(w, t) == w
  {
    EmptyDropSlots(w, t.handle, t.slots, 0);
  }

  lemma {:induction false} EmptyDropSlots(w: World, handle: nat, slots: seq<Slot>, base: nat)
    requires AllEmpty(slots)
    ensures DropSlots(w, handle, slots, base) == w
    decreases |slots|
  {
    if |slots| > 0 {
      assert slots[0] == Slot(None, None);
      EmptyDropSlots(w, handle, slots[1..], base + 1);
    }
  }

  /** Whether the channel fed by box `a` still has a receiver. */
  predicate ReceiverAlive(w: World, a: nat) {
    a in w.channels && w.channels[a].receiverAlive
  }

  /**
    `r` is `w` with `item` queued at the back of channel `a` and nothing else
    changed: no native call, no box, no other channel, and both ends of `a`
    as they were.
   */
  predicate Appended(w: World, r: World, a: nat, item: NuitrackResult<Value>) {
    && r.log == w.log && r.live == w.live && r.nextBox == w.nextBox && r.doubleFrees == w.doubleFrees
    && SameSetting(w, r) && r.channels.Keys == w.channels.Keys
    && (forall k :: k in w.channels && k != a ==> r.channels[k] == w.channels[k])
    && a in w.channels
    && r.channels[a].items == w.channels[a].items + [item]
    && r.channels[a].receiverAlive == w.channels[a].receiverAlive
    && r.channels[a].senderAlive == w.channels[a].senderAlive
  }

  /** `unbounded_send`: appends to the channel, or silently does nothing once the receiver is gone. */
  function Send(w: World, a: nat, item: NuitrackResult<Value>): (r: World)
    ensures ReceiverAlive(w, a) ==> Appended(w, r, a, item)
    ensures !ReceiverAlive(w, a) ==> r == w
  {
    if ReceiverAlive(w, a) then w.(channels := w.channels[a := w.channels[a].(items := w.channels[a].items + [item])]) else w
  }

  /** The item a conversion dispatcher sends for a conversion result. */
  function Converted(converted: Option<Value>): (item: NuitrackResult<Value>)
    ensures item.Ok? <==> converted.Some?
    ensures item.Ok? ==> item.value == converted.value
    ensures item.Err? ==> item.error.OperationFailed?
  {
    match converted
    case Some(x) => Ok(x)
    case None => Err(OperationFailed("FFI data was null or invalid"))
  }

  /**
    The `FFIDataConversion` dispatcher: with a null user-data pointer nothing is
    sent; otherwise exactly one item, `Ok` of the conversion or
    `Err(OperationFailed)` when it gives nothing.
   */
  function ConversionDispatch(w: World, userData: Option<nat>, converted: Option<Value>): (r: World)
    ensures userData.None? || !ReceiverAlive(w, userData.value) ==> r == w
    ensures userData.Some? && ReceiverAlive(w, userData.value) ==> Appended(w, r, userData.value, Converted(converted))
  {
    match userData
    case None => w
    case Some(a) => Send(w, a, Converted(converted))
  }

  /** The `DirectItem` dispatcher: sends exactly `Ok(item)`, or nothing for a null pointer. */
  function DirectDispatch(w: World, userData: Option<nat>, item: Value): (r: World)
    ensures userData.None? || !ReceiverAlive(w, userData.value) ==> r == w
    ensures userData.Some? && ReceiverAlive(w, userData.value) ==> Appended(w, r, userData.value, Ok(item))
  {
    match userData
    case None => w
    case Some(a) => Send(w, a, Ok(item))
  }

  /** The native side firing a conversion callback once per payload, in order. */
  function ConversionCallbacks(w: World, userData: Option<nat>, payloads: seq<Option<Value>>): World
    decreases |payloads|
  {
    if |payloads| == 0 then w
    else ConversionCallbacks(ConversionDispatch(w, userData, payloads[0]), userData, payloads[1..])
  }

  /** The native side firing a direct-item callback once per item, in order. */
  function DirectCallbacks(w: World, userData: Option<nat>, items: seq<Value>): World
    decreases |items|
  {
    if |items| == 0 then w
    else DirectCallbacks(DirectDispatch(w, userData, items[0]), userData, items[1..])
  }

  /**
    Order preservation: while the receiver lives, the stream receives exactly
    one item per callback, in callback order, with nothing lost or duplicated.
   */
  lemma {:induction false} ConversionFifo(w: World, a: nat, payloads: seq<Option<Value>>)
    requires ReceiverAlive(w, a)
    ensures var r := ConversionCallbacks(w, Some(a), payloads);
            && ReceiverAlive(r, a)
            && r.channels[a].items == w.channels[a].items + seq(|payloads|, k requires 0 <= k < |payloads| => Converted(payloads[k]))
            && r.log == w.log && r.live == w.live
    decreases |payloads|
  {
    if |payloads| > 0 {
      var w1 := ConversionDispatch(w, Some(a), payloads[0]);
      ConversionFifo(w1, a, payloads[1..]);
      var tail := seq(|payloads| - 1, k requires 0 <= k < |payloads| - 1 => Converted(payloads[1..][k]));
      assert seq(|payloads|, k requires 0 <= k < |payloads| => Converted(payloads[k])) == [Converted(payloads[0])] + tail;
    }
  }

  /** A direct-item stream receives `Ok` of every event, in order; it never carries an `Err`. */
  lemma {:induction false} DirectFifo(w: World, a: nat, items: seq<Value>)
    requires ReceiverAlive(w, a)
    ensures var r := DirectCallbacks(w, Some(a), items);
            && ReceiverAlive(r, a)
            && r.channels[a].items == w.channels[a].items + seq(|items|, k requires 0 <= k < |items| => Ok(items[k]))
            && r.log == w.log && r.live == w.live
    decreases |items|
  {
    if |items| > 0 {
      var w1 := DirectDispatch(w, Some(a), items[0]);
      DirectFifo(w1, a, items[1..]);
      var tail: seq<NuitrackResult<Value>> := seq(|items| - 1, k requires 0 <= k < |items| - 1 => Ok(items[1..][k]));
      assert seq(|items|, k requires 0 <= k < |items| => Ok(items[k])) == [Ok(items[0])] + tail;
    }
  }

  /** Once the receiver is gone, callbacks change nothing: sends to a closed channel are ignored. */
  lemma {:induction false} ClosedStreamIgnoresCallbacks(w: World, a: nat, payloads: seq<Option<Value>>)
    requires !ReceiverAlive(w, a)
    ensures ConversionCallbacks(w, Some(a), payloads) == w
    decreases |payloads|
  {
    if |payloads| > 0 {
      ClosedStreamIgnoresCallbacks(w, a, payloads[1..]);
    }
  }

  /**
    The slot stays occupied after its stream is dropped, so opening the same
    stream again is refused until the tracker itself is dropped.
   */
  lemma ReopenAfterStreamDropRefused(w: World, t: Tracker, i: nat)
    requires i < |t.slots| && t.slots[i].handler.None? && !Faulty(w)
    ensures var (w1, t1, s) := OpenStream(w, t, i);
            && s.Ok?
            && var w2 := DropStream(w1, s.value);
               var (w3, t3, s2) := OpenStream(w2, t1, i);
               s2.Err? && s2.error.OperationFailed? && w3.log == w1.log
  {
  }

  /** A world holding this one tracker: each live box is recorded by exactly one of its slots. */
  predicate Accounted(w: World, t: Tracker) {
    w.live == Senders(t.slots) && SendersDistinct(t.slots)
  }

  /** In the corrected bridge a slot records a sender exactly when it holds a handler id. */
  predicate Paired(t: Tracker) {
    forall k :: 0 <= k < |t.slots| ==> (t.slots[k].handler.Some? <==> t.slots[k].sender.Some?)
  }

  lemma SendersUpdate(slots: seq<Slot>, i: nat, s: Slot)
    requires i < |slots| && slots[i].sender.None?
    ensures Senders(slots[i := s]) == Senders(slots) + (if s.sender.Some? then {s.sender.value} else {})
  {
    var u := slots[i := s];
    forall a | a in Senders(u)
      ensures a in Senders(slots) + (if s.sender.Some? then {s.sender.value} else {})
    {
      var k :| 0 <= k < |u| && u[k].sender.Some? && u[k].sender.value == a;
      if k != i {
        assert slots[k] == u[k];
      }
    }
    forall a | a in Senders(slots)
      ensures a in Senders(u)
    {
      var k :| 0 <= k < |slots| && slots[k].sender.Some? && slots[k].sender.value == a;
      assert k != i;
      assert u[k] == slots[k];
    }
    if s.sender.Some? {
      assert u[i] == s;
    }
  }

  /**
    Finding, as written: retrying a stream after a failed connect overwrites the
    recorded sender, so the first box stays allocated with nothing recording it
    and is never reclaimed, not even by the tracker's `Drop`.
   */
  lemma OpenStreamRetryLeaks(w: World, t: Tracker, i: nat)
    requires WellFormed(w) && Accounted(w, t)
    requires i < |t.slots| && t.slots[i] == Slot(None, None) && Faulty(w)
    ensures var (w1, t1, r1) := OpenStream(w, t, i);
            var (w2, t2, r2) := OpenStream(w1, t1, i);
            && r1.Err?
            && w.nextBox in DropTracker(w2, t2).live
            && !Accounted(w2, t2)
  {
    var (w1, t1, r1) := OpenStream(w, t, i);
    var p := w.nextBox;
    assert p !in Senders(t.slots);
    var (w2, t2, r2) := OpenStream(w1, t1, i);
    var q := w1.nextBox;
    assert q == p + 1;
    assert t2.slots == t.slots[i := Slot(t2.slots[i].handler, Some(q))];
    SendersUpdate(t.slots, i, Slot(t2.slots[i].handler, Some(q)));
    assert Senders(t2.slots) == Senders(t.slots) + {q};
    assert p in w2.live;
    assert p !in Senders(t2.slots);
  }

  /**
    Corrected: opening a stream keeps every live box recorded by exactly one
    slot, whether connect succeeds or fails.
   */
  lemma OpenStreamFixedAccounted(w: World, t: Tracker, i: nat)
    requires WellFormed(w) && Accounted(w, t) && Paired(t) && i < |t.slots|
    ensures var (w1, t1, r) := OpenStreamFixed(w, t, i);
            WellFormed(w1) && Accounted(w1, t1) && Paired(t1)
  {
    var (w1, t1, r) := OpenStreamFixed(w, t, i);
    if t.slots[i].handler.None? {
      var p := w.nextBox;
      assert p !in Senders(t.slots);
      if r.Ok? {
        SendersUpdate(t.slots, i, Slot(Some(|w.log|), Some(p)));
        forall j, k | 0 <= j < k < |t1.slots| && t1.slots[j].sender.Some? && t1.slots[k].sender.Some?
          ensures t1.slots[j].sender.value != t1.slots[k].sender.value
        {
          if j == i {
            assert t1.slots[k] == t.slots[k];
            assert t.slots[k].sender.value in Senders(t.slots);
          } else if k == i {
            assert t1.slots[j] == t.slots[j];
            assert t.slots[j].sender.value in Senders(t.slots);
          } else {
            assert t1.slots[j] == t.slots[j] && t1.slots[k] == t.slots[k];
          }
        }
      } else {
        SendersUpdate(t.slots, i, Slot(None, None));
        assert t1.slots == t.slots;
      }
    }
  }

  /** Corrected bridge: dropping the tracker frees every box exactly once and leaves none behind. */
  lemma DropAccountedFreesAll(w: World, t: Tracker)
    requires Accounted(w, t)
    ensures DropTracker(w, t).live == {}
    ensures DropTracker(w, t).doubleFrees == w.doubleFrees
  {
  }
}
