/**
  `AsyncUserTracker`: the generated tracker instantiated with three streams
  (user frames by conversion, new-user and lost-user ids directly), plus its
  synchronous accessors, each one native query mapped to `OperationFailed`.
 */
module UserTracker {
  import opened Wrappers
  import opened Errors
  import opened World
  import opened Tracker

  const UserStreams: seq<StreamSpec> := [
    StreamSpec("user_frame", DataConversion),
    StreamSpec("new_user_event", DirectItem),
    StreamSpec("lost_user_event", DirectItem)
  ]

  const UserFrameSlot: nat := 0
  const NewUserSlot: nat := 1
  const LostUserSlot: nat := 2

  predicate IsUserTracker(t: Tracker) {
    t.kind == UserModule && |t.slots| == |UserStreams|
  }

  /** `AsyncUserTracker::new_async`. */
  function NewUserTracker(w: World): (r: (World, NuitrackResult<Tracker>))
    ensures r.0.log == w.log + [Create(UserModule)]
    ensures r.1.Ok? <==> !Faulty(w)
    ensures r.1.Ok? ==> IsUserTracker(r.1.value) && AllEmpty(r.1.value.slots)
    ensures r.1.Err? ==> r.1.error.ModuleCreationFailed?
  {
    NewAsync(w, UserModule, UserStreams)
  }

  /**
    The user-frame conversion: `UserFrame::new` gives nothing for a null
    pointer. The SDK's pointer is `frame`, `None` standing for null.
   */
  function ConvertUserFrame(frame: Option<nat>): (v: Option<Value>)
    ensures v.Some? <==> frame.Some?
    ensures v.Some? ==> v.value == UserFrame(frame.value)
  {
    match frame
    case Some(f) => Some(UserFrame(f))
    case None => None
  }

  /**
    `latest_user_frame_sync`: one native query; a throw and a null frame are
    both `OperationFailed`.
   */
  function LatestUserFrameSync(w: World, t: Tracker, frame: Option<nat>): (r: (World, NuitrackResult<Value>))
    ensures r.0 == w.(log := w.log + [Query(t.handle, LatestFrame)])
    ensures r.1.Ok? <==> !Faulty(w) && frame.Some?
    ensures r.1.Ok? ==> r.1.value == UserFrame(frame.value)
    ensures r.1.Err? ==> r.1.error.OperationFailed?
  {
    var (w1, reply) := Invoke(w, Query(t.handle, LatestFrame));
    match reply
    case Threw(what) => (w1, Err(OperationFailed("Failed to get user frame synchronously: " + what)))
    case Returned =>
      match ConvertUserFrame(frame)
      case Some(v) => (w1, Ok(v))
      case None => (w1, Err(OperationFailed("Received null UserFrame from get_user_frame_sync")))
  }

  /**
    `processing_time`, `tracker_timestamp` and `can_update`: the value the SDK
    returns (`returned`), or `OperationFailed` when the query throws.
   */
  function QueryAccessor<T>(w: World, t: Tracker, accessor: Accessor, returned: T): (r: (World, NuitrackResult<T>))
    ensures r.0 == w.(log := w.log + [Query(t.handle, accessor)])
    ensures r.1.Ok? <==> !Faulty(w)
    ensures r.1.Ok? ==> r.1.value == returned
    ensures r.1.Err? ==> r.1.error.OperationFailed?
  {
    var (w1, reply) := Invoke(w, Query(t.handle, accessor));
    match reply
    case Threw(what) => (w1, Err(OperationFailed("Failed to query the user tracker: " + what)))
    case Returned => (w1, Ok(returned))
  }

  function AsUserIds(ids: seq<int>): (vs: seq<Value>)
    ensures |vs| == |ids|
    ensures forall k :: 0 <= k < |ids| ==> vs[k] == UserId(ids[k])
  {
    seq(|ids|, k requires 0 <= k < |ids| => UserId(ids[k]))
  }

  /**
    End to end: a fresh user tracker whose new-user stream opens receives, for
    a run of new-user events, exactly `Ok` of each id in event order.
   */
  lemma NewUserEventsDelivered(w: World, ids: seq<int>)
    requires WellFormed(w) && !Faulty(w) && !FaultAt(w, |w.log| + 1)
    ensures var (w1, t) := NewUserTracker(w);
            && t.Ok?
            && var (w2, t2, s) := OpenStream(w1, t.value, NewUserSlot);
               && s.Ok?
               && var w3 := DirectCallbacks(w2, t2.slots[NewUserSlot].sender, AsUserIds(ids));
                  && ReceiverAlive(w3, s.value.channel)
                  && |w3.channels[s.value.channel].items| == |ids|
                  && forall k :: 0 <= k < |ids| ==> w3.channels[s.value.channel].items[k] == Ok(UserId(ids[k]))
  {
    var (w1, t) := NewUserTracker(w);
    var (w2, t2, s) := OpenStream(w1, t.value, NewUserSlot);
    var a := s.value.channel;
    assert ReceiverAlive(w2, a);
    DirectFifo(w2, a, AsUserIds(ids));
  }

  /** A null frame pointer from the SDK reaches the user-frame stream as `Err(OperationFailed)`, never as a frame. */
  lemma NullUserFrameIsError(w: World, a: nat)
    requires ReceiverAlive(w, a)
    ensures var r := ConversionDispatch(w, Some(a), ConvertUserFrame(None));
            var items := r.channels[a].items;
            |items| == |w.channels[a].items| + 1 && items[|items| - 1].Err? && items[|items| - 1].error.OperationFailed?
  {
  }
}
