/**
  The state of the process around the native SDK, as seen by the wrapper:

  - the two process-wide "initialized" flags (the async runtime guard's and the
    blocking API's, which are separate statics),
  - whether the global API mutex is poisoned,
  - the devices the SDK would enumerate,
  - the native call oracle: native call number `k` (counting from 0 over the
    whole log) throws with message `faults[k]` when `k` is a key of `faults`,
    and returns normally otherwise,
  - the log of native calls made so far (plus two markers for the update
    loop's cancellation and join, which are not native calls),
  - the boxes the wrapper leaked to the native side with `Box::into_raw`
    (live addresses, next address, and a count of reclaims of a box that
    was not live, i.e. double frees),
  - the channel (or callback record) each box feeds, keyed by box address.

  Values the SDK hands back (a module handle, a callback handler id) are
  modelled as the position of the call that returned them in the log, so they
  are fresh by construction.
 */
module World {
  import opened Wrappers
  import opened Errors

  /** Native module factories; one per tracker kind the core creates. */
  datatype ModuleKind = HandModule | SkeletonModule | UserModule

  /** The synchronous accessors of a tracker module. */
  datatype Accessor = LatestFrame | ProcessingTime | TrackerTimestamp | CanUpdate

  datatype Call =
    | Init(configPath: string)
    | Release
    | Run
    | Update
    | WaitUpdate(handle: nat)
    | GetDevices
    | SetDevice(device: nat)
    | Create(kind: ModuleKind)
    | ConnectCallback(handle: nat, stream: nat)
    | DisconnectCallback(handle: nat, stream: nat, handler: nat)
    | Query(handle: nat, accessor: Accessor)
    | ConnectBlocking(handle: nat)
    | DisconnectBlocking(handle: nat, handler: nat)
      // Markers, not native calls: the update loop's token was cancelled / its task joined.
    | CancelLoop
    | JoinLoop

  /** A device as the SDK enumerates it; a `None` field is a getter that throws. */
  datatype NativeDevice = NativeDevice(
    handle: nat,
    name: Option<string>,
    serial: Option<string>,
    provider: Option<string>)

  /** What a stream yields, or what a blocking callback is handed. */
  datatype Value = UserFrame(frame: nat) | UserId(id: int) | HandFrame(frame: nat)

  /**
    An unbounded channel (for the async trackers) or a callback's record of its
    invocations (for the blocking tracker): the items in delivery order, and
    whether each end is still alive.
   */
  datatype Channel = Channel(items: seq<NuitrackResult<Value>>, receiverAlive: bool, senderAlive: bool)

  datatype World = World(
    asyncInit: bool,
    blockingInit: bool,
    lockPoisoned: bool,
    devices: seq<NativeDevice>,
    faults: map<nat, string>,
    log: seq<Call>,
    live: set<nat>,
    nextBox: nat,
    doubleFrees: nat,
    channels: map<nat, Channel>)

  datatype Reply = Returned | Threw(what: string)

  /** True when the next native call will throw. */
  predicate Faulty(w: World) {
    |w.log| in w.faults
  }

  /** True when native call number `k` throws. */
  predicate FaultAt(w: World, k: nat) {
    k in w.faults
  }

  /** Makes a native call: logs it and consults the oracle. */
  function Invoke(w: World, c: Call): (r: (World, Reply))
    ensures r.0 == w.(log := w.log + [c])
    ensures r.1.Threw? <==> Faulty(w)
    ensures r.1.Threw? ==> r.1.what == w.faults[|w.log|]
  {
    var reply := if Faulty(w) then Threw(w.faults[|w.log|]) else Returned;
    (w.(log := w.log + [c]), reply)
  }

  /** Records a marker in the log (no oracle involved). */
  function Mark(w: World, c: Call): (r: World)
    ensures r == w.(log := w.log + [c])
  {
    w.(log := w.log + [c])
  }

  /** Two log extensions in a row extend the log by their concatenation. */
  lemma LogThen(log: seq<Call>, log1: seq<Call>, log2: seq<Call>, first: seq<Call>, second: seq<Call>)
    requires log1 == log + first && log2 == log1 + second
    ensures log2 == log + (first + second)
  {
  }

  /** `r` differs from `w` at most in the log, the boxes and the channels. */
  predicate SameSetting(w: World, r: World) {
    && r.asyncInit == w.asyncInit && r.blockingInit == w.blockingInit && r.lockPoisoned == w.lockPoisoned
    && r.faults == w.faults && r.devices == w.devices
  }

  /** Every live box has an address below `nextBox` and a channel. */
  predicate WellFormed(w: World) {
    forall a :: a in w.live ==> a < w.nextBox && a in w.channels
  }

  /** `Box::into_raw(Box::new(tx))` together with a fresh, empty, open channel. */
  function Alloc(w: World): (r: (World, nat))
    ensures r.1 == w.nextBox && r.1 in r.0.live && r.0.live == w.live + {r.1}
    ensures WellFormed(w) ==> r.1 !in w.live && WellFormed(r.0)
    ensures r.0.channels == w.channels[r.1 := Channel([], true, true)]
    ensures r.0.log == w.log && r.0.doubleFrees == w.doubleFrees
    ensures r.0.asyncInit == w.asyncInit && r.0.blockingInit == w.blockingInit
  {
    var a := w.nextBox;
    (w.(live := w.live + {a}, nextBox := a + 1, channels := w.channels[a := Channel([], true, true)]), a)
  }

  /**
    `drop(Box::from_raw(p))`: frees a live box and drops the sender it holds;
    reclaiming a box that is not live is a double free and is counted.
   */
  function Reclaim(w: World, a: nat): (r: World)
    ensures r.live == w.live - {a} && r.log == w.log
    ensures r.doubleFrees == w.doubleFrees + (if a in w.live then 0 else 1)
    ensures r.asyncInit == w.asyncInit && r.blockingInit == w.blockingInit
    ensures WellFormed(w) ==> WellFormed(r)
  {
    if a in w.live then
      var chans := if a in w.channels then w.channels[a := w.channels[a].(senderAlive := false)] else w.channels;
      w.(live := w.live - {a}, channels := chans)
    else
      w.(doubleFrees := w.doubleFrees + 1)
  }

  /** Dropping the receiving end of the channel fed by box `a`. */
  function DropReceiver(w: World, a: nat): (r: World)
    ensures r.live == w.live && r.log == w.log && r.doubleFrees == w.doubleFrees
    ensures r.asyncInit == w.asyncInit && r.blockingInit == w.blockingInit
    ensures a in r.channels ==> !r.channels[a].receiverAlive
    ensures WellFormed(w) ==> WellFormed(r)
  {
    if a in w.channels then w.(channels := w.channels[a := w.channels[a].(receiverAlive := false)]) else w
  }

  /** Number of occurrences of call `c` in a log. */
  function Occurrences(log: seq<Call>, c: Call): nat {
    if |log| == 0 then 0 else (if log[0] == c then 1 else 0) + Occurrences(log[1..], c)
  }

  lemma {:induction false} OccurrencesAppend(a: seq<Call>, b: seq<Call>, c: Call)
    ensures Occurrences(a + b, c) == Occurrences(a, c) + Occurrences(b, c)
  {
    if |a| == 0 {
      assert a + b == b;
    } else {
      assert (a + b)[1..] == a[1..] + b;
      OccurrencesAppend(a[1..], b, c);
    }
  }

  /** A log segment without `c` contributes no occurrence of it. */
  lemma {:induction false} OccurrencesAbsent(log: seq<Call>, c: Call)
    requires forall i :: 0 <= i < |log| ==> log[i] != c
    ensures Occurrences(log, c) == 0
  {
    if |log| > 0 {
      assert forall i :: 0 <= i < |log[1..]| ==> log[1..][i] == log[i + 1];
      OccurrencesAbsent(log[1..], c);
    }
  }
}
