/**
  `NuitrackRuntimeGuard` of the async API: a zero-sized token whose existence
  stands for "this process initialized the SDK". The process-wide flag is won
  with a compare-and-swap and given up with a swap; both are single atomic
  steps here.
 */
module RuntimeGuard {
  import opened Wrappers
  import opened Errors
  import opened World

  datatype Guard = Guard

  /**
    `acquire`: win the flag, then (under the global lock) call native `init`.
    Losing the race makes no native call; any failure after winning gives the
    flag back.
   */
  function Acquire(w: World, configPath: string): (r: (World, NuitrackResult<Guard>))
    ensures w.asyncInit ==> r == (w, Err(AlreadyInitialized))
    ensures !w.asyncInit ==> (r.1.Ok? <==> !w.lockPoisoned && !Faulty(w))
    ensures !w.asyncInit ==> r.0.log == w.log + (if w.lockPoisoned then [] else [Init(configPath)])
    ensures !w.asyncInit ==> (r.0.asyncInit <==> r.1.Ok?)
    ensures !w.asyncInit && r.1.Err? ==> (r.1.error.InitFailed? <==> !w.lockPoisoned)
    ensures !w.asyncInit && r.1.Err? ==> (r.1.error.OperationFailed? <==> w.lockPoisoned)
    ensures r.0 == w.(asyncInit := r.0.asyncInit, log := r.0.log)
  {
    if w.asyncInit then (w, Err(AlreadyInitialized))
    else
      var won := w.(asyncInit := true);
      if won.lockPoisoned then
        (won.(asyncInit := false), Err(OperationFailed("NUITRACK_GLOBAL_API_LOCK poisoned during init attempt")))
      else
        var (w1, reply) := Invoke(won, Init(configPath));
        match reply
        case Threw(what) => (w1.(asyncInit := false), Err(InitFailed("FFI init_nuitrack: " + what)))
        case Returned => (w1, Ok(Guard))
  }

  /**
    `release_async`: swap the flag to false; only the caller that saw `true`
    calls native `release`, so a second call is an `Ok` no-op.
   */
  function ReleaseAsync(w: World): (r: (World, NuitrackResult<Unit>))
    ensures !w.asyncInit ==> r == (w, Ok(Unit))
    ensures !r.0.asyncInit
    ensures w.asyncInit ==> r.0.log == w.log + (if w.lockPoisoned then [] else [Release])
    ensures w.asyncInit ==> (r.1.Ok? <==> !w.lockPoisoned && !Faulty(w))
    ensures r.1.Err? ==> r.1.error.OperationFailed?
    ensures r.0 == w.(asyncInit := false, log := r.0.log)
  {
    if w.asyncInit then
      var w0 := w.(asyncInit := false);
      if w0.lockPoisoned then
        (w0, Err(OperationFailed("NUITRACK_GLOBAL_API_LOCK poisoned during release")))
      else
        var (w1, reply) := Invoke(w0, Release);
        match reply
        case Threw(what) => (w1, Err(OperationFailed("FFI Nuitrack::release: " + what)))
        case Returned => (w1, Ok(Unit))
    else
      (w, Ok(Unit))
  }

  /** `try_lock` on the global mutex succeeds: it is neither held elsewhere nor poisoned. */
  predicate TryLockSucceeds(w: World, lockFree: bool) {
    lockFree && !w.lockPoisoned
  }

  /**
    The guard's `Drop`: best effort. With the lock, a set flag is cleared and
    native `release` is called (its error is only logged); without the lock
    nothing is called and the flag is left as it is.
   */
  function DropGuard(w: World, lockFree: bool): (r: World)
    ensures TryLockSucceeds(w, lockFree) && w.asyncInit ==> r == w.(asyncInit := false, log := w.log + [Release])
    ensures !TryLockSucceeds(w, lockFree) || !w.asyncInit ==> r == w
  {
    if TryLockSucceeds(w, lockFree) && w.asyncInit then
      Invoke(w.(asyncInit := false), Release).0
    else
      w
  }

  /** Several `acquire` calls, one after the other, none of them released. */
  function AcquireAll(w: World, paths: seq<string>): (r: (World, seq<NuitrackResult<Guard>>))
    ensures |r.1| == |paths|
    decreases |paths|
  {
    if |paths| == 0 then (w, [])
    else
      var (w1, r) := Acquire(w, paths[0]);
      var (w2, rs) := AcquireAll(w1, paths[1..]);
      (w2, [r] + rs)
  }

  function CountOk(rs: seq<NuitrackResult<Guard>>): nat {
    if |rs| == 0 then 0 else (if rs[0].Ok? then 1 else 0) + CountOk(rs[1..])
  }

  /** While the flag is set, every `acquire` fails with `AlreadyInitialized` and changes nothing. */
  lemma {:induction false} AcquireAllWhileHeld(w: World, paths: seq<string>)
    requires w.asyncInit
    ensures AcquireAll(w, paths).0 == w
    ensures forall i :: 0 <= i < |paths| ==> AcquireAll(w, paths).1[i] == Err(AlreadyInitialized)
    decreases |paths|
  {
    if |paths| > 0 {
      AcquireAllWhileHeld(w, paths[1..]);
    }
  }

  /**
    Single winner: however many `acquire` calls run (the compare-and-swap makes
    them a sequence), at most one succeeds, and none does while the flag is
    already held.
   */
  lemma {:induction false} AtMostOneWinner(w: World, paths: seq<string>)
    ensures CountOk(AcquireAll(w, paths).1) <= 1
    ensures w.asyncInit ==> CountOk(AcquireAll(w, paths).1) == 0
    decreases |paths|
  {
    if |paths| > 0 {
      var (w1, r) := Acquire(w, paths[0]);
      var rs := AcquireAll(w1, paths[1..]).1;
      assert AcquireAll(w, paths).1 == [r] + rs;
      assert ([r] + rs)[1..] == rs;
      if r.Ok? {
        AcquireAllWhileHeld(w1, paths[1..]);
        ZeroOk(rs);
      } else {
        AtMostOneWinner(w1, paths[1..]);
      }
    }
  }

  lemma {:induction false} ZeroOk(rs: seq<NuitrackResult<Guard>>)
    requires forall i :: 0 <= i < |rs| ==> rs[i] == Err(AlreadyInitialized)
    ensures CountOk(rs) == 0
  {
    if |rs| > 0 {
      ZeroOk(rs[1..]);
    }
  }

  /**
    With the flag clear, the lock healthy and native `init` succeeding, the
    first caller wins and every later one gets `AlreadyInitialized`.
   */
  lemma ExactlyOneWinner(w: World, paths: seq<string>)
    requires !w.asyncInit && !w.lockPoisoned && !Faulty(w) && |paths| > 0
    ensures AcquireAll(w, paths).1[0].Ok?
    ensures forall i :: 1 <= i < |paths| ==> AcquireAll(w, paths).1[i] == Err(AlreadyInitialized)
  {
    var (w1, r) := Acquire(w, paths[0]);
    AcquireAllWhileHeld(w1, paths[1..]);
  }

  /**
    A full cycle: after a successful `acquire`, an explicit release, a second
    release and the guard's drop together call native `release` exactly once,
    and the flag ends clear so that a new `acquire` can win.
   */
  lemma {:induction false} ReleaseOnceThenDrop(w: World, path: string, lockFree: bool)
    requires !w.asyncInit && !w.lockPoisoned && !Faulty(w)
    ensures var (w1, g) := Acquire(w, path);
            var (w2, r2) := ReleaseAsync(w1);
            var (w3, r3) := ReleaseAsync(w2);
            var w4 := DropGuard(w3, lockFree);
            && g.Ok? && r3 == Ok(Unit) && !w4.asyncInit
            && Occurrences(w4.log[|w.log|..], Release) == 1
  {
    var (w1, g) := Acquire(w, path);
    var (w2, r2) := ReleaseAsync(w1);
    var (w3, r3) := ReleaseAsync(w2);
    var w4 := DropGuard(w3, lockFree);
    assert w4.log == w.log + [Init(path), Release];
    assert w4.log[|w.log|..] == [Init(path)] + [Release];
    OccurrencesAppend([Init(path)], [Release], Release);
  }
}
