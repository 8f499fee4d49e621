/** The change worker as interleaved steps of its queuers, its goroutine, Start, Stop and the
    cancellation of its context. The read/write lock, the bounded channel and both `close` calls are
    explicit, and every operation Go would panic on is a step that records the panic. */
module ChangeWorker {
  const CAPACITY := 100

  datatype Chan = NilChan | OpenChan | ClosedChan

  /** A call to QueuePeerChange or QueueGroupChange; the call's number is its work item. */
  datatype Queuer = Waiting | Locked | MaySend | MustSync | Queued | Synced

  /** The single effective call of Start and of Stop (both are under a sync.Once). */
  datatype Caller = NotCalled | WantsLock | HasLock | Spawning | Returned

  datatype Worker = NotSpawned | Selecting | Draining | Busy(item: nat, draining: bool) | Leaving | Gone

  datatype Holder = Nobody | StartHolds | StopHolds

  datatype State = State(
    writer: Holder, readers: set<nat>,
    stopped: bool, started: bool, canceled: bool,
    chan: Chan, buffer: seq<nat>, doneCloses: nat,
    worker: Worker, start: Caller, stop: Caller, queuers: map<nat, Queuer>,
    panicked: bool,
    // history: items sent, finished by the worker, finished by their callers, sent too late
    accepted: seq<nat>, processed: seq<nat>, synced: seq<nat>, late: seq<nat>)

  datatype Event =
    | Arrive(q: nat) | LockShared(q: nat) | Check(q: nat) | Send(q: nat) | RunSync(q: nat)
    | StartCall | StartLock | StartBody | Spawn
    | StopCall | StopLock | StopBody
    | Cancel
    | Receive | SeeClosed | SeeCancel | DrainReceive | DrainStop | Finish | CloseDone

  /** A constructed worker, or a zero value whose channels Start creates. */
  predicate Initial(s: State) {
    && s.writer == Nobody && s.readers == {} && !s.stopped && !s.started && !s.canceled
    && s.chan != ClosedChan && s.buffer == [] && s.doneCloses == 0
    && s.worker == NotSpawned && s.start == NotCalled && s.stop == NotCalled && s.queuers == map[]
    && !s.panicked && s.accepted == [] && s.processed == [] && s.synced == [] && s.late == []
  }

  predicate At(s: State, q: nat, pc: Queuer) { q in s.queuers && s.queuers[q] == pc }

  predicate Enabled(s: State, e: Event) {
    match e
    case Arrive(q) => q !in s.queuers
    case LockShared(q) => At(s, q, Waiting) && s.writer == Nobody
    case Check(q) => At(s, q, Locked)
    case Send(q) => At(s, q, MaySend)
    case RunSync(q) => At(s, q, MustSync)
    case StartCall => s.start == NotCalled
    case StartLock => s.start == WantsLock && s.writer == Nobody && s.readers == {}
    case StartBody => s.start == HasLock
    case Spawn => s.start == Spawning
    case StopCall => s.stop == NotCalled
    case StopLock => s.stop == WantsLock && s.writer == Nobody && s.readers == {}
    case StopBody => s.stop == HasLock
    case Cancel => true
    case Receive => s.worker == Selecting && s.buffer != []
    case SeeClosed => s.worker == Selecting && s.buffer == [] && s.chan == ClosedChan
    case SeeCancel => s.worker == Selecting && s.canceled
    case DrainReceive => s.worker == Draining && s.buffer != []
    case DrainStop => s.worker == Draining && s.buffer == []
    case Finish => s.worker.Busy?
    case CloseDone => s.worker == Leaving
  }

  function Move(s: State, q: nat, pc: Queuer): State { s.(queuers := s.queuers[q := pc]) }

  function Release(s: State, q: nat): State { s.(readers := s.readers - {q}) }

  /** Under the read lock: stopped, nil channel, never started, or worker exited. */
  predicate Unavailable(s: State) { s.stopped || s.chan == NilChan || !s.started || s.doneCloses > 0 }

  predicate HasLeft(s: State) { s.worker == Leaving || s.worker == Gone }

  function Apply(s: State, e: Event): State
    requires Enabled(s, e)
  {
    match e
    case Arrive(q) => Move(s, q, Waiting)
    case LockShared(q) => Move(s, q, Locked).(readers := s.readers + {q})
    case Check(q) => if Unavailable(s) then Release(Move(s, q, MustSync), q) else Move(s, q, MaySend)
    case Send(q) =>
      if s.chan == ClosedChan then s.(panicked := true)
      else if |s.buffer| < CAPACITY then
        Release(Move(s, q, Queued), q).(
          buffer := s.buffer + [q], accepted := s.accepted + [q],
          late := if HasLeft(s) then s.late + [q] else s.late)
      else Release(Move(s, q, MustSync), q)
    case RunSync(q) => Move(s, q, Synced).(synced := s.synced + [q])
    case StartCall => s.(start := WantsLock)
    case StartLock => s.(start := HasLock, writer := StartHolds)
    case StartBody =>
      var t := s.(chan := if s.chan == NilChan then OpenChan else s.chan, writer := Nobody);
      if s.stopped || s.started then t.(start := Returned) else t.(start := Spawning, started := true)
    case Spawn => s.(start := Returned, worker := Selecting)
    case StopCall => s.(stop := WantsLock)
    case StopLock => s.(stop := HasLock, writer := StopHolds)
    case StopBody =>
      var t := s.(stop := Returned, writer := Nobody);
      if s.stopped then t
      else if !s.started then t.(stopped := true)
      else if s.chan == ClosedChan then t.(stopped := true, panicked := true)
      else t.(stopped := true, chan := if s.chan == OpenChan then ClosedChan else s.chan)
    case Cancel => s.(canceled := true)
    case Receive => s.(worker := Busy(s.buffer[0], false), buffer := s.buffer[1..])
    case SeeClosed => s.(worker := Leaving)
    case SeeCancel => s.(worker := Draining)
    case DrainReceive => s.(worker := Busy(s.buffer[0], true), buffer := s.buffer[1..])
    case DrainStop => s.(worker := Leaving)
    case Finish => s.(worker := if s.worker.draining then Draining else Selecting,
        processed := s.processed + [s.worker.item])
    case CloseDone => s.(worker := Gone, doneCloses := s.doneCloses + 1, panicked := s.panicked || s.doneCloses > 0)
  }

  // ----- the invariant -----

  function InFlight(s: State): seq<nat> { if s.worker.Busy? then [s.worker.item] else [] }

  predicate Distinct(s: seq<nat>) { forall i, j :: 0 <= i < j < |s| ==> s[i] != s[j] }

  /** The lock excludes writers from readers and from each other. */
  ghost predicate LockOk(s: State) {
    && (s.writer != Nobody ==> s.readers == {})
    && (s.writer == StartHolds <==> s.start == HasLock)
    && (s.writer == StopHolds <==> s.stop == HasLock)
    && (forall q :: q in s.readers <==> At(s, q, Locked) || At(s, q, MaySend))
  }

  predicate BeforeBody(c: Caller) { c.NotCalled? || c.WantsLock? || c.HasLock? }

  /** Where Start, Stop and the goroutine are determines the flags and the channel. */
  ghost predicate LifecycleOk(s: State) {
    && (BeforeBody(s.start) ==> !s.started)
    && (s.start == Spawning ==> s.started && s.worker == NotSpawned)
    && (s.worker != NotSpawned ==> s.started && s.start == Returned)
    && s.stop != Spawning
    && (BeforeBody(s.stop) ==> !s.stopped)
    && (s.chan == ClosedChan ==> s.stopped && s.started)
    && (s.started ==> s.chan != NilChan)
    && (s.started && s.stopped ==> s.chan == ClosedChan)
    && s.doneCloses == (if s.worker == Gone then 1 else 0)
    && (s.worker == Draining || (s.worker.Busy? && s.worker.draining) ==> s.canceled)
  }

  /** Items: first in first out, and each call's outcome is recorded once. */
  ghost predicate ItemsOk(s: State) {
    && s.accepted == s.processed + InFlight(s) + s.buffer
    && Distinct(s.accepted) && Distinct(s.synced)
    && (forall q :: q in s.accepted <==> At(s, q, Queued))
    && (forall q :: q in s.synced <==> At(s, q, Synced))
    && |s.buffer| <= CAPACITY
  }

  /** Once the goroutine has decided to leave, the buffer holds only what arrived afterwards; without
      cancellation it leaves only when the channel is closed and empty. */
  ghost predicate LeavingOk(s: State) {
    && s.late == (if HasLeft(s) then s.buffer else [])
    && (HasLeft(s) && !s.canceled ==> s.chan == ClosedChan && s.buffer == [])
  }

  ghost predicate SendersOk(s: State) {
    forall q :: At(s, q, MaySend) ==> s.started && !s.stopped && s.chan == OpenChan
  }

  ghost predicate Inv(s: State) {
    !s.panicked && LockOk(s) && LifecycleOk(s) && ItemsOk(s) && LeavingOk(s) && SendersOk(s)
  }

  lemma InitialInv(s: State)
    requires Initial(s)
    ensures Inv(s)
  {
  }

  lemma SendersExcludeWriter(s: State, q: nat)
    requires LockOk(s) && At(s, q, MaySend)
    ensures s.writer == Nobody
  {
    assert q in s.readers;
  }

  predicate OfQueuer(e: Event) { e.Arrive? || e.LockShared? || e.Check? || e.Send? || e.RunSync? }

  /** A queuer's step leaves the flags, the channel, the goroutine and the two callers alone. */
  predicate SameLifecycle(s: State, t: State) {
    && t.writer == s.writer && t.stopped == s.stopped && t.started == s.started && t.canceled == s.canceled
    && t.chan == s.chan && t.doneCloses == s.doneCloses && t.worker == s.worker && t.start == s.start
       && t.stop == s.stop
    && t.processed == s.processed
  }

  lemma QueuerFrame(s: State, e: Event)
    requires Enabled(s, e) && OfQueuer(e)
    ensures SameLifecycle(s, Apply(s, e))
  {
    match e
    case Arrive(_) =>
    case LockShared(_) =>
    case Check(_) =>
    case Send(_) =>
    case RunSync(_) =>
  }

  predicate HoldsLock(pc: Queuer) { pc == Locked || pc == MaySend }

  /** After a queuer's step it is a reader exactly when its new position holds the lock. */
  lemma QueuerReaders(s: State, e: Event)
    requires Enabled(s, e) && OfQueuer(e) && !Apply(s, e).panicked
    requires s.readers == (set q | q in s.queuers && HoldsLock(s.queuers[q]))
    ensures var t := Apply(s, e); e.q in t.queuers && t.queuers == s.queuers[e.q := t.queuers[e.q]]
    ensures var t := Apply(s, e);
        t.readers == if HoldsLock(t.queuers[e.q]) then s.readers + {e.q} else s.readers - {e.q}
    ensures e.LockShared? ==> s.writer == Nobody
    ensures !e.LockShared? && HoldsLock(Apply(s, e).queuers[e.q]) ==> e.q in s.readers
  {
    match e
    case Arrive(_) =>
    case LockShared(_) =>
    case Check(_) =>
    case Send(_) =>
    case RunSync(_) =>
  }

  lemma StepLockQueuer(s: State, e: Event)
    requires LockOk(s) && Enabled(s, e) && OfQueuer(e) && !Apply(s, e).panicked
    ensures LockOk(Apply(s, e))
  {
    var t := Apply(s, e);
    QueuerFrame(s, e);
    assert s.readers == (set q | q in s.queuers && HoldsLock(s.queuers[q])) by {
      assert forall q :: q in s.readers <==> At(s, q, Locked) || At(s, q, MaySend);
    }
    QueuerReaders(s, e);
    LockMoved(s, t, e.q);
  }

  lemma LockMoved(s: State, t: State, q: nat)
    requires LockOk(s) && SameLifecycle(s, t) && q in t.queuers && t.queuers == s.queuers[q := t.queuers[q]]
    requires t.readers == if HoldsLock(t.queuers[q]) then s.readers + {q} else s.readers - {q}
    requires HoldsLock(t.queuers[q]) && q !in s.readers ==> s.writer == Nobody
    ensures LockOk(t)
  {
    forall h ensures h in t.readers <==> At(t, h, Locked) || At(t, h, MaySend) {
      assert h in s.readers <==> At(s, h, Locked) || At(s, h, MaySend);
    }
  }

  lemma StepLockOther(s: State, e: Event)
    requires LockOk(s) && s.stop != Spawning && Enabled(s, e) && !OfQueuer(e) && !Apply(s, e).panicked
    ensures LockOk(Apply(s, e))
  {
  }

  lemma StepLock(s: State, e: Event)
    requires Inv(s) && Enabled(s, e) && !Apply(s, e).panicked
    ensures LockOk(Apply(s, e))
  {
    if OfQueuer(e) { StepLockQueuer(s, e); } else { StepLockOther(s, e); }
  }

  lemma StepNoPanic(s: State, e: Event)
    requires Inv(s) && Enabled(s, e)
    ensures !Apply(s, e).panicked
  {
  }

  lemma LifecycleQueuer(s: State, e: Event)
    requires LifecycleOk(s) && Enabled(s, e) && OfQueuer(e)
    ensures LifecycleOk(Apply(s, e))
  {
    QueuerFrame(s, e);
    LifecycleFrame(s, Apply(s, e));
  }

  lemma LifecycleFrame(s: State, t: State)
    requires LifecycleOk(s) && SameLifecycle(s, t)
    ensures LifecycleOk(t)
  {
  }

  lemma LifecycleOther(s: State, e: Event)
    requires LifecycleOk(s) && Enabled(s, e) && !OfQueuer(e)
    ensures LifecycleOk(Apply(s, e))
  {
  }

  lemma StepLifecycle(s: State, e: Event)
    requires LifecycleOk(s) && Enabled(s, e)
    ensures LifecycleOk(Apply(s, e))
  {
    if OfQueuer(e) { LifecycleQueuer(s, e); } else { LifecycleOther(s, e); }
  }

  predicate Fifo(s: State) { s.accepted == s.processed + InFlight(s) + s.buffer && |s.buffer| <= CAPACITY }

  lemma FifoQueuer(s: State, e: Event)
    requires Fifo(s) && Enabled(s, e) && OfQueuer(e)
    ensures Fifo(Apply(s, e))
  {
    QueuerFrame(s, e);
    QueuerBuffer(s, e);
    FifoGrows(s, Apply(s, e), if e.Send? then [e.q] else []);
  }

  lemma QueuerBuffer(s: State, e: Event)
    requires Enabled(s, e) && OfQueuer(e) && |s.buffer| <= CAPACITY
    ensures var t := Apply(s, e);
      || (t.buffer == s.buffer && t.accepted == s.accepted)
      || (e.Send? && t.buffer == s.buffer + [e.q] && t.accepted == s.accepted + [e.q] && |t.buffer| <= CAPACITY)
  {
    match e
    case Arrive(_) =>
    case LockShared(_) =>
    case Check(_) =>
    case Send(_) =>
    case RunSync(_) =>
  }

  lemma FifoGrows(s: State, t: State, more: seq<nat>)
    requires Fifo(s) && t.processed == s.processed && t.worker == s.worker
    ensures t.buffer == s.buffer + more && t.accepted == s.accepted + more && |t.buffer| <= CAPACITY ==> Fifo(t)
    ensures t.buffer == s.buffer && t.accepted == s.accepted ==> Fifo(t)
  {
    assert s.processed + InFlight(s) + s.buffer + more == s.processed + InFlight(s) + (s.buffer + more);
  }

  lemma FifoOther(s: State, e: Event)
    requires Fifo(s) && LifecycleOk(s) && Enabled(s, e) && !OfQueuer(e)
    ensures Fifo(Apply(s, e))
  {
    var t := Apply(s, e);
    if e.Receive? || e.DrainReceive? {
      TakeFirst(s.processed, s.buffer);
      assert InFlight(s) == [] && InFlight(t) == [s.buffer[0]] && t.buffer == s.buffer[1..]
          && t.processed == s.processed;
    } else if e.Finish? {
      assert InFlight(s) == [s.worker.item] && InFlight(t) == [] && t.processed == s.processed + [s.worker.item];
      assert t.processed + [] == t.processed;
    } else {
      OtherBuffer(s, e);
    }
  }

  lemma TakeFirst(done: seq<nat>, buffer: seq<nat>)
    requires buffer != []
    ensures done + [] + buffer == done + [buffer[0]] + buffer[1..]
  {
    assert buffer == [buffer[0]] + buffer[1..];
  }

  lemma OtherBuffer(s: State, e: Event)
    requires LifecycleOk(s) && Enabled(s, e) && !OfQueuer(e) && !e.Receive? && !e.DrainReceive? && !e.Finish?
    ensures var t := Apply(s, e);
      t.buffer == s.buffer && t.accepted == s.accepted && t.processed == s.processed && InFlight(t) == InFlight(s)
  {
  }

  lemma StepFifo(s: State, e: Event)
    requires Fifo(s) && LifecycleOk(s) && Enabled(s, e)
    ensures Fifo(Apply(s, e))
  {
    if OfQueuer(e) { FifoQueuer(s, e); } else { FifoOther(s, e); }
  }

  ghost predicate OutcomesOk(accepted: seq<nat>, synced: seq<nat>, queuers: map<nat, Queuer>) {
    && Distinct(accepted) && (forall q :: q in accepted <==> q in queuers && queuers[q] == Queued)
    && Distinct(synced) && (forall q :: q in synced <==> q in queuers && queuers[q] == Synced)
  }

  lemma MoveOutcomes(accepted: seq<nat>, synced: seq<nat>, queuers: map<nat, Queuer>, q: nat, pc: Queuer)
    requires OutcomesOk(accepted, synced, queuers)
    requires q in queuers ==> queuers[q] != Queued && queuers[q] != Synced
    ensures OutcomesOk(if pc == Queued then accepted + [q] else accepted, if pc == Synced then synced + [q]
        else synced, queuers[q := pc])
  {
    assert q !in accepted && q !in synced;
  }

  /** Only Send and RunSync move a call to its outcome, from a point where it had none. */
  lemma StepOutcomes(s: State, e: Event)
    requires Inv(s) && Enabled(s, e) && !Apply(s, e).panicked
    ensures var t := Apply(s, e); OutcomesOk(t.accepted, t.synced, t.queuers)
  {
    var t := Apply(s, e);
    assert OutcomesOk(s.accepted, s.synced, s.queuers) by {
      assert forall q :: q in s.accepted <==> At(s, q, Queued);
      assert forall q :: q in s.synced <==> At(s, q, Synced);
    }
    if OfQueuer(e) {
      MoveOutcomes(s.accepted, s.synced, s.queuers, e.q, t.queuers[e.q]);
    }
  }

  lemma StepItems(s: State, e: Event)
    requires Inv(s) && Enabled(s, e) && !Apply(s, e).panicked
    ensures ItemsOk(Apply(s, e))
  {
    StepFifo(s, e);
    StepOutcomes(s, e);
  }

  lemma SendersStep(s: State, e: Event)
    requires Inv(s) && Enabled(s, e)
    ensures SendersOk(Apply(s, e))
  {
    var t := Apply(s, e);
    forall q | At(t, q, MaySend) ensures t.started && !t.stopped && t.chan == OpenChan {
      if At(s, q, MaySend) { SendersExcludeWriter(s, q); }
      if OfQueuer(e) { QueuerFrame(s, e); }
    }
  }

  lemma LeavingQueuer(s: State, e: Event)
    requires Inv(s) && Enabled(s, e) && OfQueuer(e)
    ensures LeavingOk(Apply(s, e))
  {
    QueuerFrame(s, e);
    if e.Send? { assert At(s, e.q, MaySend); }
  }

  lemma LeavingOther(s: State, e: Event)
    requires LifecycleOk(s) && LeavingOk(s) && Enabled(s, e) && !OfQueuer(e)
    ensures LeavingOk(Apply(s, e))
  {
  }

  lemma StepSenders(s: State, e: Event)
    requires Inv(s) && Enabled(s, e)
    ensures SendersOk(Apply(s, e)) && LeavingOk(Apply(s, e))
  {
    SendersStep(s, e);
    if OfQueuer(e) { LeavingQueuer(s, e); } else { LeavingOther(s, e); }
  }

  /** Every step of every actor keeps the invariant; in particular none panics. */
  lemma StepInv(s: State, e: Event)
    requires Inv(s) && Enabled(s, e)
    ensures Inv(Apply(s, e))
  {
    StepNoPanic(s, e);
    StepLock(s, e);
    StepLifecycle(s, e);
    StepItems(s, e);
    StepSenders(s, e);
  }

  // ----- runs -----

  ghost predicate CanRun(s: State, es: seq<Event>)
    decreases |es|
  {
    es != [] ==> Enabled(s, es[0]) && CanRun(Apply(s, es[0]), es[1..])
  }

  function After(s: State, es: seq<Event>): State
    requires CanRun(s, es)
    decreases |es|
  {
    if es == [] then s else After(Apply(s, es[0]), es[1..])
  }

  ghost predicate Reachable(s: State) {
    exists s0: State, es: seq<Event> :: Initial(s0) && CanRun(s0, es) && After(s0, es) == s
  }

  lemma {:induction false} RunKeepsInv(s: State, es: seq<Event>)
    requires Inv(s) && CanRun(s, es)
    ensures Inv(After(s, es))
    decreases |es|
  {
    if es != [] {
      StepInv(s, es[0]);
      RunKeepsInv(Apply(s, es[0]), es[1..]);
    }
  }

  lemma ReachableInv(s: State)
    requires Reachable(s)
    ensures Inv(s)
  {
    var s0: State, es: seq<Event> :| Initial(s0) && CanRun(s0, es) && After(s0, es) == s;
    InitialInv(s0);
    RunKeepsInv(s0, es);
  }

  // ----- what every run guarantees -----

  /** No send on a closed channel, no second close of the queue or of `done`. */
  lemma NoPanicEver(s: State)
    requires Reachable(s)
    ensures !s.panicked && s.doneCloses <= 1
    ensures s.doneCloses == 1 <==> s.worker == Gone
  {
    ReachableInv(s);
  }

  /** Conservation, in order: accepted items are the processed ones, then the one in hand, then the
      buffered ones; no item is processed twice, and none both by the worker and by its caller. */
  lemma ItemsAreConserved(s: State)
    requires Reachable(s)
    ensures s.accepted == s.processed + InFlight(s) + s.buffer
    ensures Distinct(s.accepted) && Distinct(s.processed) && Distinct(s.synced)
    ensures forall q :: !(q in s.accepted && q in s.synced)
    ensures forall q :: At(s, q, Queued) <==> q in s.accepted
    ensures forall q :: At(s, q, Synced) <==> q in s.synced
  {
    ReachableInv(s);
    assert forall i :: 0 <= i < |s.processed| ==> s.processed[i] == s.accepted[i];
  }

  /** When `done` has closed, the accepted items that were not processed are exactly those sent after
      the goroutine had decided to leave; there are none in a run without cancellation. */
  lemma LostItemsAreTheLateOnes(s: State)
    requires Reachable(s) && s.worker == Gone
    ensures s.accepted == s.processed + s.late
    ensures forall q :: q in s.accepted && q !in s.processed <==> q in s.late
    ensures !s.canceled ==> s.processed == s.accepted
  {
    ReachableInv(s);
    assert s.processed + [] + s.late == s.processed + s.late;
    if !s.canceled { assert s.processed + [] == s.processed; }
    forall q | q in s.late ensures q !in s.processed {
      var j :| 0 <= j < |s.late| && s.late[j] == q;
      assert s.accepted[|s.processed| + j] == q;
      assert forall i :: 0 <= i < |s.processed| ==> s.processed[i] == s.accepted[i];
    }
  }

  lemma LateStep(s: State, e: Event)
    requires Inv(s) && Enabled(s, e) && HasLeft(s)
    ensures HasLeft(Apply(s, e)) && s.buffer <= Apply(s, e).buffer && Apply(s, e).processed == s.processed
  {
    StepNoPanic(s, e);
  }

  lemma {:induction false} LateRun(s: State, es: seq<Event>)
    requires Inv(s) && HasLeft(s) && CanRun(s, es)
    ensures var t := After(s, es); Inv(t) && HasLeft(t) && s.buffer <= t.buffer && t.processed == s.processed
    decreases |es|
  {
    if es != [] {
      LateStep(s, es[0]);
      StepInv(s, es[0]);
      LateRun(Apply(s, es[0]), es[1..]);
    }
  }

  /** Once the goroutine has decided to leave, nothing in the buffer is processed in any continuation,
      and what arrives later stays there too. */
  lemma LateItemsStay(s: State, es: seq<Event>, q: nat)
    requires Reachable(s) && HasLeft(s) && CanRun(s, es) && q in s.buffer
    ensures var t := After(s, es); q in t.buffer && q in t.accepted && q !in t.processed
  {
    ReachableInv(s);
    LateRun(s, es);
    var t := After(s, es);
    var j :| 0 <= j < |s.buffer| && s.buffer[j] == q;
    assert t.buffer[j] == q;
    assert t.accepted[|t.processed| + |InFlight(t)| + j] == q;
    assert forall i :: 0 <= i < |t.processed| ==> t.processed[i] == t.accepted[i];
  }

  lemma {:induction false} RunSnoc(s: State, es: seq<Event>, e: Event)
    requires CanRun(s, es) && Enabled(After(s, es), e)
    ensures CanRun(s, es + [e]) && After(s, es + [e]) == Apply(After(s, es), e)
    decreases |es|
  {
    if es != [] {
      assert (es + [e])[1..] == es[1..] + [e];
      RunSnoc(Apply(s, es[0]), es[1..], e);
    } else {
      assert [e][1..] == [];
    }
  }

  lemma Extend(s: State, e: Event) returns (t: State)
    requires Reachable(s) && Enabled(s, e)
    ensures t == Apply(s, e) && Reachable(t)
  {
    t := Apply(s, e);
    var s0: State, es: seq<Event> :| Initial(s0) && CanRun(s0, es) && After(s0, es) == s;
    RunSnoc(s0, es, e);
  }

  /** A worker whose goroutine saw the cancellation and an empty queue, but has not closed `done`. */
  const FRESH := State(Nobody, {}, false, false, false, OpenChan, [], 0, NotSpawned, NotCalled, NotCalled, map[],
      false, [], [], [], [])
  const LEFT_OPEN := State(Nobody, {}, false, true, true, OpenChan, [], 0, Leaving, Returned, NotCalled, map[],
      false, [], [], [], [])

  lemma FreshIsReachable()
    ensures Reachable(FRESH)
  {
    assert CanRun(FRESH, []) && After(FRESH, []) == FRESH;
  }

  lemma StartedIsReachable() returns (s: State)
    ensures s == FRESH.(start := Spawning, started := true) && Reachable(s)
  {
    FreshIsReachable();
    s := Extend(FRESH, StartCall);
    s := Extend(s, StartLock);
    s := Extend(s, StartBody);
  }

  lemma LeftOpenIsReachable()
    ensures Reachable(LEFT_OPEN)
  {
    var s := StartedIsReachable();
    s := Extend(s, Spawn);
    s := Extend(s, Cancel);
    s := Extend(s, SeeCancel);
    s := Extend(s, DrainStop);
  }

  /** The exception occurs: an item is accepted between the drain seeing an empty queue and `done`
      closing, and its caller is told that it was queued. */
  lemma LateItemExists() returns (s: State)
    ensures Reachable(s) && s.canceled && s.worker == Gone
    ensures At(s, 0, Queued) && s.accepted == [0] && s.processed == []
  {
    s := LateSender();
    s := Extend(s, Send(0));
    s := Extend(s, CloseDone);
  }

  lemma LateSender() returns (s: State)
    ensures Reachable(s) && s == LEFT_OPEN.(readers := {0}, queuers := map[0 := MaySend])
  {
    LeftOpenIsReachable();
    s := Extend(LEFT_OPEN, Arrive(0));
    s := Extend(s, LockShared(0));
    s := Extend(s, Check(0));
  }

  // ----- who is still let in -----

  /** The worker has exited or has been stopped. */
  predicate Shut(s: State) { s.worker == Gone || s.stopped }

  lemma ShutStep(s: State, e: Event)
    requires Inv(s) && Enabled(s, e) && Shut(s)
    ensures Shut(Apply(s, e))
    ensures forall q :: q in Apply(s, e).accepted ==> q in s.accepted || At(s, q, MaySend)
    ensures forall q :: At(Apply(s, e), q, MaySend) ==> At(s, q, MaySend)
  {
    if OfQueuer(e) { ShutQueuer(s, e); } else { ShutOther(s, e); }
  }

  lemma ShutQueuer(s: State, e: Event)
    requires Inv(s) && Enabled(s, e) && OfQueuer(e) && Shut(s)
    ensures Shut(Apply(s, e))
    ensures forall q :: q in Apply(s, e).accepted ==> q in s.accepted || At(s, q, MaySend)
    ensures forall q :: At(Apply(s, e), q, MaySend) ==> At(s, q, MaySend)
  {
    QueuerFrame(s, e);
    QueuerBuffer(s, e);
    match e
    case Arrive(_) =>
    case LockShared(_) =>
    case Check(_) =>
    case Send(_) =>
    case RunSync(_) =>
  }

  lemma ShutOther(s: State, e: Event)
    requires Enabled(s, e) && !OfQueuer(e) && LifecycleOk(s) && Shut(s)
    ensures var t := Apply(s, e); Shut(t) && t.accepted == s.accepted && t.queuers == s.queuers
  {
  }

  lemma {:induction false} ShutRun(s: State, es: seq<Event>)
    requires Inv(s) && Shut(s) && CanRun(s, es)
    ensures var t := After(s, es);
      && Inv(t) && (forall q :: q in t.accepted ==> q in s.accepted || At(s, q, MaySend))
      && (forall q :: At(t, q, MaySend) ==> At(s, q, MaySend))
    decreases |es|
  {
    if es != [] {
      ShutStep(s, es[0]);
      StepInv(s, es[0]);
      ShutRun(Apply(s, es[0]), es[1..]);
    }
  }

  /** Once the worker has exited, no run lets in a call that had not passed its check by then; once it has been
      stopped, no run lets in any. Such a call, when it ends, has been processed by its caller. */
  lemma LateCallersProcessTheirOwn(s: State, es: seq<Event>, q: nat)
    requires Reachable(s) && Shut(s) && CanRun(s, es)
    requires q !in s.accepted && !(At(s, q, MaySend) && !s.stopped)
    ensures var t := After(s, es);
      && q !in t.accepted && !At(t, q, Queued) && !At(t, q, MaySend)
      && (At(t, q, Synced) <==> q in t.synced)
  {
    ReachableInv(s);
    ShutRun(s, es);
    assert s.stopped ==> !At(s, q, MaySend) by {
      assert At(s, q, MaySend) ==> !s.stopped;
    }
    var t := After(s, es);
    assert At(t, q, Queued) <==> q in t.accepted;
    assert At(t, q, Synced) <==> q in t.synced;
  }

  /** The one step such a call takes after its check is to process its change itself. */
  lemma RefusedCallerCanProceed(s: State, q: nat)
    requires At(s, q, MustSync)
    ensures Enabled(s, RunSync(q)) && At(Apply(s, RunSync(q)), q, Synced) && q in Apply(s, RunSync(q)).synced
  {
  }

  /** The check of a call, on the fields: it falls back exactly when the worker is stopped, has no queue, was
      never started or has closed `done`. */
  lemma CheckOnFields(s: State, q: nat)
    requires At(s, q, Locked)
    ensures var t := Apply(s, Check(q));
      if s.stopped || s.chan == NilChan || !s.started || s.doneCloses > 0 then At(t, q, MustSync) && q !in t.readers
      else At(t, q, MaySend) && t.readers == s.readers
  {
  }

  predicate NothingTaken(s: State) { !s.started ==> s.accepted == [] }

  lemma NothingTakenStep(s: State, e: Event)
    requires Inv(s) && NothingTaken(s) && Enabled(s, e)
    ensures NothingTaken(Apply(s, e))
  {
    if e.Send? { assert At(s, e.q, MaySend) ==> s.started; }
  }

  lemma {:induction false} NothingTakenRun(s: State, es: seq<Event>)
    requires Inv(s) && NothingTaken(s) && CanRun(s, es)
    ensures NothingTaken(After(s, es))
    decreases |es|
  {
    if es != [] {
      NothingTakenStep(s, es[0]);
      StepInv(s, es[0]);
      NothingTakenRun(Apply(s, es[0]), es[1..]);
    }
  }

  /** A worker that was never started has taken nothing: every call that ended was processed by its caller. */
  lemma NeverStartedTakesNothing(s: State)
    requires Reachable(s) && !s.started
    ensures s.accepted == [] && forall q :: !At(s, q, Queued) && !At(s, q, MaySend)
  {
    var s0: State, es: seq<Event> :| Initial(s0) && CanRun(s0, es) && After(s0, es) == s;
    InitialInv(s0);
    NothingTakenRun(s0, es);
    RunKeepsInv(s0, es);
    assert forall q :: At(s, q, Queued) <==> q in s.accepted;
    assert forall q :: At(s, q, MaySend) ==> s.started;
  }

  // ----- nobody waits for ever on the lock -----

  predicate Unfinished(c: Caller) { c == WantsLock || c == HasLock || c == Spawning }

  /** Some call has begun and not ended. */
  ghost predicate SomeoneWaits(s: State) {
    || Unfinished(s.start) || Unfinished(s.stop)
    || exists q :: q in s.queuers && s.queuers[q] != Queued && s.queuers[q] != Synced
  }

  /** A step of a call that has begun. */
  predicate IsCallStep(e: Event) {
    || e.LockShared? || e.Check? || e.Send? || e.RunSync? || e.StartLock? || e.StartBody? || e.Spawn?
    || e.StopLock? || e.StopBody?
  }

  /** No deadlock: as long as some call has begun and not ended, one of the calls has a step to take. */
  lemma NoDeadlock(s: State) returns (e: Event)
    requires Reachable(s) && SomeoneWaits(s)
    ensures IsCallStep(e) && Enabled(s, e)
  {
    ReachableInv(s);
    if s.start == HasLock {
      e := StartBody;
    } else if s.stop == HasLock {
      e := StopBody;
    } else if s.start == Spawning {
      e := Spawn;
    } else if s.readers != {} {
      var q :| q in s.readers;
      e := if s.queuers[q] == Locked then Check(q) else Send(q);
    } else if s.start == WantsLock {
      e := StartLock;
    } else if s.stop == WantsLock {
      e := StopLock;
    } else {
      var q :| q in s.queuers && s.queuers[q] != Queued && s.queuers[q] != Synced;
      assert q !in s.readers;
      e := if s.queuers[q] == Waiting then LockShared(q) else RunSync(q);
    }
  }

  function Position(pc: Queuer): nat {
    match pc
    case Waiting => 0
    case Locked => 1
    case MaySend => 2
    case MustSync => 3
    case Queued => 4
    case Synced => 4
  }

  function Progress(c: Caller): nat {
    match c
    case NotCalled => 0
    case WantsLock => 1
    case HasLock => 2
    case Spawning => 3
    case Returned => 4
  }

  /** Each such step moves its call forward, so a call takes at most four of them. */
  lemma CallsMoveForward(s: State, e: Event)
    requires Inv(s) && Enabled(s, e) && IsCallStep(e)
    ensures var t := Apply(s, e);
      || (OfQueuer(e) && e.q in t.queuers && Position(s.queuers[e.q]) < Position(t.queuers[e.q]) <= 4)
      || Progress(s.start) < Progress(t.start) <= 4
      || Progress(s.stop) < Progress(t.stop) <= 4
  {
    StepNoPanic(s, e);
  }

  // ----- Stop drains the queue -----

  predicate IsWorkerStep(e: Event) {
    e.Receive? || e.SeeClosed? || e.SeeCancel? || e.DrainReceive? || e.DrainStop? || e.Finish? || e.CloseDone?
  }

  function Rank(s: State): nat {
    3 * |s.buffer| + match s.worker
      case NotSpawned => 6
      case Busy(_, draining) => if draining then 4 else 5
      case Selecting => 3
      case Draining => 2
      case Leaving => 1
      case Gone => 0
  }

  /** After Stop has closed the queue each step of the goroutine lowers the rank and no step of anyone
      else raises it; until `done` closes the goroutine has a step to take. */
  lemma DrainStep(s: State, e: Event)
    requires Inv(s) && s.chan == ClosedChan && Enabled(s, e)
    ensures Apply(s, e).chan == ClosedChan && Rank(Apply(s, e)) <= Rank(s)
    ensures IsWorkerStep(e) ==> Rank(Apply(s, e)) < Rank(s)
  {
  }

  lemma WorkerCanMove(s: State)
    requires Inv(s) && s.chan == ClosedChan && s.worker != NotSpawned && s.worker != Gone
    ensures exists w :: IsWorkerStep(w) && Enabled(s, w)
  {
    var w := match s.worker
      case Busy(_, _) => Finish
      case Selecting => if s.buffer != [] then Receive else SeeClosed
      case Draining => if s.buffer != [] then DrainReceive else DrainStop
      case _ => CloseDone;
    assert IsWorkerStep(w) && Enabled(s, w);
  }

  function WorkerSteps(es: seq<Event>): nat {
    if es == [] then 0 else (if IsWorkerStep(es[0]) then 1 else 0) + WorkerSteps(es[1..])
  }

  lemma {:induction false} DrainRun(s: State, es: seq<Event>)
    requires Inv(s) && s.chan == ClosedChan && CanRun(s, es)
    ensures var t := After(s, es);
      Inv(t) && t.chan == ClosedChan && WorkerSteps(es) + Rank(t) <= Rank(s) && t.late == s.late
    decreases |es|
  {
    if es != [] {
      DrainStep(s, es[0]);
      NothingSentLate(s, es[0]);
      StepInv(s, es[0]);
      DrainRun(Apply(s, es[0]), es[1..]);
    }
  }

  /** Nobody can send to a closed queue, so nothing arrives late. */
  lemma NothingSentLate(s: State, e: Event)
    requires SendersOk(s) && s.chan == ClosedChan && Enabled(s, e)
    ensures Apply(s, e).late == s.late
  {
    if e.Send? { assert At(s, e.q, MaySend); }
  }

  /** After Stop has closed the queue, in every run the goroutine takes at most `Rank` steps, and as long
      as it runs and has not closed `done` it has a step to take. If it had not decided to leave when the
      queue was closed, cancelled or not, it has processed every accepted item when it is done. */
  lemma StopDrains(s: State, es: seq<Event>)
    requires Reachable(s) && s.chan == ClosedChan && CanRun(s, es)
    ensures var t := After(s, es);
      && WorkerSteps(es) <= Rank(s)
      && (t.worker != NotSpawned && t.worker != Gone ==> exists w :: IsWorkerStep(w) && Enabled(t, w))
      && (t.worker == Gone && !HasLeft(s) ==> t.processed == t.accepted)
      && (t.worker == Gone && !t.canceled ==> t.processed == t.accepted)
  {
    ReachableInv(s);
    DrainRun(s, es);
    var t := After(s, es);
    if t.worker != NotSpawned && t.worker != Gone { WorkerCanMove(t); }
    assert t.processed + [] + [] == t.processed;
  }
}
