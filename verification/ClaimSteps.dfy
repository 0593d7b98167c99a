/**
 * The filesystem store's claim protocol as an interleaving of its individual file operations.
 *
 * Every call is a small program over two kinds of file: the dispatch record (`meta.json`, rewritten
 * under a lock, one atomic step here) and the claim sentinel (created exclusively, overwritten or
 * removed, outside that lock). Any number of calls run at once; each step below advances one of
 * them, or the clock, or the outside world.
 */
module ClaimSteps {
  import opened Dispatches

  /** One call in progress, named by what it is about to do next. */
  datatype Op =
    | ClaimOpen(id: Id, e: Executor, deadline: int)      // create the sentinel exclusively
    | ClaimMeta(id: Id, e: Executor, deadline: int)      // sentinel won; record the claim
    | ClaimRollback(id: Id)                              // claim refused; remove the sentinel
    | RenewMeta(id: Id, e: Executor, deadline: int)
    | RenewFile(id: Id)                                  // rewrite the sentinel with the new deadline
    | ReleaseMeta(id: Id, e: Executor, status: Status, at: int)
    | ReleaseFile(id: Id)                                // remove the sentinel
    | SweepScan(asOf: int, todo: seq<Id>)                // look at the next directory
    | SweepLock(asOf: int, todo: seq<Id>)                // todo[0] looked expired; requeue it under the lock
    | SweepFile(asOf: int, todo: seq<Id>)                // todo[0] requeued; remove its sentinel

  /** What the record of one dispatch says has happened to it. */
  datatype Event =
    | Won(id: Id, e: Executor, deadline: int)
    | Renewed(id: Id, e: Executor, deadline: int)
    | Released(id: Id, e: Executor)
    | Requeued(id: Id)

  datatype State = State(
    now: int,
    files: map<Id, MetaFile>,
    sentinels: set<Id>,
    calls: map<nat, Op>,
    log: seq<Event>
  )

  datatype Step =
    | Tick(to: int)
    | Enqueue(id: Id, d: Dispatch)        // a new record is written, unclaimed and without a lease
    | Begin(pid: nat, op: Op)             // a caller enters one of the four operations
    | Crash(pid: nat)                     // a caller dies, or a removal fails and is ignored
    | Advance(pid: nat)                   // a caller takes its next step
    | IoFailure(pid: nat)                 // the step fails without touching the record
    | HolderWrite(id: Id, d: Dispatch)    // the current holder rewrites its record

  function Current(s: State, id: Id): Dispatch {
    RecordOf(s.files, id)
  }

  function Finish(s: State, pid: nat): State {
    s.(calls := s.calls - {pid})
  }

  function Goto(s: State, pid: nat, op: Op): State {
    s.(calls := s.calls[pid := op])
  }

  function Store(s: State, id: Id, d: Dispatch, event: seq<Event>): State {
    s.(files := s.files[id := Record(d)], log := s.log + event)
  }

  /** The operations' entry points, with the deadline or scan time they captured on the way in. */
  predicate Entry(s: State, op: Op) {
    match op
    case ClaimOpen(_, _, _) => true
    case RenewMeta(_, _, _) => true
    case ReleaseMeta(_, _, status, _) => Terminal(status)
    case SweepScan(asOf, _) => asOf == s.now
    case _ => false
  }

  /** The three steps of a claim: create the sentinel exclusively, record the claim, or undo. */
  function ClaimStep(s: State, pid: nat, op: Op): State
  {
    match op
    case ClaimOpen(id, e, deadline) =>
      if id in s.sentinels then Finish(s, pid)
      else Goto(s.(sentinels := s.sentinels + {id}), pid, ClaimMeta(id, e, deadline))
    case ClaimMeta(id, e, deadline) =>
      if Unreadable(s.files, id) then Goto(s, pid, ClaimRollback(id))
      else (
        match ClaimUpdate(Current(s, id), e, deadline)
        case None => Goto(s.(files := Touched(s.files, id)), pid, ClaimRollback(id))
        case Some(d) => Finish(Store(s, id, d, [Won(id, e, deadline)]), pid))
    case ClaimRollback(id) => Finish(s.(sentinels := s.sentinels - {id}), pid)
    case _ => s
  }

  /** A renewal: record the new deadline, then rewrite the sentinel, which creates a missing one. */
  function RenewStep(s: State, pid: nat, op: Op): State
  {
    match op
    case RenewMeta(id, e, deadline) =>
      if Unreadable(s.files, id) then Finish(s, pid)
      else (
        match RenewUpdate(Current(s, id), e, deadline)
        case None => Finish(s.(files := Touched(s.files, id)), pid)
        case Some(d) => Goto(Store(s, id, d, [Renewed(id, e, deadline)]), pid, RenewFile(id)))
    case RenewFile(id) => Finish(s.(sentinels := s.sentinels + {id}), pid)
    case _ => s
  }

  /** A release: clear the claim from the record, then remove the sentinel. */
  function ReleaseStep(s: State, pid: nat, op: Op): State
  {
    match op
    case ReleaseMeta(id, e, status, at) =>
      if Unreadable(s.files, id) then Finish(s, pid)
      else (
        match ReleaseUpdate(Current(s, id), e, status, at)
        case None => Finish(s.(files := Touched(s.files, id)), pid)
        case Some(d) => Goto(Store(s, id, d, [Released(id, e)]), pid, ReleaseFile(id)))
    case ReleaseFile(id) => Finish(s.(sentinels := s.sentinels - {id}), pid)
    case _ => s
  }

  /** A sweep: look at each directory, re-check under the lock, requeue, remove the sentinel. */
  function SweepStep(s: State, pid: nat, op: Op): State
  {
    match op
    case SweepScan(asOf, todo) =>
      if todo == [] then Finish(s, pid)
      else if Expired(Current(s, todo[0]), asOf) then Goto(s, pid, SweepLock(asOf, todo))
      else Goto(s, pid, SweepScan(asOf, todo[1..]))
    case SweepLock(asOf, todo) =>
      if todo == [] || Unreadable(s.files, todo[0]) then Finish(s, pid)
      else if Expired(Current(s, todo[0]), asOf) then
        Goto(Store(s, todo[0], Requeue(Current(s, todo[0])), [Requeued(todo[0])]), pid, SweepFile(asOf, todo))
      else
        Goto(Store(s, todo[0], Current(s, todo[0]), []), pid, SweepScan(asOf, todo[1..]))
    case SweepFile(asOf, todo) =>
      if todo == [] then Finish(s, pid)
      else Goto(s.(sentinels := s.sentinels - {todo[0]}), pid, SweepScan(asOf, todo[1..]))
    case _ => s
  }

  /** The effect of one caller's next step. */
  function Advanced(s: State, pid: nat): State
    requires pid in s.calls
  {
    var op := s.calls[pid];
    if op.ClaimOpen? || op.ClaimMeta? || op.ClaimRollback? then ClaimStep(s, pid, op)
    else if op.RenewMeta? || op.RenewFile? then RenewStep(s, pid, op)
    else if op.ReleaseMeta? || op.ReleaseFile? then ReleaseStep(s, pid, op)
    else SweepStep(s, pid, op)
  }

  /**
   * A step whose file operation fails: a claim past its sentinel cleans up, a scan goes on past an
   * unreadable record or an unremovable sentinel, everything else returns the error.
   */
  function Failed(s: State, pid: nat): State
    requires pid in s.calls
  {
    match s.calls[pid]
    case ClaimMeta(id, _, _) => Goto(s, pid, ClaimRollback(id))
    case SweepScan(asOf, todo) => if todo == [] then Finish(s, pid) else Goto(s, pid, SweepScan(asOf, todo[1..]))
    case SweepFile(asOf, todo) => if todo == [] then Finish(s, pid) else Goto(s, pid, SweepScan(asOf, todo[1..]))
    case _ => Finish(s, pid)
  }

  ghost predicate Next(s: State, step: Step, t: State) {
    match step
    case Tick(to) => s.now <= to && t == s.(now := to)
    case Enqueue(id, d) =>
      && (id in s.files ==> s.files[id].Blank?)
      && Coherent(d) && !Held(d)
      && t == s.(files := s.files[id := Record(d)])
    case Begin(pid, op) => pid !in s.calls && Entry(s, op) && t == s.(calls := s.calls[pid := op])
    case Crash(pid) => pid in s.calls && t == Finish(s, pid)
    case Advance(pid) => pid in s.calls && t == Advanced(s, pid)
    case IoFailure(pid) => pid in s.calls && t == Failed(s, pid)
    case HolderWrite(id, d) =>
      && id in s.files && s.files[id].Record? && Held(s.files[id].d)
      && d.claimedBy == s.files[id].d.claimedBy && d.leaseUntil == s.files[id].d.leaseUntil
      && (d.status == s.files[id].d.status || d.status == Running || Terminal(d.status))
      && t == s.(files := s.files[id := Record(d)])
  }

  /**
   * What a run may contain at any point: time standing still or passing, any call beginning, a caller's death, and a
   * holder writing its record again, running or at an end.
   */
  lemma AnyoneMay(s: State, to: int, pid: nat, op: Op, id: Id, d: Dispatch, status: Status)
    ensures s.now <= to ==> Next(s, Tick(to), s.(now := to))
    ensures pid !in s.calls && Entry(s, op) ==> Next(s, Begin(pid, op), s.(calls := s.calls[pid := op]))
    ensures pid in s.calls ==> Next(s, Crash(pid), s.(calls := s.calls - {pid}))
    ensures id in s.files && s.files[id] == Record(d) && d.claimedBy != ""
            && (status == d.status || status == Running || Terminal(status)) ==>
      Next(s, HolderWrite(id, d.(status := status)), s.(files := s.files[id := Record(d.(status := status))]))
  {
  }

  /** A failing file operation ends a call, except that a claim takes its sentinel back and a sweep goes on. */
  lemma FailureGoesOn(s: State, pid: nat, id: Id, e: Executor, deadline: int, asOf: int, todo: seq<Id>)
    requires pid in s.calls
    ensures s.calls[pid] == ClaimMeta(id, e, deadline) ==> Failed(s, pid) == s.(calls := s.calls[pid := ClaimRollback(id)])
    ensures todo != [] && (s.calls[pid] == SweepScan(asOf, todo) || s.calls[pid] == SweepFile(asOf, todo)) ==>
      Failed(s, pid) == s.(calls := s.calls[pid := SweepScan(asOf, todo[1..])])
    ensures !s.calls[pid].ClaimMeta? && !s.calls[pid].SweepScan? && !s.calls[pid].SweepFile? ==>
      Failed(s, pid) == s.(calls := s.calls - {pid})
  {
  }

  /** Before anyone calls: records nobody holds, and possibly stray sentinel files. */
  ghost predicate Init(s: State) {
    && s.calls == map[] && s.log == []
    && forall id | id in s.files && s.files[id].Record? :: Coherent(s.files[id].d) && !Held(s.files[id].d)
  }

  // ---------------------------------------------------------------- mutual exclusion

  /** The record of `id` names an executor. */
  predicate MetaHeld(s: State, id: Id) {
    Held(Current(s, id))
  }

  /** This call is between the two file operations that hand the sentinel of `id` over. */
  predicate Owns(op: Op, id: Id) {
    match op
    case ClaimMeta(i, _, _) => i == id
    case ClaimRollback(i) => i == id
    case ReleaseFile(i) => i == id
    case SweepFile(_, todo) => todo != [] && todo[0] == id
    case _ => false
  }

  /** Who has `id`: the record's holder and the calls in between exclude one another. */
  ghost predicate Exclusive(s: State, id: Id) {
    && (MetaHeld(s, id) ==> id in s.sentinels)
    && (forall p | p in s.calls && Owns(s.calls[p], id) :: id in s.sentinels && !MetaHeld(s, id))
    && (forall p, q | p in s.calls && q in s.calls && Owns(s.calls[p], id) && Owns(s.calls[q], id) :: p == q)
  }

  /** Claims won minus claims given back, in a log. */
  function Balance(log: seq<Event>, id: Id): int {
    if log == [] then 0
    else Balance(log[..|log| - 1], id) + Weight(log[|log| - 1], id)
  }

  function Weight(event: Event, id: Id): int {
    if event.id != id then 0
    else match event
      case Won(_, _, _) => 1
      case Renewed(_, _, _) => 0
      case Released(_, _) => -1
      case Requeued(_) => -1
  }

  ghost predicate Audited(s: State, id: Id) {
    && Balance(s.log, id) == (if MetaHeld(s, id) then 1 else 0)
    && forall k | 0 <= k <= |s.log| :: 0 <= Balance(s.log[..k], id) <= 1
  }

  /** What holds of each dispatch, whatever the others are doing. */
  ghost predicate Safe(s: State, id: Id) {
    Exclusive(s, id) && Coherent(Current(s, id)) && Audited(s, id)
  }

  /** What holds of each call in progress. */
  predicate WellTimed(op: Op, now: int) {
    && ((op.SweepScan? || op.SweepLock? || op.SweepFile?) ==> op.asOf <= now)
    && (op.ReleaseMeta? ==> Terminal(op.status))
  }

  ghost predicate Inv(s: State) {
    && (forall id :: Safe(s, id))
    && (forall p | p in s.calls :: WellTimed(s.calls[p], s.now))
  }

  lemma InitInv(s: State)
    requires Init(s)
    ensures Inv(s)
  {
  }

  predicate OwnsNow(s: State, pid: nat, id: Id) {
    pid in s.calls && Owns(s.calls[pid], id)
  }

  function Count(b: bool): int {
    if b then 1 else 0
  }

  /** One call moves, and `id` at most changes hands between that call and the record. */
  ghost predicate HandsOver(s: State, t: State, pid: nat, id: Id) {
    && s.calls - {pid} == t.calls - {pid}
    && (OwnsNow(t, pid, id) ==>
        !MetaHeld(t, id) && id in t.sentinels && (OwnsNow(s, pid, id) || MetaHeld(s, id) || id !in s.sentinels))
    && (MetaHeld(t, id) ==>
        id in t.sentinels && !OwnsNow(t, pid, id) && (MetaHeld(s, id) || OwnsNow(s, pid, id)))
    && (id in s.sentinels && id !in t.sentinels ==> OwnsNow(s, pid, id) && !OwnsNow(t, pid, id))
    && Coherent(Current(t, id))
    && Recorded(s, t, id)
  }

  /** The log grew by an event that says how `id` changed hands, or not at all and it did not. */
  ghost predicate Recorded(s: State, t: State, id: Id) {
    || (t.log == s.log && MetaHeld(t, id) == MetaHeld(s, id))
    || (&& |t.log| == |s.log| + 1 && t.log[..|s.log|] == s.log
        && Weight(t.log[|s.log|], id) == Count(MetaHeld(t, id)) - Count(MetaHeld(s, id)))
  }

  lemma HandOverExclusive(s: State, t: State, pid: nat, id: Id)
    requires Exclusive(s, id) && HandsOver(s, t, pid, id)
    ensures Exclusive(t, id)
  {
    forall p | p in t.calls && p != pid
      ensures p in s.calls && s.calls[p] == t.calls[p]
    {
      assert p in t.calls - {pid} && (t.calls - {pid})[p] == t.calls[p];
    }
  }

  lemma HandOverAudited(s: State, t: State, pid: nat, id: Id)
    requires Audited(s, id) && HandsOver(s, t, pid, id)
    ensures Audited(t, id)
  {
    if t.log != s.log {
      forall k | 0 <= k <= |t.log|
        ensures 0 <= Balance(t.log[..k], id) <= 1
      {
        if k <= |s.log| {
          assert t.log[..k] == s.log[..k];
        } else {
          assert t.log[..k] == t.log;
        }
      }
    }
  }

  /** What of `Safe` the step of one call rests on. */
  predicate Placed(s: State, pid: nat, id: Id) {
    && pid in s.calls && Coherent(Current(s, id))
    && (MetaHeld(s, id) ==> id in s.sentinels)
    && (OwnsNow(s, pid, id) ==> id in s.sentinels && !MetaHeld(s, id))
  }

  lemma ClaimOpenHandsOver(s: State, pid: nat, id: Id)
    requires Placed(s, pid, id) && s.calls[pid].ClaimOpen?
    ensures HandsOver(s, ClaimStep(s, pid, s.calls[pid]), pid, id)
  {
    assert s.calls - {pid} == ClaimStep(s, pid, s.calls[pid]).calls - {pid};
  }

  lemma ClaimMetaHandsOver(s: State, pid: nat, id: Id)
    requires Placed(s, pid, id) && s.calls[pid].ClaimMeta?
    ensures HandsOver(s, ClaimStep(s, pid, s.calls[pid]), pid, id)
  {
    var t := ClaimStep(s, pid, s.calls[pid]);
    assert s.calls - {pid} == t.calls - {pid};
    assert t.log != s.log ==> |t.log| == |s.log| + 1 && t.log[..|s.log|] == s.log;
  }

  lemma ClaimHandsOver(s: State, pid: nat, id: Id)
    requires Placed(s, pid, id)
    requires s.calls[pid].ClaimOpen? || s.calls[pid].ClaimMeta? || s.calls[pid].ClaimRollback?
    ensures HandsOver(s, ClaimStep(s, pid, s.calls[pid]), pid, id)
  {
    if s.calls[pid].ClaimOpen? {
      ClaimOpenHandsOver(s, pid, id);
    } else if s.calls[pid].ClaimMeta? {
      ClaimMetaHandsOver(s, pid, id);
    } else {
      assert s.calls - {pid} == ClaimStep(s, pid, s.calls[pid]).calls - {pid};
    }
  }

  lemma RenewHandsOver(s: State, pid: nat, id: Id)
    requires Placed(s, pid, id)
    ensures HandsOver(s, RenewStep(s, pid, s.calls[pid]), pid, id)
  {
    var t := RenewStep(s, pid, s.calls[pid]);
    assert s.calls - {pid} == t.calls - {pid};
    assert t.log != s.log ==> |t.log| == |s.log| + 1 && t.log[..|s.log|] == s.log;
  }

  lemma ReleaseHandsOver(s: State, pid: nat, id: Id)
    requires Placed(s, pid, id) && WellTimed(s.calls[pid], s.now)
    ensures HandsOver(s, ReleaseStep(s, pid, s.calls[pid]), pid, id)
  {
    var t := ReleaseStep(s, pid, s.calls[pid]);
    assert s.calls - {pid} == t.calls - {pid};
    assert t.log != s.log ==> |t.log| == |s.log| + 1 && t.log[..|s.log|] == s.log;
  }

  lemma SweepLockHandsOver(s: State, pid: nat, id: Id)
    requires Placed(s, pid, id) && s.calls[pid].SweepLock?
    ensures HandsOver(s, SweepStep(s, pid, s.calls[pid]), pid, id)
  {
    var t := SweepStep(s, pid, s.calls[pid]);
    assert s.calls - {pid} == t.calls - {pid};
    assert !OwnsNow(s, pid, id) && s.sentinels == t.sentinels;
    assert t.log != s.log ==> |t.log| == |s.log| + 1 && t.log[..|s.log|] == s.log;
  }

  lemma SweepHandsOver(s: State, pid: nat, id: Id)
    requires Placed(s, pid, id)
    requires s.calls[pid].SweepScan? || s.calls[pid].SweepLock? || s.calls[pid].SweepFile?
    ensures HandsOver(s, SweepStep(s, pid, s.calls[pid]), pid, id)
  {
    if s.calls[pid].SweepLock? {
      SweepLockHandsOver(s, pid, id);
    } else {
      assert s.calls - {pid} == SweepStep(s, pid, s.calls[pid]).calls - {pid};
    }
  }

  lemma AdvanceHandsOver(s: State, pid: nat, id: Id)
    requires Safe(s, id) && pid in s.calls && WellTimed(s.calls[pid], s.now)
    ensures HandsOver(s, Advanced(s, pid), pid, id)
  {
    var op := s.calls[pid];
    assert Placed(s, pid, id);
    if op.ClaimOpen? || op.ClaimMeta? || op.ClaimRollback? {
      ClaimHandsOver(s, pid, id);
    } else if op.RenewMeta? || op.RenewFile? {
      RenewHandsOver(s, pid, id);
    } else if op.ReleaseMeta? || op.ReleaseFile? {
      ReleaseHandsOver(s, pid, id);
    } else {
      SweepHandsOver(s, pid, id);
    }
  }

  lemma AdvanceSafe(s: State, pid: nat, id: Id)
    requires Safe(s, id) && pid in s.calls && WellTimed(s.calls[pid], s.now)
    ensures Safe(Advanced(s, pid), id)
  {
    var t := Advanced(s, pid);
    AdvanceHandsOver(s, pid, id);
    HandOverExclusive(s, t, pid, id);
    HandOverAudited(s, t, pid, id);
  }

  lemma FailedSafe(s: State, pid: nat, id: Id)
    requires Safe(s, id) && pid in s.calls
    ensures Safe(Failed(s, pid), id)
  {
    var t := Failed(s, pid);
    assert OwnsNow(s, pid, id) ==> id in s.sentinels && !MetaHeld(s, id);
    assert s.calls - {pid} == t.calls - {pid};
    assert HandsOver(s, t, pid, id);
    HandOverExclusive(s, t, pid, id);
  }

  lemma WriteSafe(s: State, step: Step, t: State, id: Id)
    requires Safe(s, id) && Next(s, step, t) && (step.Enqueue? || step.HolderWrite?)
    ensures Safe(t, id)
  {
    assert MetaHeld(t, id) == MetaHeld(s, id);
  }

  lemma NextSafe(s: State, step: Step, t: State, id: Id)
    requires Safe(s, id) && Next(s, step, t)
    requires forall p | p in s.calls :: WellTimed(s.calls[p], s.now)
    ensures Safe(t, id)
  {
    match step
    case Advance(pid) => AdvanceSafe(s, pid, id);
    case IoFailure(pid) => FailedSafe(s, pid, id);
    case Enqueue(_, _) => WriteSafe(s, step, t, id);
    case HolderWrite(_, _) => WriteSafe(s, step, t, id);
    case _ =>
  }

  lemma AdvanceWellTimed(s: State, pid: nat)
    requires pid in s.calls && WellTimed(s.calls[pid], s.now)
    ensures pid in Advanced(s, pid).calls ==> WellTimed(Advanced(s, pid).calls[pid], s.now)
    ensures Advanced(s, pid).calls - {pid} == s.calls - {pid} && Advanced(s, pid).now == s.now
  {
  }

  lemma NextWellTimed(s: State, step: Step, t: State, p: nat)
    requires forall p | p in s.calls :: WellTimed(s.calls[p], s.now)
    requires Next(s, step, t) && p in t.calls
    ensures WellTimed(t.calls[p], t.now)
  {
    if step.Advance? {
      AdvanceWellTimed(s, step.pid);
      if p != step.pid {
        assert p in t.calls - {step.pid} && (t.calls - {step.pid})[p] == t.calls[p];
        assert p in s.calls;
      }
    }
  }

  /** Every step of every call, in any order, keeps the invariant. */
  lemma NextInv(s: State, step: Step, t: State)
    requires Inv(s) && Next(s, step, t)
    ensures Inv(t)
  {
    forall id ensures Safe(t, id) {
      assert Safe(s, id);
      NextSafe(s, step, t, id);
    }
    forall p | p in t.calls ensures WellTimed(t.calls[p], t.now) {
      NextWellTimed(s, step, t, p);
    }
  }

  // ---------------------------------------------------------------- what one step does to a record

  /** The record of `id` does not change, and nothing is logged about it. */
  ghost predicate Untouched(s: State, t: State, id: Id) {
    && Current(t, id) == Current(s, id)
    && (t.log == s.log || (Grew(s, t) && t.log[|s.log|].id != id))
  }

  predicate Grew(s: State, t: State) {
    |t.log| == |s.log| + 1 && t.log[..|s.log|] == s.log
  }

  /** The logged change, and what it demanded of the record before it. */
  predicate Logged(d: Dispatch, d': Dispatch, event: Event, now: int) {
    match event
    case Won(_, e, deadline) =>
      d.status == Pending && !Held(d) && d'.status == Claimed && d'.claimedBy == e && d'.leaseUntil == Some(deadline)
    case Renewed(_, e, deadline) =>
      d.claimedBy == e && d.status == Claimed && d' == d.(leaseUntil := Some(deadline))
    case Released(_, e) =>
      d.claimedBy == e && Finished(d') && d'.usage == d.usage && d'.denyReason == d.denyReason
    case Requeued(_) =>
      Expired(d, now) && d' == Requeue(d)
  }

  /** Everything a step can do to the record of `id`. */
  ghost predicate RecordStep(s: State, t: State, id: Id) {
    || Untouched(s, t, id)
    || (t.log == s.log && !Held(Current(s, id)) && !Held(Current(t, id))
        && !(id in s.files && s.files[id].Record?) && Current(t, id).leaseUntil.None?)
    || (t.log == s.log && Held(Current(s, id))
        && Current(t, id).claimedBy == Current(s, id).claimedBy
        && Current(t, id).leaseUntil == Current(s, id).leaseUntil)
    || (Grew(s, t) && t.log[|s.log|].id == id && Logged(Current(s, id), Current(t, id), t.log[|s.log|], s.now))
  }

  lemma ClaimRecord(s: State, pid: nat, id: Id)
    requires Placed(s, pid, id)
    ensures RecordStep(s, ClaimStep(s, pid, s.calls[pid]), id)
  {
    var t := ClaimStep(s, pid, s.calls[pid]);
    assert t.log == s.log || Grew(s, t);
  }

  lemma RenewRecord(s: State, pid: nat, id: Id)
    requires Placed(s, pid, id)
    ensures RecordStep(s, RenewStep(s, pid, s.calls[pid]), id)
  {
    var t := RenewStep(s, pid, s.calls[pid]);
    assert t.log == s.log || Grew(s, t);
  }

  lemma ReleaseRecord(s: State, pid: nat, id: Id)
    requires Placed(s, pid, id) && WellTimed(s.calls[pid], s.now)
    ensures RecordStep(s, ReleaseStep(s, pid, s.calls[pid]), id)
  {
    var t := ReleaseStep(s, pid, s.calls[pid]);
    assert t.log == s.log || Grew(s, t);
  }

  lemma SweepRecord(s: State, pid: nat, id: Id)
    requires Placed(s, pid, id) && WellTimed(s.calls[pid], s.now)
    ensures RecordStep(s, SweepStep(s, pid, s.calls[pid]), id)
  {
    var t := SweepStep(s, pid, s.calls[pid]);
    assert t.log == s.log || Grew(s, t);
  }

  lemma NextRecord(s: State, step: Step, t: State, id: Id)
    requires Inv(s) && Next(s, step, t)
    ensures RecordStep(s, t, id)
    ensures s.now <= t.now
  {
    assert Safe(s, id);
    match step
    case Advance(pid) =>
      assert Placed(s, pid, id);
      ClaimRecord(s, pid, id);
      RenewRecord(s, pid, id);
      ReleaseRecord(s, pid, id);
      SweepRecord(s, pid, id);
      AdvanceWellTimed(s, pid);
    case _ =>
  }

  // ---------------------------------------------------------------- whole runs

  datatype Run = Run(states: seq<State>, steps: seq<Step>)

  /** Any finite interleaving, from any initial store. */
  ghost predicate ValidRun(run: Run) {
    && |run.states| == |run.steps| + 1
    && Init(run.states[0])
    && forall i | 0 <= i < |run.steps| :: Follows(run, i)
  }

  ghost predicate Follows(run: Run, i: nat)
    requires i < |run.steps| && |run.states| == |run.steps| + 1
  {
    Next(run.states[i], run.steps[i], run.states[i + 1])
  }

  lemma {:induction false} RunInv(run: Run, i: nat)
    requires ValidRun(run) && i < |run.states|
    ensures Inv(run.states[i])
  {
    if i == 0 {
      InitInv(run.states[0]);
    } else {
      RunInv(run, i - 1);
      assert Follows(run, i - 1);
      NextInv(run.states[i - 1], run.steps[i - 1], run.states[i]);
    }
  }

  lemma RunStep(run: Run, i: nat, id: Id)
    requires ValidRun(run) && i < |run.steps|
    ensures RecordStep(run.states[i], run.states[i + 1], id) && Coherent(Current(run.states[i], id))
    ensures run.states[i].now <= run.states[i + 1].now
  {
    RunInv(run, i);
    assert Safe(run.states[i], id);
    assert Follows(run, i);
    NextRecord(run.states[i], run.steps[i], run.states[i + 1], id);
  }

  lemma {:induction false} RunLog(run: Run, i: nat, j: nat, id: Id)
    requires ValidRun(run) && i <= j < |run.states|
    ensures Prolongs(run.states[i].log, run.states[j].log)
    ensures run.states[i].now <= run.states[j].now
    decreases j
  {
    if i < j {
      RunLog(run, i, j - 1, id);
      StepLog(run, j - 1, id);
      GrewTransitive(run.states[i].log, run.states[j - 1].log, run.states[j].log);
    }
  }

  ghost predicate Prolongs(a: seq<Event>, b: seq<Event>) {
    |a| <= |b| && b[..|a|] == a
  }

  lemma StepLog(run: Run, i: nat, id: Id)
    requires ValidRun(run) && i < |run.steps|
    ensures Prolongs(run.states[i].log, run.states[i + 1].log) && run.states[i].now <= run.states[i + 1].now
  {
    RunStep(run, i, id);
  }

  lemma GrewTransitive(a: seq<Event>, b: seq<Event>, c: seq<Event>)
    requires Prolongs(a, b) && Prolongs(b, c)
    ensures Prolongs(a, c)
  {
    assert c[..|b|][..|a|] == c[..|a|];
  }

  /**
   * In every interleaving: a claimed or leased record has its sentinel file, at most one call is in
   * the middle of handing it over, and none is while the record names a holder.
   */
  lemma MutualExclusion(run: Run, i: nat, id: Id)
    requires ValidRun(run) && i < |run.states|
    ensures var s := run.states[i];
      && (Current(s, id).status == Claimed || Current(s, id).leaseUntil.Some? ==> id in s.sentinels)
      && (forall p | p in s.calls && Owns(s.calls[p], id) :: id in s.sentinels && !MetaHeld(s, id))
      && (forall p, q | p in s.calls && q in s.calls && Owns(s.calls[p], id) && Owns(s.calls[q], id) :: p == q)
  {
    RunInv(run, i);
    assert Safe(run.states[i], id);
  }

  lemma {:induction false} BalanceStretch(log: seq<Event>, i: nat, j: nat, id: Id)
    requires i <= j <= |log|
    requires forall k | i <= k < j :: Weight(log[k], id) >= 0
    ensures Balance(log[..i], id) <= Balance(log[..j], id)
    decreases j
  {
    if i < j {
      BalanceStretch(log, i, j - 1, id);
      assert log[..j][..j - 1] == log[..j - 1];
    }
  }

  /** Between two wins of the same dispatch there is a release or a requeue of it. */
  lemma NoDoubleWin(run: Run, n: nat, i: nat, j: nat, id: Id)
    requires ValidRun(run) && n < |run.states|
    requires i < j < |run.states[n].log|
    requires run.states[n].log[i].Won? && run.states[n].log[i].id == id
    requires run.states[n].log[j].Won? && run.states[n].log[j].id == id
    ensures exists k :: i < k < j && run.states[n].log[k].id == id
                     && (run.states[n].log[k].Released? || run.states[n].log[k].Requeued?)
  {
    var log := run.states[n].log;
    RunInv(run, n);
    assert Safe(run.states[n], id);
    assert log[..i + 1][..i] == log[..i] && log[..j + 1][..j] == log[..j];
    if forall k | i + 1 <= k < j :: Weight(log[k], id) >= 0 {
      BalanceStretch(log, i + 1, j, id);
      assert false;
    }
  }

  datatype Kind = Wins | Releases | Requeues

  predicate IsKind(event: Event, kind: Kind) {
    match kind
    case Wins => event.Won?
    case Releases => event.Released?
    case Requeues => event.Requeued?
  }

  /** How often something of this kind happened to `id`. */
  function Tally(log: seq<Event>, kind: Kind, id: Id): nat {
    if log == [] then 0
    else Tally(log[..|log| - 1], kind, id)
         + (if log[|log| - 1].id == id && IsKind(log[|log| - 1], kind) then 1 else 0)
  }

  lemma {:induction false} BalanceIsTally(log: seq<Event>, id: Id)
    ensures Balance(log, id) == Tally(log, Wins, id) - Tally(log, Releases, id) - Tally(log, Requeues, id)
  {
    if log != [] {
      BalanceIsTally(log[..|log| - 1], id);
    }
  }

  /** Every claim won was given back exactly once, except the one in force. */
  lemma ClaimsConserved(run: Run, i: nat, id: Id)
    requires ValidRun(run) && i < |run.states|
    ensures var s := run.states[i];
      Tally(s.log, Wins, id) == Tally(s.log, Releases, id) + Tally(s.log, Requeues, id)
                                + (if MetaHeld(s, id) then 1 else 0)
  {
    RunInv(run, i);
    assert Safe(run.states[i], id);
    BalanceIsTally(run.states[i].log, id);
  }

  /** Nothing was logged of `id` from event `n` on. */
  ghost predicate QuietSince(log: seq<Event>, n: nat, id: Id) {
    forall k | n <= k < |log| :: log[k].id != id
  }

  lemma {:induction false} FinishedStays(run: Run, i: nat, j: nat, id: Id)
    requires ValidRun(run) && i <= j < |run.states|
    requires Finished(Current(run.states[i], id))
    ensures Current(run.states[j], id) == Current(run.states[i], id)
    ensures QuietSince(run.states[j].log, |run.states[i].log|, id)
    decreases j
  {
    if i < j {
      FinishedStays(run, i, j - 1, id);
      FinishedNext(run, i, j - 1, id);
    }
  }

  /** A released record stays as it is: no claim, requeue, renewal or rewrite ever reaches it. */
  lemma FinishedForever(run: Run, i: nat, j: nat, id: Id)
    requires ValidRun(run) && i <= j < |run.states|
    requires Terminal(Current(run.states[i], id).status) && Current(run.states[i], id).claimedBy == ""
    requires Current(run.states[i], id).leaseUntil.None?
    ensures Current(run.states[j], id) == Current(run.states[i], id)
    ensures forall k | |run.states[i].log| <= k < |run.states[j].log| :: run.states[j].log[k].id != id
  {
    FinishedStays(run, i, j, id);
  }

  lemma FinishedNext(run: Run, i: nat, j: nat, id: Id)
    requires ValidRun(run) && i <= j < |run.steps|
    requires Finished(Current(run.states[j], id)) && QuietSince(run.states[j].log, |run.states[i].log|, id)
    ensures Current(run.states[j + 1], id) == Current(run.states[j], id)
    ensures QuietSince(run.states[j + 1].log, |run.states[i].log|, id)
  {
    RunLog(run, i, j, id);
    RunStep(run, j, id);
    FinishedStep(run.states[j], run.states[j + 1], id);
    QuietLonger(run.states[j].log, run.states[j + 1].log, |run.states[i].log|, id);
  }

  lemma FinishedStep(s: State, t: State, id: Id)
    requires RecordStep(s, t, id) && Finished(Current(s, id)) && Coherent(Current(s, id))
    ensures Current(t, id) == Current(s, id) && Prolongs(s.log, t.log)
    ensures QuietSince(t.log, |s.log|, id)
  {
  }

  lemma QuietLonger(a: seq<Event>, b: seq<Event>, n: nat, id: Id)
    requires Prolongs(a, b) && n <= |a|
    requires QuietSince(b, |a|, id)
    ensures QuietSince(b, n, id) <==> QuietSince(a, n, id)
  {
    assert forall k | 0 <= k < |a| :: b[k] == b[..|a|][k];
  }

  /** A logged release left the record finished, and nothing has been logged of it since. */
  lemma {:induction false} ReleasedFinal(run: Run, i: nat, k: nat, id: Id)
    requires ValidRun(run) && i < |run.states|
    requires k < |run.states[i].log| && run.states[i].log[k].Released? && run.states[i].log[k].id == id
    ensures Finished(Current(run.states[i], id))
    ensures QuietSince(run.states[i].log, k + 1, id)
  {
    if i > 0 {
      var before, after := run.states[i - 1].log, run.states[i].log;
      StepLog(run, i - 1, id);
      if k < |before| {
        assert after[k] == before[k];
        ReleasedFinal(run, i - 1, k, id);
        FinishedStays(run, i - 1, i, id);
        QuietLonger(before, after, k + 1, id);
      } else {
        RunStep(run, i - 1, id);
      }
    }
  }

  /** From a logged release on: no claim, requeue, renewal or rewrite ever reaches the dispatch again. */
  lemma ReleasedForever(run: Run, i: nat, j: nat, k: nat, id: Id)
    requires ValidRun(run) && i <= j < |run.states|
    requires k < |run.states[i].log| && run.states[i].log[k].Released? && run.states[i].log[k].id == id
    ensures Finished(Current(run.states[i], id)) && Current(run.states[j], id) == Current(run.states[i], id)
    ensures forall m | k < m < |run.states[j].log| :: run.states[j].log[m].id != id
  {
    ReleasedFinal(run, i, k, id);
    FinishedStays(run, i, j, id);
    RunLog(run, i, j, id);
    QuietLonger(run.states[i].log, run.states[j].log, k + 1, id);
  }

  /** `e` holds `id` under a lease that runs at least until `moment`. */
  predicate Leased(s: State, id: Id, e: Executor, moment: int) {
    var d := Current(s, id);
    d.claimedBy == e && d.leaseUntil.Some? && moment <= d.leaseUntil.value
  }

  /** The only events a lease does not survive: a release, or a renewal to an earlier deadline. */
  predicate Keeps(event: Event, moment: int) {
    !event.Released? && (event.Renewed? ==> moment <= event.deadline)
  }

  lemma LeaseStep(s: State, t: State, id: Id, e: Executor, moment: int)
    requires RecordStep(s, t, id) && s.now <= moment && Leased(s, id, e, moment)
    requires Coherent(Current(s, id))
    requires Grew(s, t) && t.log[|s.log|].id == id ==> Keeps(t.log[|s.log|], moment)
    ensures Leased(t, id, e, moment)
    ensures t.log == s.log || Grew(s, t)
    ensures Grew(s, t) && t.log[|s.log|].id == id ==> t.log[|s.log|].Renewed? && t.log[|s.log|].e == e
  {
  }

  lemma {:induction false} LeaseStays(run: Run, i: nat, j: nat, id: Id, e: Executor, moment: int)
    requires ValidRun(run) && i <= j < |run.states|
    requires Leased(run.states[i], id, e, moment) && run.states[j].now <= moment
    requires KeptSince(run.states[j].log, |run.states[i].log|, id, moment)
    ensures Leased(run.states[j], id, e, moment) && RenewedSince(run.states[j].log, |run.states[i].log|, id, e)
    decreases j
  {
    if i < j {
      KeptBefore(run, i, j - 1, id, moment);
      LeaseStays(run, i, j - 1, id, e, moment);
      LeaseKept(run, j - 1, |run.states[i].log|, id, e, moment);
    }
  }

  /**
   * A lease is honoured: whoever holds a dispatch with a deadline no earlier than `moment` still holds it
   * in every later state whose clock has not passed `moment`, unless the holder released it or renewed it
   * to an earlier deadline. Sweeps act on a time captured before their scan; they never act early.
   */
  lemma LeaseHonoured(run: Run, i: nat, j: nat, id: Id, e: Executor, moment: int)
    requires ValidRun(run) && i <= j < |run.states|
    requires Leased(run.states[i], id, e, moment) && run.states[j].now <= moment
    requires forall k | |run.states[i].log| <= k < |run.states[j].log| && run.states[j].log[k].id == id ::
      !run.states[j].log[k].Released? && (run.states[j].log[k].Renewed? ==> moment <= run.states[j].log[k].deadline)
    ensures Current(run.states[j], id).claimedBy == e && Current(run.states[j], id).leaseUntil.Some?
    ensures moment <= Current(run.states[j], id).leaseUntil.value
    ensures forall k | |run.states[i].log| <= k < |run.states[j].log| && run.states[j].log[k].id == id ::
      run.states[j].log[k].Renewed? && run.states[j].log[k].e == e
  {
    LeaseStays(run, i, j, id, e, moment);
  }

  lemma KeptBefore(run: Run, i: nat, j: nat, id: Id, moment: int)
    requires ValidRun(run) && i <= j < |run.steps|
    requires run.states[j + 1].now <= moment && KeptSince(run.states[j + 1].log, |run.states[i].log|, id, moment)
    ensures |run.states[i].log| <= |run.states[j].log| && run.states[j].now <= moment
    ensures KeptSince(run.states[j].log, |run.states[i].log|, id, moment)
  {
    RunLog(run, i, j, id);
    StepLog(run, j, id);
    KeptPrefix(run.states[j].log, run.states[j + 1].log, |run.states[i].log|, id, moment);
  }

  ghost predicate KeptSince(log: seq<Event>, n: nat, id: Id, moment: int) {
    forall k | n <= k < |log| && log[k].id == id :: Keeps(log[k], moment)
  }

  lemma KeptPrefix(a: seq<Event>, b: seq<Event>, n: nat, id: Id, moment: int)
    requires Prolongs(a, b) && KeptSince(b, n, id, moment)
    ensures KeptSince(a, n, id, moment)
  {
    assert forall k | 0 <= k < |a| :: a[k] == b[k];
  }

  /** Everything logged of a dispatch from event `n` on is a renewal by `e`. */
  ghost predicate RenewedSince(log: seq<Event>, n: nat, id: Id, e: Executor) {
    forall k | n <= k < |log| && log[k].id == id :: log[k].Renewed? && log[k].e == e
  }

  lemma LeaseKept(run: Run, i: nat, n: nat, id: Id, e: Executor, moment: int)
    requires ValidRun(run) && i < |run.steps| && n <= |run.states[i].log|
    requires Leased(run.states[i], id, e, moment) && run.states[i].now <= moment
    requires RenewedSince(run.states[i].log, n, id, e) && KeptSince(run.states[i + 1].log, n, id, moment)
    ensures Leased(run.states[i + 1], id, e, moment) && RenewedSince(run.states[i + 1].log, n, id, e)
  {
    RunStep(run, i, id);
    LeaseStep(run.states[i], run.states[i + 1], id, e, moment);
  }

  /** Only a lease that has run out is ever taken back; a record without a lease never is. */
  lemma RequeueOnlyExpired(run: Run, i: nat, id: Id)
    requires ValidRun(run) && i < |run.steps|
    requires |run.states[i].log| < |run.states[i + 1].log| && run.states[i + 1].log[|run.states[i].log|] == Requeued(id)
    ensures var d := Current(run.states[i], id);
      d.status in {Claimed, Running} && d.leaseUntil.Some? && d.leaseUntil.value < run.states[i].now
    ensures Current(run.states[i + 1], id) == Requeue(Current(run.states[i], id))
  {
    RunStep(run, i, id);
  }

  // ---------------------------------------------------------------- where the protocol falls short

  ghost predicate Unowned(s: State, id: Id) {
    forall p | p in s.calls :: !Owns(s.calls[p], id)
  }

  /** Pending, yet behind a sentinel that no call in progress is going to remove. */
  ghost predicate Orphaned(s: State, id: Id) {
    Current(s, id).status == Pending && id in s.sentinels && Unowned(s, id)
  }

  /** A pending record behind a sentinel, which the caller does not own. */
  predicate Blocked(s: State, pid: nat, id: Id) {
    Current(s, id).status == Pending && id in s.sentinels && !OwnsNow(s, pid, id)
  }

  /** What a caller's step can leave blocked: what was, and what its renewal has just put a sentinel in front of. */
  predicate BlocksNext(s: State, pid: nat, id: Id)
    requires pid in s.calls
  {
    Current(s, id).status == Pending && !OwnsNow(s, pid, id) && (id in s.sentinels || s.calls[pid] == RenewFile(id))
  }

  lemma ClaimBlocks(s: State, pid: nat, id: Id)
    requires Placed(s, pid, id)
    requires s.calls[pid].ClaimOpen? || s.calls[pid].ClaimMeta? || s.calls[pid].ClaimRollback?
    ensures Blocked(ClaimStep(s, pid, s.calls[pid]), pid, id) <==> BlocksNext(s, pid, id)
  {
  }

  lemma RenewBlocks(s: State, pid: nat, id: Id)
    requires Placed(s, pid, id) && (s.calls[pid].RenewMeta? || s.calls[pid].RenewFile?)
    ensures Blocked(RenewStep(s, pid, s.calls[pid]), pid, id) <==> BlocksNext(s, pid, id)
  {
  }

  lemma ReleaseBlocks(s: State, pid: nat, id: Id)
    requires Placed(s, pid, id) && WellTimed(s.calls[pid], s.now)
    requires s.calls[pid].ReleaseMeta? || s.calls[pid].ReleaseFile?
    ensures Blocked(ReleaseStep(s, pid, s.calls[pid]), pid, id) <==> BlocksNext(s, pid, id)
  {
  }

  lemma SweepBlocks(s: State, pid: nat, id: Id)
    requires Placed(s, pid, id)
    requires s.calls[pid].SweepScan? || s.calls[pid].SweepLock? || s.calls[pid].SweepFile?
    ensures Blocked(SweepStep(s, pid, s.calls[pid]), pid, id) <==> BlocksNext(s, pid, id)
  {
  }

  lemma AdvanceBlocks(s: State, pid: nat, id: Id)
    requires Safe(s, id) && pid in s.calls && WellTimed(s.calls[pid], s.now)
    ensures Blocked(Advanced(s, pid), pid, id) <==> BlocksNext(s, pid, id)
  {
    var op := s.calls[pid];
    assert Placed(s, pid, id);
    if op.ClaimOpen? || op.ClaimMeta? || op.ClaimRollback? {
      ClaimBlocks(s, pid, id);
    } else if op.RenewMeta? || op.RenewFile? {
      RenewBlocks(s, pid, id);
    } else if op.ReleaseMeta? || op.ReleaseFile? {
      ReleaseBlocks(s, pid, id);
    } else {
      SweepBlocks(s, pid, id);
    }
  }

  lemma OrphanStep(s: State, step: Step, t: State, id: Id)
    requires Orphaned(s, id) && Safe(s, id) && Next(s, step, t)
    requires forall p | p in s.calls :: WellTimed(s.calls[p], s.now)
    ensures Orphaned(t, id)
  {
    match step
    case Advance(pid) =>
      AdvanceBlocks(s, pid, id);
      AdvanceWellTimed(s, pid);
      forall p | p in t.calls && p != pid ensures !Owns(t.calls[p], id) {
        assert p in t.calls - {pid} && (t.calls - {pid})[p] == t.calls[p];
        assert p in s.calls;
      }
    case _ =>
  }

  /**
   * The steps that orphan a dispatch: a renewal's late file write, a death or a failed removal while a
   * pending record's sentinel is being taken away or put up, and a new record behind a stray sentinel.
   */
  ghost predicate MakesOrphan(s: State, step: Step, id: Id) {
    match step
    case Advance(pid) => pid in s.calls && s.calls[pid] == RenewFile(id) && Current(s, id).status == Pending && Unowned(s, id)
    case Crash(pid) => OwnsNow(s, pid, id) && Current(s, id).status == Pending
    case IoFailure(pid) => OwnsNow(s, pid, id) && !s.calls[pid].ClaimMeta? && Current(s, id).status == Pending
    case Enqueue(i, d) => i == id && d.status == Pending && id in s.sentinels && Unowned(s, id)
    case _ => false
  }

  /** The other calls in progress are the same before and after. */
  lemma OthersUnowned(s: State, t: State, pid: nat, id: Id)
    requires s.calls - {pid} == t.calls - {pid}
    ensures Unowned(t, id) <==> Unowned(Finish(t, pid), id) && !OwnsNow(t, pid, id)
    ensures Unowned(s, id) <==> Unowned(Finish(t, pid), id) && !OwnsNow(s, pid, id)
  {
    assert Finish(s, pid).calls == Finish(t, pid).calls;
    forall p | p in s.calls && p != pid ensures p in Finish(t, pid).calls && Finish(t, pid).calls[p] == s.calls[p] {
      assert p in s.calls - {pid};
    }
    forall p | p in t.calls && p != pid ensures p in Finish(t, pid).calls && Finish(t, pid).calls[p] == t.calls[p] {
      assert p in t.calls - {pid};
    }
    assert forall p | p in Finish(t, pid).calls :: p != pid && p in t.calls && p in s.calls;
  }

  lemma OwnerAlone(s: State, pid: nat, id: Id)
    requires Safe(s, id) && OwnsNow(s, pid, id)
    ensures Unowned(Finish(s, pid), id) && id in s.sentinels
  {
  }

  lemma AdvanceOrphans(s: State, pid: nat, id: Id)
    requires Safe(s, id) && !Orphaned(s, id) && pid in s.calls && WellTimed(s.calls[pid], s.now)
    ensures Orphaned(Advanced(s, pid), id) <==> MakesOrphan(s, Advance(pid), id)
  {
    var t := Advanced(s, pid);
    AdvanceWellTimed(s, pid);
    OthersUnowned(s, t, pid, id);
    AdvanceBlocks(s, pid, id);
    assert Orphaned(t, id) <==> Blocked(t, pid, id) && Unowned(Finish(t, pid), id);
  }

  lemma FailureOrphans(s: State, t: State, pid: nat, id: Id)
    requires Safe(s, id) && !Orphaned(s, id) && pid in s.calls
    requires t == Finish(s, pid) || t == Failed(s, pid)
    ensures Orphaned(t, id) <==>
      OwnsNow(s, pid, id) && Current(s, id).status == Pending && !OwnsNow(t, pid, id)
  {
    assert s.calls - {pid} == t.calls - {pid};
    OthersUnowned(s, t, pid, id);
    if OwnsNow(s, pid, id) {
      OwnerAlone(s, pid, id);
    }
  }

  /** Exactly which steps orphan a dispatch that was not orphaned. */
  lemma OrphanMadeBy(s: State, step: Step, t: State, id: Id)
    requires Inv(s) && Next(s, step, t) && !Orphaned(s, id)
    ensures Orphaned(t, id) <==> MakesOrphan(s, step, id)
  {
    assert Safe(s, id);
    match step
    case Advance(pid) => AdvanceOrphans(s, pid, id);
    case Crash(pid) => FailureOrphans(s, t, pid, id);
    case IoFailure(pid) => FailureOrphans(s, t, pid, id);
    case Begin(pid, op) =>
      assert s.calls - {pid} == t.calls - {pid};
      OthersUnowned(s, t, pid, id);
    case _ => assert t.calls == s.calls;
  }

  /** Such a dispatch is never claimed again, whoever tries and whatever else happens. */
  lemma {:induction false} OrphanForever(run: Run, i: nat, j: nat, id: Id)
    requires ValidRun(run) && i <= j < |run.states|
    requires Orphaned(run.states[i], id)
    ensures Orphaned(run.states[j], id)
    decreases j
  {
    if i < j {
      OrphanForever(run, i, j - 1, id);
      RunInv(run, j - 1);
      assert Safe(run.states[j - 1], id) && Follows(run, j - 1);
      OrphanStep(run.states[j - 1], run.steps[j - 1], run.states[j], id);
    }
  }

  function Extend(run: Run, step: Step, t: State): Run {
    Run(run.states + [t], run.steps + [step])
  }

  lemma ExtendValid(run: Run, step: Step, t: State)
    requires ValidRun(run) && Next(run.states[|run.states| - 1], step, t)
    ensures ValidRun(Extend(run, step, t))
  {
    var longer := Extend(run, step, t);
    forall i | 0 <= i < |longer.steps| ensures Follows(longer, i) {
      if i < |run.steps| {
        assert Follows(run, i);
      }
    }
  }

  lemma Take(run: Run, step: Step, t: State) returns (longer: Run)
    requires ValidRun(run) && Next(run.states[|run.states| - 1], step, t)
    ensures ValidRun(longer) && longer.states[|longer.states| - 1] == t
  {
    longer := Extend(run, step, t);
    ExtendValid(run, step, t);
  }

  const PENDING_RECORD := Dispatch(Pending, "", None, None, "", "", Usage(0, 0, ""))

  function HeldBy(e: Executor, until: int): Dispatch {
    PENDING_RECORD.(status := Claimed, claimedBy := e, leaseUntil := Some(until))
  }

  /** Claimed until 1 and renewed until 5, at time 6, with the renewal about to rewrite the sentinel. */
  function Renewing(id: Id, e: Executor): State {
    State(6, map[id := Record(HeldBy(e, 5))], {id},
          map[1 := RenewFile(id)], [Won(id, e, 1), Renewed(id, e, 5)])
  }

  /** The same at time 0, the renewal not yet begun. */
  function ClaimedOnce(id: Id, e: Executor): State {
    State(0, map[id := Record(HeldBy(e, 1))], {id},
          map[], [Won(id, e, 1)])
  }

  lemma ClaimedReachable(id: Id, e: Executor) returns (run: Run)
    ensures ValidRun(run) && run.states[|run.states| - 1] == ClaimedOnce(id, e)
  {
    var s0 := State(0, map[id := Record(PENDING_RECORD)], {}, map[], []);
    run := Run([s0], []);
    var s1 := s0.(calls := map[0 := ClaimOpen(id, e, 1)]);
    run := Take(run, Begin(0, ClaimOpen(id, e, 1)), s1);
    var s2 := s1.(sentinels := {id}, calls := map[0 := ClaimMeta(id, e, 1)]);
    run := Take(run, Advance(0), s2);
    run := Take(run, Advance(0), ClaimedOnce(id, e));
  }

  lemma RenewingReachable(id: Id, e: Executor) returns (run: Run)
    ensures ValidRun(run) && run.states[|run.states| - 1] == Renewing(id, e)
  {
    run := ClaimedReachable(id, e);
    var s := ClaimedOnce(id, e).(calls := map[1 := RenewMeta(id, e, 5)]);
    run := Take(run, Begin(1, RenewMeta(id, e, 5)), s);
    run := Take(run, Advance(1), Renewing(id, e).(now := 0));
    run := Take(run, Tick(6), Renewing(id, e));
  }

  /** The sweep has requeued the dispatch, and is about to remove its sentinel. */
  function Sweeping(id: Id, e: Executor): State {
    Renewing(id, e).(files := map[id := Record(PENDING_RECORD)],
                     calls := map[1 := RenewFile(id), 2 := SweepFile(6, [id])],
                     log := [Won(id, e, 1), Renewed(id, e, 5), Requeued(id)])
  }

  lemma SweepingReachable(id: Id, e: Executor) returns (run: Run)
    ensures ValidRun(run) && run.states[|run.states| - 1] == Sweeping(id, e)
  {
    run := RenewingReachable(id, e);
    var s1 := Renewing(id, e).(calls := map[1 := RenewFile(id), 2 := SweepScan(6, [id])]);
    run := Take(run, Begin(2, SweepScan(6, [id])), s1);
    var s2 := s1.(calls := map[1 := RenewFile(id), 2 := SweepLock(6, [id])]);
    run := Take(run, Advance(2), s2);
    run := Take(run, Advance(2), Sweeping(id, e));
  }

  /**
   * It does happen: a renewal whose deadline is recorded, then overtaken by an expiry, rewrites the
   * sentinel the sweep had just removed.
   */
  lemma OrphanReachable(id: Id, e: Executor) returns (run: Run)
    ensures ValidRun(run) && Orphaned(run.states[|run.states| - 1], id)
    ensures run.states[|run.states| - 1].calls == map[]
  {
    run := SweepingReachable(id, e);
    var s1 := Sweeping(id, e).(sentinels := {}, calls := map[1 := RenewFile(id), 2 := SweepScan(6, [])]);
    assert {id} - {id} == {} && [id][1..] == [];
    run := Take(run, Advance(2), s1);
    var s2 := s1.(sentinels := {id}, calls := map[2 := SweepScan(6, [])]);
    run := Take(run, Advance(1), s2);
    run := Take(run, Advance(2), s2.(calls := map[]));
  }

  function Rewritten(s: State, id: Id, read: Dispatch): State {
    s.(files := s.files[id := Record(read)])
  }

  /**
   * The pool rewrites a record it read earlier. Such a write keeps the protocol's invariant exactly when
   * the record still names a holder at the moment of the write; it is a step the protocol allows exactly
   * when that holder and its lease are the ones that were read.
   */
  lemma StaleWrite(s: State, id: Id, read: Dispatch)
    requires Safe(s, id) && Held(read) && Coherent(read)
    ensures Safe(Rewritten(s, id, read), id) <==> MetaHeld(s, id)
    ensures RecordStep(s, Rewritten(s, id, read), id) <==>
      MetaHeld(s, id) && read.claimedBy == Current(s, id).claimedBy && read.leaseUntil == Current(s, id).leaseUntil
  {
    var t := Rewritten(s, id, read);
    assert MetaHeld(t, id);
    if MetaHeld(s, id) {
      assert forall p | p in t.calls :: !Owns(t.calls[p], id);
    }
  }

  /** It takes no lease away exactly when it names the holder and a deadline no earlier than the record's. */
  lemma StaleWriteLease(s: State, id: Id, read: Dispatch)
    requires Safe(s, id) && Held(read) && Coherent(read)
    ensures (forall e, moment :: Leased(s, id, e, moment) ==> Leased(Rewritten(s, id, read), id, e, moment)) <==>
      var d := Current(s, id);
      d.leaseUntil.Some? ==>
        read.claimedBy == d.claimedBy && read.leaseUntil.Some? && d.leaseUntil.value <= read.leaseUntil.value
  {
    var d := Current(s, id);
    if d.leaseUntil.Some? {
      var e: Executor := d.claimedBy;
      assert Leased(s, id, e, d.leaseUntil.value);
    }
  }

  /** Some state of the run had this record. */
  ghost predicate Seen(run: Run, id: Id, d: Dispatch) {
    exists i :: 0 <= i < |run.states| && Current(run.states[i], id) == d
  }

  lemma TakeOn(run: Run, step: Step, t: State, id: Id, d: Dispatch) returns (longer: Run)
    requires ValidRun(run) && Next(run.states[|run.states| - 1], step, t) && Seen(run, id, d)
    ensures ValidRun(longer) && longer.states[|longer.states| - 1] == t && Seen(longer, id, d)
  {
    longer := Extend(run, step, t);
    ExtendValid(run, step, t);
    var i :| 0 <= i < |run.states| && Current(run.states[i], id) == d;
    assert longer.states[i] == run.states[i];
  }

  /** Claimed by `e` until 1, and a sweep at 2 about to requeue it. */
  lemma SweepReachable(id: Id, e: Executor) returns (run: Run)
    ensures ValidRun(run) && Seen(run, id, HeldBy(e, 1))
    ensures run.states[|run.states| - 1] == ClaimedOnce(id, e).(now := 2, calls := map[0 := SweepLock(2, [id])])
  {
    run := ClaimedReachable(id, e);
    assert Current(run.states[|run.states| - 1], id) == HeldBy(e, 1);
    var s := ClaimedOnce(id, e).(now := 2);
    run := TakeOn(run, Tick(2), s, id, HeldBy(e, 1));
    run := TakeOn(run, Begin(0, SweepScan(2, [id])), s.(calls := map[0 := SweepScan(2, [id])]), id, HeldBy(e, 1));
    run := TakeOn(run, Advance(0), s.(calls := map[0 := SweepLock(2, [id])]), id, HeldBy(e, 1));
  }

  /** The sweep is done, and nobody holds it. */
  lemma SweptReachable(id: Id, e: Executor) returns (run: Run)
    ensures ValidRun(run) && Seen(run, id, HeldBy(e, 1))
    ensures run.states[|run.states| - 1] ==
      State(2, map[id := Record(PENDING_RECORD)], {}, map[], [Won(id, e, 1), Requeued(id)])
  {
    run := SweepReachable(id, e);
    var t := State(2, map[id := Record(PENDING_RECORD)], {id}, map[], [Won(id, e, 1), Requeued(id)]);
    run := TakeOn(run, Advance(0), t.(calls := map[0 := SweepFile(2, [id])]), id, HeldBy(e, 1));
    assert {id} - {id} == {} && [id][1..] == [];
    run := TakeOn(run, Advance(0), t.(sentinels := {}, calls := map[0 := SweepScan(2, [])]), id, HeldBy(e, 1));
    run := TakeOn(run, Advance(0), t.(sentinels := {}), id, HeldBy(e, 1));
  }

  lemma ReclaimedReachable(id: Id, e: Executor, f: Executor) returns (run: Run)
    ensures ValidRun(run) && Seen(run, id, HeldBy(e, 1))
    ensures run.states[|run.states| - 1].now == 2 && Current(run.states[|run.states| - 1], id) == HeldBy(f, 9)
  {
    run := SweptReachable(id, e);
    var s := State(2, map[id := Record(PENDING_RECORD)], {}, map[], [Won(id, e, 1), Requeued(id)]);
    var claim := ClaimOpen(id, f, 9);
    run := TakeOn(run, Begin(0, claim), s.(calls := map[0 := claim]), id, HeldBy(e, 1));
    run := TakeOn(run, Advance(0), s.(sentinels := {id}, calls := map[0 := ClaimMeta(id, f, 9)]), id, HeldBy(e, 1));
    var t := s.(sentinels := {id}, files := map[id := Record(HeldBy(f, 9))], log := s.log + [Won(id, f, 9)]);
    run := TakeOn(run, Advance(0), t, id, HeldBy(e, 1));
  }

  /**
   * It does happen: `e` reads its claim, the lease runs out and `f` claims; `e` then writes `running` over
   * what it read. The invariant holds, but the lease of `f`, with time left, is gone.
   */
  lemma LeaseOverwritten(id: Id, e: Executor, f: Executor) returns (run: Run, i: nat)
    requires e != f
    ensures ValidRun(run) && i < |run.states|
    ensures var s, read := run.states[|run.states| - 1], Current(run.states[i], id).(status := Running);
      && s.now < 9 && Leased(s, id, f, 9)
      && Safe(Rewritten(s, id, read), id) && !Leased(Rewritten(s, id, read), id, f, 9)
  {
    run := ReclaimedReachable(id, e, f);
    i :| i < |run.states| && Current(run.states[i], id) == HeldBy(e, 1);
    var s := run.states[|run.states| - 1];
    RunInv(run, |run.states| - 1);
    assert Safe(s, id);
    StaleWrite(s, id, HeldBy(e, 1).(status := Running));
  }
}
