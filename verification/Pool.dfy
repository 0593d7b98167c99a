/** One pool worker delivering one dispatch: claim, gate, prepare, run, release. */
module Pool {
  import opened Dispatches
  import opened Stores

  datatype Gate = GateError | Deny(reason: string) | Allow

  /** While the adapter prepares and runs: the lease renewer fires, or a supervisor writes its record. */
  datatype Event = Tick(at: int) | Wrote(status: Status, usage: Usage)

  /** Everything the worker learns from outside the store, in the order it asks. */
  datatype World = World(
    claimAt: int, lease: int,
    gate: Gate,
    denyNoteOk: bool,                          // reading and rewriting the record with the reason works
    readOk: bool,                              // the record can be read back
    adapterFound: bool,
    runningWriteOk: bool,
    materializeOk: bool,
    during: seq<Event>,                        // from the renewer's start until it is stopped
    prepareOk: bool,
    result: Option<Status>,                    // the adapter's result, if it returned one
    runError: bool,
    endAt: int
  )

  datatype Outcome = ClaimLost | WorkerError | Delivered(status: Status)

  /** The lease renewer was started. */
  predicate Renewing(w: World) {
    w.gate.Allow? && w.readOk && w.adapterFound && w.materializeOk
  }

  /** The adapter was run. */
  predicate Ran(w: World) {
    Renewing(w) && w.prepareOk
  }

  /** The last record a supervisor wrote. */
  function LastReport(events: seq<Event>): Option<(Status, Usage)> {
    if events == [] then None
    else
      match events[|events| - 1]
      case Wrote(status, usage) => Some((status, usage))
      case Tick(_) => LastReport(events[..|events| - 1])
  }

  /** The record after what happens while the adapter prepares and runs: renewed while it says `claimed`, or rewritten. */
  function Followed(d: Dispatch, events: seq<Event>, lease: int): Dispatch {
    if events == [] then d else AfterEvent(Followed(d, events[..|events| - 1], lease), events[|events| - 1], lease)
  }

  function AfterEvent(d: Dispatch, event: Event, lease: int): Dispatch {
    match event
    case Tick(at) => if d.status == Claimed then d.(leaseUntil := Some(at + lease)) else d
    case Wrote(status, usage) => d.(status := status, usage := usage)
  }

  /** What the record says when the renewer starts. */
  function StartStatus(w: World): Status {
    if w.runningWriteOk then Running else Claimed
  }

  /** The claimed record as the renewer finds it. */
  function Started(d: Dispatch, w: World): Dispatch {
    d.(status := StartStatus(w))
  }

  /** The renewer's answers: a tick is accepted exactly if the record says `claimed` at that moment. */
  ghost predicate Renewals(d: Dispatch, events: seq<Event>, lease: int, renewed: seq<Option<bool>>) {
    && |renewed| == |events|
    && forall i | 0 <= i < |events| ::
         renewed[i] == if events[i].Tick? then Some(Followed(d, events[..i], lease).status == Claimed) else None
  }

  /** What the worker takes the adapter's result for. */
  function AdapterStatus(w: World): Status {
    if w.result.None? || w.result.value == Other("") then Failed else w.result.value
  }

  /** The status the worker gives the dispatch back with. */
  function FinalStatus(w: World): Status {
    if w.gate.Deny? then Denied
    else if !Ran(w) then Failed
    else AdapterStatus(w)
  }

  function FinalUsage(w: World, d: Dispatch): Usage {
    if Renewing(w) then Followed(Started(d, w), w.during, w.lease).usage else d.usage
  }

  function FinalReason(w: World, d: Dispatch): string {
    if w.gate.Deny? && w.denyNoteOk then w.gate.reason else d.denyReason
  }

  /** What the worker reports: an error wherever the delivery broke off, else the status. */
  function Reported(w: World): Outcome {
    if w.gate.Deny? then Delivered(Denied)
    else if !Ran(w) || w.runError then WorkerError
    else Delivered(FinalStatus(w))
  }

  /** The worker wins the claim on a pending dispatch nobody has a sentinel on. */
  predicate Claimable(disk: Disk, id: Id) {
    id !in disk.sentinels && id in disk.files && disk.files[id].Record? && disk.files[id].d.status == Pending
  }

  /** The claimed record, given back with the world's final status, usage and reason. */
  function GivenBack(d: Dispatch, w: World): Dispatch {
    d.(status := FinalStatus(w), claimedBy := "", leaseUntil := None, endedAt := Some(w.endAt),
       denyReason := FinalReason(w, d), usage := FinalUsage(w, d))
  }

  /** What the worker leaves of a record it has claimed: given back, or as it was if the status is not terminal. */
  function Left(d: Dispatch, w: World): Dispatch {
    if Terminal(FinalStatus(w)) then GivenBack(d, w) else Followed(Started(d, w), w.during, w.lease)
  }

  /** From a disk where the worker has just won `id`. */
  ghost predicate Settled(a: Disk, b: Disk, id: Id, w: World) {
    b == Disk(a.files[id := Record(Left(RecordOf(a.files, id), w))],
              if Terminal(FinalStatus(w)) then a.sentinels - {id} else a.sentinels)
  }

  /** A pending record, claimed. */
  function Won(d: Dispatch, executor: Executor, w: World): Dispatch {
    d.(status := Claimed, claimedBy := executor, leaseUntil := Some(w.claimAt + w.lease))
  }

  predicate JustClaimed(disk: Disk, id: Id, executor: Executor) {
    && id in disk.sentinels && id in disk.files && disk.files[id].Record?
    && disk.files[id].d.claimedBy == executor && disk.files[id].d.status == Claimed
  }

  /** What executing a dispatch it can claim makes of the store, and the worker's answer. */
  ghost predicate Executed(a: Disk, b: Disk, id: Id, executor: Executor, w: World, outcome: Outcome) {
    && outcome == Reported(w)
    && b == Disk(a.files[id := Record(Left(Won(RecordOf(a.files, id), executor, w), w))],
                 if Terminal(FinalStatus(w)) then a.sentinels else a.sentinels + {id})
  }

  /**
   * On a store nobody else is using. `calls` lists the claims and releases made, with their answers;
   * `renewed` the renewer's, one for each tick.
   */
  method ExecuteDispatch(store: FsStore, id: Id, executor: Executor, w: World)
    returns (outcome: Outcome, ghost calls: seq<(Call, bool)>, ghost renewed: seq<Option<bool>>)
    modifies store
    // Exactly one release follows a claim, by the executor that won it.
    ensures !Claimable(old(store.Contents()), id) ==>
      calls == [(Claim(id, executor, w.claimAt + w.lease), false)] && outcome == ClaimLost
    ensures Claimable(old(store.Contents()), id) ==>
      calls == [(Claim(id, executor, w.claimAt + w.lease), true),
                (Release(id, executor, FinalStatus(w), w.endAt), Terminal(FinalStatus(w)))]
    // It ends the dispatch, unclaimed and without a sentinel, exactly when the adapter's status is terminal.
    ensures Claimable(old(store.Contents()), id) ==> Executed(old(store.Contents()), store.Contents(), id, executor, w, outcome)
    // A tick is accepted exactly if the record says `claimed` at that moment.
    ensures Claimable(old(store.Contents()), id) && Renewing(w) ==>
      Renewals(Started(Won(RecordOf(old(store.files), id), executor, w), w), w.during, w.lease, renewed)
    ensures !(Claimable(old(store.Contents()), id) && Renewing(w)) ==> renewed == []
  {
    renewed := [];
    var won := store.ClaimDispatch(id, executor, w.claimAt, w.lease);
    calls := [(Claim(id, executor, w.claimAt + w.lease), won)];
    if !won {
      return ClaimLost, calls, renewed;
    }
    assert store.files == old(store.files)[id := Record(Won(RecordOf(old(store.files), id), executor, w))];
    ghost var release;
    outcome, release, renewed := Deliver(store, id, executor, w);
    calls := calls + [release];
    assert old(store.sentinels) + {id} - {id} == old(store.sentinels);
  }

  method Deliver(store: FsStore, id: Id, executor: Executor, w: World)
    returns (outcome: Outcome, ghost release: (Call, bool), ghost renewed: seq<Option<bool>>)
    requires JustClaimed(store.Contents(), id, executor)
    modifies store
    ensures release == (Release(id, executor, FinalStatus(w), w.endAt), Terminal(FinalStatus(w)))
    ensures outcome == Reported(w)
    ensures Settled(old(store.Contents()), store.Contents(), id, w)
    ensures if Renewing(w) then Renewals(Started(RecordOf(old(store.files), id), w), w.during, w.lease, renewed) else renewed == []
  {
    renewed := [];
    if w.gate.GateError? {
      release := ReleaseClaim(store, id, executor, Failed, w.endAt);
      return WorkerError, release, renewed;
    }
    if w.gate.Deny? {
      var noted := store.ReadDispatch(id);
      if w.denyNoteOk && noted.Some? {
        store.WriteDispatch(id, noted.value.(denyReason := w.gate.reason));
      }
      release := ReleaseClaim(store, id, executor, Denied, w.endAt);
      return Delivered(Denied), release, renewed;
    }
    outcome, release, renewed := RunClaimed(store, id, executor, w);
  }

  method RunClaimed(store: FsStore, id: Id, executor: Executor, w: World)
    returns (outcome: Outcome, ghost release: (Call, bool), ghost renewed: seq<Option<bool>>)
    requires JustClaimed(store.Contents(), id, executor) && w.gate.Allow?
    modifies store
    ensures release == (Release(id, executor, FinalStatus(w), w.endAt), Terminal(FinalStatus(w)))
    ensures outcome == Reported(w)
    ensures Settled(old(store.Contents()), store.Contents(), id, w)
    ensures if Renewing(w) then Renewals(Started(RecordOf(old(store.files), id), w), w.during, w.lease, renewed) else renewed == []
  {
    renewed := [];
    var read := store.ReadDispatch(id);
    if !w.readOk || read.None? || !w.adapterFound {
      release := ReleaseClaim(store, id, executor, Failed, w.endAt);
      return WorkerError, release, renewed;
    }
    ghost var d := read.value;
    assert Started(Started(d, w), w) == Started(d, w) && Left(Started(d, w), w) == Left(d, w);
    if w.runningWriteOk {
      store.WriteDispatch(id, read.value.(status := Running));
    }
    if !w.materializeOk {
      release := ReleaseClaim(store, id, executor, Failed, w.endAt);
      return WorkerError, release, renewed;
    }
    outcome, release, renewed := RunAdapter(store, id, executor, w);
  }

  method RunAdapter(store: FsStore, id: Id, executor: Executor, w: World)
    returns (outcome: Outcome, ghost release: (Call, bool), ghost renewed: seq<Option<bool>>)
    requires id in store.sentinels && id in store.files && store.files[id].Record?
    requires store.files[id].d.claimedBy == executor && store.files[id].d.status == StartStatus(w)
    requires Renewing(w)
    modifies store
    ensures release == (Release(id, executor, FinalStatus(w), w.endAt), Terminal(FinalStatus(w)))
    ensures outcome == Reported(w)
    ensures Settled(old(store.Contents()), store.Contents(), id, w)
    ensures Renewals(RecordOf(old(store.files), id), w.during, w.lease, renewed)
  {
    ghost var d := store.files[id].d;
    FollowedReport(d, w.during, w.lease);
    assert Started(d, w) == d;
    renewed := KeepRenewing(store, id, executor, w);
    if !w.prepareOk {
      release := ReleaseClaim(store, id, executor, Failed, w.endAt);
      return WorkerError, release, renewed;
    }
    var terminalStatus := Failed;
    if w.result.Some? && w.result.value != Other("") {
      terminalStatus := w.result.value;
    }
    release := ReleaseClaim(store, id, executor, terminalStatus, w.endAt);
    return if w.runError then WorkerError else Delivered(terminalStatus), release, renewed;
  }

  method ReleaseClaim(store: FsStore, id: Id, executor: Executor, status: Status, now: int)
    returns (ghost release: (Call, bool))
    requires id in store.files && store.files[id].Record? && store.files[id].d.claimedBy == executor
    requires id in store.sentinels
    modifies store
    ensures release == (Release(id, executor, status, now), Terminal(status))
    ensures Terminal(status) ==>
      && store.files == old(store.files)[id := Record(ReleaseUpdate(RecordOf(old(store.files), id), executor, status, now).value)]
      && store.sentinels == old(store.sentinels) - {id}
    ensures !Terminal(status) ==> store.files == old(store.files) && store.sentinels == old(store.sentinels)
  {
    var ok := store.ReleaseDispatch(id, executor, status, now);
    release := (Release(id, executor, status, now), ok);
  }

  /** The renewer's ticks, and what a supervisor writes between them, while the adapter prepares and runs. */
  method KeepRenewing(store: FsStore, id: Id, executor: Executor, w: World) returns (ghost renewed: seq<Option<bool>>)
    requires id in store.files && store.files[id].Record? && store.files[id].d.claimedBy == executor
    requires id in store.sentinels
    modifies store
    ensures Renewals(RecordOf(old(store.files), id), w.during, w.lease, renewed)
    ensures store.sentinels == old(store.sentinels)
    ensures store.files == old(store.files)[id := Record(Followed(RecordOf(old(store.files), id), w.during, w.lease))]
  {
    ghost var before := store.files[id].d;
    renewed := [];
    assert store.files == store.files[id := Record(before)];
    for i := 0 to |w.during|
      invariant Renewals(before, w.during[..i], w.lease, renewed)
      invariant store.sentinels == old(store.sentinels)
      invariant store.files == old(store.files)[id := Record(Followed(before, w.during[..i], w.lease))]
    {
      OneMore(before, w.during, i, w.lease, renewed);
      FollowedReport(before, w.during[..i], w.lease);
      var answer := RunEvent(store, id, executor, w.during[i], w.lease);
      renewed := renewed + [answer];
    }
    assert w.during[..|w.during|] == w.during;
  }

  /** What one event does to the record, and the renewer's answer if it was a tick. */
  method RunEvent(store: FsStore, id: Id, executor: Executor, event: Event, lease: int) returns (answer: Option<bool>)
    requires id in store.files && store.files[id].Record? && store.files[id].d.claimedBy == executor
    requires id in store.sentinels
    modifies store
    ensures store.sentinels == old(store.sentinels)
    ensures store.files == old(store.files)[id := Record(AfterEvent(RecordOf(old(store.files), id), event, lease))]
    ensures answer == if event.Tick? then Some(RecordOf(old(store.files), id).status == Claimed) else None
  {
    match event
    case Tick(at) =>
      var ok := store.RenewLease(id, executor, at, lease);
      return Some(ok);
    case Wrote(status, usage) =>
      Supervise(store, id, (status, usage));
      return None;
  }

  /** One event more, and the answer that keeps the log right. */
  lemma OneMore(d: Dispatch, events: seq<Event>, i: nat, lease: int, renewed: seq<Option<bool>>)
    requires i < |events| && Renewals(d, events[..i], lease, renewed)
    ensures Followed(d, events[..i + 1], lease) == AfterEvent(Followed(d, events[..i], lease), events[i], lease)
    ensures var answer := if events[i].Tick? then Some(Followed(d, events[..i], lease).status == Claimed) else None;
      Renewals(d, events[..i + 1], lease, renewed + [answer])
  {
    var more := events[..i + 1];
    assert more[..i] == events[..i];
    assert forall k | 0 <= k < i :: more[..k] == events[..i][..k];
  }

  /** Status and usage are those of the last report; nothing else but the lease changes. */
  lemma {:induction false} FollowedReport(d: Dispatch, events: seq<Event>, lease: int)
    ensures var after := Followed(d, events, lease);
      && after == d.(status := after.status, usage := after.usage, leaseUntil := after.leaseUntil)
      && (LastReport(events).None? ==> after.status == d.status && after.usage == d.usage)
      && (LastReport(events).Some? ==> (after.status, after.usage) == LastReport(events).value)
  {
    if events != [] {
      FollowedReport(d, events[..|events| - 1], lease);
    }
  }

  /** A supervisor's terminal record, written over the one the worker claimed. */
  method Supervise(store: FsStore, id: Id, report: (Status, Usage))
    requires id in store.files && store.files[id].Record?
    modifies store
    ensures store.sentinels == old(store.sentinels)
    ensures store.files == old(store.files)[id := Record(RecordOf(old(store.files), id).(status := report.0, usage := report.1))]
  {
    var d := store.ReadDispatch(id);
    store.WriteDispatch(id, d.value.(status := report.0, usage := report.1));
  }

  /** Ticks alone change nothing but the lease: of a claimed record it runs from the last tick, of another it stays. */
  lemma {:induction false} TicksFollowed(d: Dispatch, events: seq<Event>, lease: int)
    requires forall i | 0 <= i < |events| :: events[i].Tick?
    ensures Followed(d, events, lease) ==
      if d.status == Claimed && events != [] then d.(leaseUntil := Some(events[|events| - 1].at + lease)) else d
  {
    if events != [] {
      TicksFollowed(d, events[..|events| - 1], lease);
    }
  }

  /** Without a supervisor: all ticks are refused once `running` is written, and none otherwise. */
  lemma TicksAnswered(d: Dispatch, executor: Executor, w: World, renewed: seq<Option<bool>>)
    requires Renewals(Started(Won(d, executor, w), w), w.during, w.lease, renewed)
    requires forall i | 0 <= i < |w.during| :: w.during[i].Tick?
    ensures |renewed| == |w.during| && forall i | 0 <= i < |renewed| :: renewed[i] == Some(!w.runningWriteOk)
  {
    forall i | 0 <= i < |renewed| ensures renewed[i] == Some(!w.runningWriteOk) {
      TicksFollowed(Started(Won(d, executor, w), w), w.during[..i], w.lease);
    }
  }

  // ---------------------------------------------------------------- what a worker leaves, field by field

  /** A denial leaves its reason on the record, if that could be written, and ends the dispatch. */
  lemma DenialRecorded(a: Disk, b: Disk, id: Id, executor: Executor, w: World, outcome: Outcome)
    requires Claimable(a, id) && Executed(a, b, id, executor, w, outcome) && w.gate.Deny?
    ensures outcome == Delivered(Denied)
    ensures var d := a.files[id].d;
      b == Disk(a.files[id := Record(d.(
                  status := Denied, claimedBy := "", leaseUntil := None, endedAt := Some(w.endAt),
                  denyReason := if w.denyNoteOk then w.gate.reason else d.denyReason))],
                a.sentinels)
  {
  }

  /** The usage a supervisor last wrote, if the renewer was started, and else the record's own. */
  lemma UsageLeft(d: Dispatch, executor: Executor, w: World)
    ensures Left(Won(d, executor, w), w).usage ==
      if w.gate.Allow? && w.readOk && w.adapterFound && w.materializeOk && LastReport(w.during).Some?
      then LastReport(w.during).value.1 else d.usage
  {
    FollowedReport(Started(Won(d, executor, w), w), w.during, w.lease);
  }

  /** Wherever delivery breaks off before the adapter runs, the dispatch has failed, and the worker says so. */
  lemma DeliveryFailed(a: Disk, b: Disk, id: Id, executor: Executor, w: World, outcome: Outcome)
    requires Claimable(a, id) && Executed(a, b, id, executor, w, outcome)
    requires w.gate.GateError? || (w.gate.Allow? && !(w.readOk && w.adapterFound && w.materializeOk && w.prepareOk))
    ensures outcome == WorkerError && b.sentinels == a.sentinels && b.files.Keys == a.files.Keys
    ensures forall x | x in a.files && x != id :: b.files[x] == a.files[x]
    ensures var d, supervised := a.files[id].d,
                w.gate.Allow? && w.readOk && w.adapterFound && w.materializeOk && LastReport(w.during).Some?;
      b.files[id] == Record(d.(
        status := Failed, claimedBy := "", leaseUntil := None, endedAt := Some(w.endAt),
        usage := if supervised then LastReport(w.during).value.1 else d.usage))
  {
    UsageLeft(a.files[id].d, executor, w);
  }

  /**
   * After a run the dispatch has the adapter's status, and has failed if that is missing or empty; a status that is not
   * terminal leaves it held.
   */
  lemma RunRecorded(a: Disk, b: Disk, id: Id, executor: Executor, w: World, outcome: Outcome, status: Status)
    requires Claimable(a, id) && Executed(a, b, id, executor, w, outcome)
    requires w.gate.Allow? && w.readOk && w.adapterFound && w.materializeOk && w.prepareOk
    requires if w.result == None || w.result == Some(Other("")) then status == Failed else w.result == Some(status)
    ensures outcome == (if w.runError then WorkerError else Delivered(status)) && b.files.Keys == a.files.Keys
    ensures forall x | x in a.files && x != id :: b.files[x] == a.files[x]
    ensures var d := a.files[id].d;
      if status == Completed || status == Failed || status == Halted || status == Stale || status == Denied then
        && b.sentinels == a.sentinels
        && b.files[id] == Record(d.(
             status := status, claimedBy := "", leaseUntil := None, endedAt := Some(w.endAt),
             usage := if LastReport(w.during).Some? then LastReport(w.during).value.1 else d.usage))
      else
        && b.sentinels == a.sentinels + {id} && b.files[id].Record?
        && b.files[id].d.claimedBy == executor && b.files[id].d.endedAt == d.endedAt
        && b.files[id].d.denyReason == d.denyReason
  {
    UsageLeft(a.files[id].d, executor, w);
    FollowedReport(Started(Won(a.files[id].d, executor, w), w), w.during, w.lease);
  }

  /** Event `i` is the last report. */
  ghost predicate LastWrote(events: seq<Event>, i: int) {
    0 <= i < |events| && events[i].Wrote? && forall j | i < j < |events| :: events[j].Tick?
  }

  lemma {:induction false} LastReportIs(events: seq<Event>)
    ensures LastReport(events).None? <==> forall i | 0 <= i < |events| :: events[i].Tick?
    ensures LastReport(events).Some? ==>
      exists i :: LastWrote(events, i) && LastReport(events) == Some((events[i].status, events[i].usage))
  {
    if events != [] {
      var n := |events| - 1;
      LastReportIs(events[..n]);
      assert forall i | 0 <= i < n :: events[..n][i] == events[i];
      if events[n].Wrote? {
        assert LastWrote(events, n);
      } else if LastReport(events[..n]).Some? {
        var i :| LastWrote(events[..n], i) && LastReport(events[..n]) == Some((events[..n][i].status, events[..n][i].usage));
        assert LastWrote(events, i);
      }
    }
  }

  /**
   * In the record the worker leaves, a supervisor's usage always stands, and its status exactly if the adapter reports
   * that same status, or one that is not terminal, with which the dispatch is not given back at all.
   */
  lemma SupervisorStatusSurvives(d: Dispatch, w: World)
    requires Ran(w) && LastReport(w.during).Some?
    ensures var (status, usage) := LastReport(w.during).value;
      && Left(d, w).usage == usage
      && (Left(d, w).status == status <==> AdapterStatus(w) == status || !Terminal(AdapterStatus(w)))
    ensures Left(d, w).claimedBy == d.claimedBy <==> !Terminal(AdapterStatus(w)) || d.claimedBy == ""
  {
    FollowedReport(Started(d, w), w.during, w.lease);
  }

  /** A renewal can be refused although the record never said `running`: the supervisor has written its own. */
  lemma RefusedAfterReport(d: Dispatch, status: Status, usage: Usage, at: int, lease: int, renewed: seq<Option<bool>>)
    requires d.status == Claimed && Renewals(d, [Tick(at), Wrote(status, usage), Tick(at)], lease, renewed)
    ensures renewed == [Some(true), None, Some(status == Claimed)]
  {
    var events := [Tick(at), Wrote(status, usage), Tick(at)];
    assert events[..1] == [Tick(at)] && events[..1][..0] == [];
    assert events[..2] == [Tick(at), Wrote(status, usage)];
  }
}
