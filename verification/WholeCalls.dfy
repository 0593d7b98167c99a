/** A call nobody interrupts: driving its micro-steps to the end is the whole call on the store. */
module WholeCalls {
  import opened Dispatches
  import opened Order
  import C = ClaimSteps
  import S = Stores

  function DiskOf(s: C.State): S.Disk {
    S.Disk(s.files, s.sentinels)
  }

  /** Let one call take up to `n` steps in a row. */
  function Drive(s: C.State, pid: nat, n: nat): C.State
    decreases n
  {
    if n == 0 || pid !in s.calls then s else Drive(C.Advanced(s, pid), pid, n - 1)
  }

  lemma ClaimDriven(s: C.State, pid: nat, id: Id, e: Executor, deadline: int)
    requires pid in s.calls && s.calls[pid] == C.ClaimOpen(id, e, deadline)
    ensures var t := Drive(s, pid, 3);
      && pid !in t.calls
      && S.FsCall(DiskOf(s), S.Claim(id, e, deadline), DiskOf(t), S.Done(t.log == s.log + [C.Won(id, e, deadline)]))
  {
    var s1 := C.Advanced(s, pid);
    if id !in s.sentinels {
      var s2 := C.Advanced(s1, pid);
      assert Drive(s, pid, 3) == Drive(s1, pid, 2) == Drive(s2, pid, 1);
      if pid in s2.calls {
        assert C.Advanced(s2, pid) == Drive(C.Advanced(s2, pid), pid, 0);
        assert s.sentinels + {id} - {id} == s.sentinels;
      }
    } else {
      assert Drive(s, pid, 3) == Drive(s1, pid, 2) == s1;
    }
  }

  lemma RenewDriven(s: C.State, pid: nat, id: Id, e: Executor, deadline: int)
    requires pid in s.calls && s.calls[pid] == C.RenewMeta(id, e, deadline)
    ensures var t := Drive(s, pid, 2);
      && pid !in t.calls
      && S.FsCall(DiskOf(s), S.Renew(id, e, deadline), DiskOf(t), S.Done(t.log == s.log + [C.Renewed(id, e, deadline)]))
  {
    var s1 := C.Advanced(s, pid);
    assert Drive(s, pid, 2) == Drive(s1, pid, 1);
    if pid in s1.calls {
      assert Drive(s1, pid, 1) == Drive(C.Advanced(s1, pid), pid, 0);
    }
  }

  lemma ReleaseDriven(s: C.State, pid: nat, id: Id, e: Executor, status: Status, at: int)
    requires pid in s.calls && s.calls[pid] == C.ReleaseMeta(id, e, status, at) && Terminal(status)
    ensures var t := Drive(s, pid, 2);
      && pid !in t.calls
      && S.FsCall(DiskOf(s), S.Release(id, e, status, at), DiskOf(t), S.Done(t.log == s.log + [C.Released(id, e)]))
  {
    var s1 := C.Advanced(s, pid);
    assert Drive(s, pid, 2) == Drive(s1, pid, 1);
    if pid in s1.calls {
      assert Drive(s1, pid, 1) == Drive(C.Advanced(s1, pid), pid, 0);
    }
  }

  /** The state once the sweep has dealt with one directory. */
  function Visited(s: C.State, pid: nat, asOf: int, todo: seq<Id>): C.State
    requires todo != []
  {
    var id := todo[0];
    var s' := if !Expired(RecordOf(s.files, id), asOf) then s
              else C.State(s.now, s.files[id := Record(Requeue(RecordOf(s.files, id)))], s.sentinels - {id},
                           s.calls, s.log + [C.Requeued(id)]);
    C.Goto(s', pid, C.SweepScan(asOf, todo[1..]))
  }

  lemma VisitDriven(s: C.State, pid: nat, asOf: int, todo: seq<Id>, n: nat) returns (m: nat)
    requires pid in s.calls && s.calls[pid] == C.SweepScan(asOf, todo)
    requires todo != [] && n >= 3
    ensures n - 3 <= m < n && Drive(s, pid, n) == Drive(Visited(s, pid, asOf, todo), pid, m)
  {
    var s1 := C.Advanced(s, pid);
    assert Drive(s, pid, n) == Drive(s1, pid, n - 1);
    m := n - 1;
    if Expired(RecordOf(s.files, todo[0]), asOf) {
      var s2 := C.Advanced(s1, pid);
      var s3 := C.Advanced(s2, pid);
      assert Drive(s1, pid, n - 1) == Drive(s2, pid, n - 2) == Drive(s3, pid, n - 3);
      assert s3 == Visited(s, pid, asOf, todo);
      m := n - 3;
    }
  }

  function Requeues(ids: seq<Id>): seq<C.Event> {
    seq(|ids|, i requires 0 <= i < |ids| => C.Requeued(ids[i]))
  }

  /** What a sweep over `todo` leaves behind, and the dispatches it reports. */
  ghost predicate Swept(s: C.State, t: C.State, asOf: int, todo: seq<Id>, ids: seq<Id>) {
    var expired := S.ExpiredFiles(s.files, asOf) * Elements(todo);
    && t.files == S.PartlyExpired(s.files, asOf, Elements(todo))
    && t.sentinels == s.sentinels - expired
    && t.log == s.log + Requeues(ids) && Lists(ids, expired)
  }

  lemma SweptOne(s: C.State, s': C.State, t: C.State, pid: nat, asOf: int, todo: seq<Id>, ids: seq<Id>)
    requires todo != [] && Ascending(todo) && Elements(todo) <= s.files.Keys
    requires s' == Visited(s, pid, asOf, todo) && Swept(s', t, asOf, todo[1..], ids)
    ensures Swept(s, t, asOf, todo, if Expired(RecordOf(s.files, todo[0]), asOf) then [todo[0]] + ids else ids)
  {
    var id := todo[0];
    TailElements(todo);
    assert id in Elements(todo);
    assert S.ExpiredFiles(s'.files, asOf) * Elements(todo[1..]) == S.ExpiredFiles(s.files, asOf) * Elements(todo) - {id};
    if Expired(RecordOf(s.files, id), asOf) {
      assert Requeues([id] + ids) == [C.Requeued(id)] + Requeues(ids);
      assert Elements([id] + ids) == {id} + Elements(ids);
      forall k | 0 <= k < |ids| ensures Less(id, ids[k]) {
        assert ids[k] in Elements(ids);
        HeadIsLeast(todo, ids[k]);
      }
    }
    SweptFiles(s, s', asOf, todo, pid);
  }

  lemma SweptFiles(s: C.State, s': C.State, asOf: int, todo: seq<Id>, pid: nat)
    requires todo != [] && Ascending(todo) && Elements(todo) <= s.files.Keys
    requires s' == Visited(s, pid, asOf, todo)
    ensures S.PartlyExpired(s'.files, asOf, Elements(todo[1..])) == S.PartlyExpired(s.files, asOf, Elements(todo))
  {
    TailElements(todo);
    assert todo[0] in Elements(todo);
  }

  lemma {:induction false} SweepSteps(s: C.State, pid: nat, asOf: int, todo: seq<Id>, n: nat) returns (ids: seq<Id>)
    requires pid in s.calls && s.calls[pid] == C.SweepScan(asOf, todo)
    requires Ascending(todo) && Elements(todo) <= s.files.Keys && n > 3 * |todo|
    ensures pid !in Drive(s, pid, n).calls && Swept(s, Drive(s, pid, n), asOf, todo, ids)
    decreases |todo|
  {
    if todo == [] {
      assert Drive(s, pid, n) == C.Advanced(s, pid);
      ids := [];
    } else {
      var m := VisitDriven(s, pid, asOf, todo, n);
      TailElements(todo);
      assert todo[0] in Elements(todo);
      var rest := SweepSteps(Visited(s, pid, asOf, todo), pid, asOf, todo[1..], m);
      SweptOne(s, Visited(s, pid, asOf, todo), Drive(s, pid, n), pid, asOf, todo, rest);
      ids := if Expired(RecordOf(s.files, todo[0]), asOf) then [todo[0]] + rest else rest;
    }
  }

  lemma SweepDriven(s: C.State, pid: nat, asOf: int, todo: seq<Id>) returns (ids: seq<Id>)
    requires pid in s.calls && s.calls[pid] == C.SweepScan(asOf, todo) && Lists(todo, s.files.Keys)
    ensures var t := Drive(s, pid, 3 * |todo| + 1);
      && pid !in t.calls
      && S.FsCall(DiskOf(s), S.Expire(asOf), DiskOf(t), S.Ids(ids))
      && t.log == s.log + Requeues(ids)
  {
    ids := SweepSteps(s, pid, asOf, todo, 3 * |todo| + 1);
    S.VisitedAll(s.files, asOf);
  }
}
