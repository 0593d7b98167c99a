/** The two dispatch stores, each call run whole, and the proof that one refines the other. */
module Stores {
  import opened Dispatches
  import opened Order

  /** The filesystem store: the dispatch records and the claim sentinels beside them. */
  datatype Disk = Disk(files: map<Id, MetaFile>, sentinels: set<Id>)

  /** What a caller asks, and what it learns: a flag (refused and failed alike) or a listing. */
  datatype Call =
    | Claim(id: Id, e: Executor, deadline: int)
    | Renew(id: Id, e: Executor, deadline: int)
    | Release(id: Id, e: Executor, status: Status, at: int)
    | Expire(asOf: int)
    | ListPending

  datatype Reply = Done(ok: bool) | Ids(ids: seq<Id>)

  // ---------------------------------------------------------------- specifications

  ghost function PendingFiles(files: map<Id, MetaFile>): set<Id> {
    set id | id in files && files[id].Record? && files[id].d.status == Pending
  }

  ghost function ExpiredFiles(files: map<Id, MetaFile>, asOf: int): set<Id> {
    set id | id in files && files[id].Record? && Expired(files[id].d, asOf)
  }

  ghost function AfterExpiry(files: map<Id, MetaFile>, asOf: int): map<Id, MetaFile> {
    map id | id in files :: if id in ExpiredFiles(files, asOf) then Record(Requeue(files[id].d)) else files[id]
  }

  /** A guarded record update: refused on an unreadable record or by the guard. */
  function Locked(files: map<Id, MetaFile>, id: Id, update: Option<Dispatch>): (map<Id, MetaFile>, bool) {
    if Unreadable(files, id) then (files, false)
    else match update
      case None => (Touched(files, id), false)
      case Some(d) => (files[id := Record(d)], true)
  }

  /** One whole call on the filesystem store. */
  ghost predicate FsCall(a: Disk, call: Call, b: Disk, reply: Reply) {
    match call
    case Claim(id, e, deadline) =>
      if id in a.sentinels then b == a && reply == Done(false)
      else
        var (files, ok) := Locked(a.files, id, ClaimUpdate(RecordOf(a.files, id), e, deadline));
        b == Disk(files, if ok then a.sentinels + {id} else a.sentinels) && reply == Done(ok)
    case Renew(id, e, deadline) =>
      var (files, ok) := Locked(a.files, id, RenewUpdate(RecordOf(a.files, id), e, deadline));
      b == Disk(files, if ok then a.sentinels + {id} else a.sentinels) && reply == Done(ok)
    case Release(id, e, status, at) =>
      if !Terminal(status) then b == a && reply == Done(false)
      else
        var (files, ok) := Locked(a.files, id, ReleaseUpdate(RecordOf(a.files, id), e, status, at));
        b == Disk(files, if ok then a.sentinels - {id} else a.sentinels) && reply == Done(ok)
    case Expire(asOf) =>
      && b == Disk(AfterExpiry(a.files, asOf), a.sentinels - ExpiredFiles(a.files, asOf))
      && reply.Ids? && Lists(reply.ids, ExpiredFiles(a.files, asOf))
    case ListPending =>
      b == a && reply.Ids? && Lists(reply.ids, PendingFiles(a.files))
  }

  ghost function PendingRows(rows: map<Id, Dispatch>): set<Id> {
    set id | id in rows && rows[id].status == Pending
  }

  ghost function ExpiredRows(rows: map<Id, Dispatch>, asOf: int): set<Id> {
    set id | id in rows && Expired(rows[id], asOf)
  }

  /** One `UPDATE … WHERE` statement on one row. */
  function Updated(rows: map<Id, Dispatch>, id: Id, update: Option<Dispatch>): (map<Id, Dispatch>, bool) {
    match update
    case None => (rows, false)
    case Some(d) => (rows[id := d], true)
  }

  function RowOf(rows: map<Id, Dispatch>, id: Id): Dispatch {
    if id in rows then rows[id] else ZERO_DISPATCH
  }

  /** One whole call on the row store. */
  ghost predicate PgCall(a: map<Id, Dispatch>, call: Call, b: map<Id, Dispatch>, reply: Reply) {
    match call
    case Claim(id, e, deadline) => (b, reply) == (var (rows, ok) := Updated(a, id, ClaimUpdate(RowOf(a, id), e, deadline)); (rows, Done(ok)))
    case Renew(id, e, deadline) => (b, reply) == (var (rows, ok) := Updated(a, id, RenewUpdate(RowOf(a, id), e, deadline)); (rows, Done(ok)))
    case Release(id, e, status, at) =>
      if !Terminal(status) then b == a && reply == Done(false)
      else (b, reply) == (var (rows, ok) := Updated(a, id, ReleaseUpdate(RowOf(a, id), e, status, at)); (rows, Done(ok)))
    case Expire(asOf) =>
      && b == (map id | id in a :: ExpireUpdate(a[id], asOf))
      && reply.Ids? && Lists(reply.ids, ExpiredRows(a, asOf))
    case ListPending =>
      b == a && reply.Ids? && Lists(reply.ids, PendingRows(a))
  }

  // ---------------------------------------------------------------- the stores themselves

  class FsStore {
    var files: map<Id, MetaFile>
    var sentinels: set<Id>

    ghost function Contents(): Disk
      reads this
    {
      Disk(files, sentinels)
    }

    constructor ()
      ensures Contents() == Disk(map[], {})
    {
      files, sentinels := map[], {};
    }

    /** Create the sentinel exclusively, record the claim under the lock, or take the sentinel back. */
    method ClaimDispatch(id: Id, executor: Executor, now: int, lease: int) returns (won: bool)
      modifies this
      ensures FsCall(old(Contents()), Claim(id, executor, now + lease), Contents(), Done(won))
    {
      var deadline := now + lease;
      if id in sentinels {
        return false;
      }
      sentinels := sentinels + {id};
      won := UpdateDispatchClaimed(id, executor, deadline);
      if !won {
        sentinels := sentinels - {id};
        assert sentinels == old(sentinels);
      }
    }

    method UpdateDispatchClaimed(id: Id, executor: Executor, deadline: int) returns (ok: bool)
      modifies this`files
      ensures (files, ok) == Locked(old(files), id, ClaimUpdate(RecordOf(old(files), id), executor, deadline))
    {
      if Unreadable(files, id) {
        return false;
      }
      var d := RecordOf(files, id);
      if d.status != Pending {
        files := Touched(files, id);
        return false;
      }
      d := d.(status := Claimed);
      d := d.(claimedBy := executor);
      d := d.(leaseUntil := Some(deadline));
      files := files[id := Record(d)];
      return true;
    }

    method RenewLease(id: Id, executor: Executor, now: int, lease: int) returns (ok: bool)
      modifies this
      ensures FsCall(old(Contents()), Renew(id, executor, now + lease), Contents(), Done(ok))
    {
      var deadline := now + lease;
      if Unreadable(files, id) {
        return false;
      }
      var d := RecordOf(files, id);
      if d.claimedBy != executor || d.status != Claimed {
        files := Touched(files, id);
        return false;
      }
      d := d.(leaseUntil := Some(deadline));
      files := files[id := Record(d)];
      sentinels := sentinels + {id};
      return true;
    }

    method ReleaseDispatch(id: Id, executor: Executor, terminalStatus: Status, now: int) returns (ok: bool)
      modifies this
      ensures FsCall(old(Contents()), Release(id, executor, terminalStatus, now), Contents(), Done(ok))
    {
      if !Terminal(terminalStatus) || Unreadable(files, id) {
        return false;
      }
      var d := RecordOf(files, id);
      if d.claimedBy != executor {
        files := Touched(files, id);
        return false;
      }
      d := d.(status := terminalStatus);
      d := d.(claimedBy := "");
      d := d.(leaseUntil := None);
      d := d.(endedAt := Some(now));
      files := files[id := Record(d)];
      sentinels := sentinels - {id};
      return true;
    }

    /** Requeue one dispatch whose lease has run out: re-checked under the lock, then its sentinel goes. */
    method RequeueExpired(id: Id, now: int) returns (requeued: bool)
      requires id in files
      modifies this
      ensures requeued <==>
        var file := old(files)[id];
        && file.Record? && (file.d.status == Claimed || file.d.status == Running)
        && file.d.leaseUntil.Some? && file.d.leaseUntil.value < now
      ensures !requeued ==> files == old(files)
      ensures requeued ==>
        files == old(files)[id := Record(old(files)[id].d.(status := Pending, claimedBy := "", leaseUntil := None))]
      ensures sentinels == if requeued then old(sentinels) - {id} else old(sentinels)
    {
      requeued := false;
      if files[id].Record? {
        var d := files[id].d;
        if (d.status != Claimed && d.status != Running) || d.leaseUntil.None? || d.leaseUntil.value >= now {
          return;
        }
        requeued := true;
        d := d.(status := Pending);
        d := d.(claimedBy := "");
        d := d.(leaseUntil := None);
        files := files[id := Record(d)];
        sentinels := sentinels - {id};
      }
    }

    /** The same in the middle of a sweep that has visited the dispatches in `visited`. */
    method RequeueNext(id: Id, now: int, ghost before: map<Id, MetaFile>, ghost visited: set<Id>) returns (requeued: bool)
      requires id in before && id !in visited && files == PartlyExpired(before, now, visited)
      modifies this
      ensures requeued <==> id in ExpiredFiles(before, now)
      ensures files == PartlyExpired(before, now, visited + {id})
      ensures sentinels == if requeued then old(sentinels) - {id} else old(sentinels)
    {
      VisitOne(before, now, visited, id);
      requeued := RequeueExpired(id, now);
      assert requeued <==> before[id].Record? && Expired(before[id].d, now);
    }

    /** `entries` is the directory listing, `now` the time taken before the scan. */
    method ExpireLeases(entries: seq<Id>, now: int) returns (requeued: seq<Id>)
      requires Lists(entries, files.Keys)
      modifies this
      ensures FsCall(old(Contents()), Expire(now), Contents(), Ids(requeued))
    {
      requeued := [];
      ghost var before := files;
      ghost var visited: set<Id> := {};
      for i := 0 to |entries|
        invariant visited == Elements(entries[..i])
        invariant files == PartlyExpired(before, now, visited)
        invariant Elements(requeued) == ExpiredFiles(before, now) * visited
        invariant sentinels == old(sentinels) - ExpiredFiles(before, now) * visited
      {
        var id := entries[i];
        assert id in Elements(entries);
        NeverBefore(entries, i);
        ElementsSnoc(entries, i);
        var did := RequeueNext(id, now, before, visited);
        visited := visited + {id};
        if did {
          requeued := Snoc(requeued, id);
        }
      }
      assert entries[..|entries|] == entries;
      VisitedAll(before, now);
      SortedAscending(requeued);
      requeued := Sorted(requeued);
    }

    method ReadDispatch(id: Id) returns (r: Option<Dispatch>)
      ensures r == if id in files && files[id].Record? then Some(files[id].d) else None
    {
      if id in files && files[id].Record? {
        return Some(files[id].d);
      }
      return None;
    }

    method WriteDispatch(id: Id, d: Dispatch)
      modifies this`files
      ensures files == old(files)[id := Record(d)]
    {
      files := files[id := Record(d)];
    }

    method ListPendingDispatches(entries: seq<Id>) returns (out: seq<Id>)
      requires Lists(entries, files.Keys)
      ensures FsCall(Contents(), ListPending, Contents(), Ids(out))
    {
      out := [];
      ghost var pending := PendingFiles(files);
      for i := 0 to |entries|
        invariant Elements(out) == pending * Elements(entries[..i])
        invariant Ascending(out)
      {
        var id := entries[i];
        assert id in Elements(entries);
        ElementsSnoc(entries, i);
        if files[id].Record? && files[id].d.status == Pending {
          forall k | 0 <= k < |out| ensures Less(out[k], id) {
            assert out[k] in Elements(out);
          }
          out := out + [id];
          assert Elements(out) == Elements(out[..|out| - 1]) + {id};
        }
      }
      assert entries[..|entries|] == entries;
      assert pending * Elements(entries) == pending;
    }
  }

  function Snoc(s: seq<Id>, x: Id): (r: seq<Id>)
    ensures r == s + [x] && Elements(r) == Elements(s) + {x}
  {
    s + [x]
  }

  /** The records midway through a sweep: those already visited are as they will be. */
  ghost function PartlyExpired(before: map<Id, MetaFile>, asOf: int, visited: set<Id>): map<Id, MetaFile> {
    map id | id in before :: if id in visited then AfterExpiry(before, asOf)[id] else before[id]
  }

  lemma VisitOne(before: map<Id, MetaFile>, asOf: int, visited: set<Id>, id: Id)
    requires id in before && id !in visited
    ensures var files := PartlyExpired(before, asOf, visited);
      && id in files
      && files[id] == before[id]
      && files[id := if id in ExpiredFiles(before, asOf) then Record(Requeue(before[id].d)) else before[id]]
         == PartlyExpired(before, asOf, visited + {id})
    ensures ExpiredFiles(before, asOf) * (visited + {id})
         == ExpiredFiles(before, asOf) * visited + (if id in ExpiredFiles(before, asOf) then {id} else {})
  {
  }

  lemma VisitedAll(before: map<Id, MetaFile>, asOf: int)
    ensures PartlyExpired(before, asOf, before.Keys) == AfterExpiry(before, asOf)
    ensures ExpiredFiles(before, asOf) * before.Keys == ExpiredFiles(before, asOf)
  {
  }

  lemma NeverBefore(entries: seq<Id>, i: nat)
    requires Ascending(entries) && i < |entries|
    ensures entries[i] !in Elements(entries[..i])
  {
    LessIrreflexive(entries[i]);
  }

  lemma ElementsSnoc(entries: seq<Id>, i: nat)
    requires i < |entries|
    ensures Elements(entries[..i + 1]) == Elements(entries[..i]) + {entries[i]}
  {
    assert entries[..i + 1] == entries[..i] + [entries[i]];
  }

  class PgStore {
    var rows: map<Id, Dispatch>

    constructor ()
      ensures rows == map[]
    {
      rows := map[];
    }

    method ClaimDispatch(id: Id, executor: Executor, now: int, lease: int) returns (won: bool)
      modifies this
      ensures PgCall(old(rows), Claim(id, executor, now + lease), rows, Done(won))
    {
      won := id in rows && rows[id].status == Pending;
      if won {
        rows := rows[id := rows[id].(status := Claimed, claimedBy := executor, leaseUntil := Some(now + lease))];
      }
    }

    method RenewLease(id: Id, executor: Executor, now: int, lease: int) returns (ok: bool)
      modifies this
      ensures PgCall(old(rows), Renew(id, executor, now + lease), rows, Done(ok))
    {
      ok := id in rows && rows[id].claimedBy == executor && rows[id].status == Claimed;
      if ok {
        rows := rows[id := rows[id].(leaseUntil := Some(now + lease))];
      }
    }

    method ReleaseDispatch(id: Id, executor: Executor, terminalStatus: Status, now: int) returns (ok: bool)
      modifies this
      ensures PgCall(old(rows), Release(id, executor, terminalStatus, now), rows, Done(ok))
    {
      if !Terminal(terminalStatus) {
        return false;
      }
      ok := id in rows && rows[id].claimedBy == executor;
      if ok {
        rows := rows[id := rows[id].(status := terminalStatus, claimedBy := "", leaseUntil := None, endedAt := Some(now))];
      }
    }

    /** `returned` is the statement's RETURNING list, in whatever order the database yields it. */
    method ExpireLeases(now: int, returned: seq<Id>) returns (ids: seq<Id>)
      requires Elements(returned) == ExpiredRows(rows, now)
      modifies this
      ensures PgCall(old(rows), Expire(now), rows, Ids(ids))
    {
      rows := map id | id in rows :: ExpireUpdate(rows[id], now);
      SortedAscending(returned);
      ids := Sorted(returned);
    }

    /** The ids of the pending rows, in whatever order the rows are met, ORDER BY id. */
    method ListPendingDispatches() returns (out: seq<Id>)
      ensures PgCall(rows, ListPending, rows, Ids(out))
    {
      out := [];
      var left := rows.Keys;
      while left != {}
        invariant left <= rows.Keys && Lists(out, PendingRows(rows) - left)
      {
        var id :| id in left;
        left := left - {id};
        if rows[id].status == Pending {
          InsertAscending(id, out);
          out := Insert(id, out);
        }
      }
      assert PendingRows(rows) - left == PendingRows(rows);
    }
  }

  // ---------------------------------------------------------------- refinement

  /** Same records, coherent ones, and a sentinel exactly where a row is held. */
  ghost predicate Coupled(disk: Disk, rows: map<Id, Dispatch>) {
    && (forall id | id in disk.files :: !disk.files[id].Corrupt?)
    && (forall id :: id in rows <==> id in disk.files && disk.files[id].Record?)
    && (forall id | id in rows :: rows[id] == disk.files[id].d && Coherent(rows[id]))
    && (forall id :: id in disk.sentinels <==> id in rows && Held(rows[id]))
  }

  /** A guarded update that refuses the zero record does the same to a record file and to its row. */
  lemma UpdateRefines(disk: Disk, rows: map<Id, Dispatch>, id: Id, update: Option<Dispatch>)
    requires Coupled(disk, rows)
    requires id !in rows ==> update.None?
    requires update.Some? ==> Coherent(update.value)
    ensures var (files, ok) := Locked(disk.files, id, update);
      && Updated(rows, id, update) == (Updated(rows, id, update).0, ok)
      && Coupled(Disk(files, if update.None? then disk.sentinels
                             else if Held(update.value) then disk.sentinels + {id}
                             else disk.sentinels - {id}),
                 Updated(rows, id, update).0)
  {
  }

  lemma ExpireRefines(disk: Disk, rows: map<Id, Dispatch>, asOf: int)
    requires Coupled(disk, rows)
    ensures ExpiredFiles(disk.files, asOf) == ExpiredRows(rows, asOf)
    ensures Coupled(Disk(AfterExpiry(disk.files, asOf), disk.sentinels - ExpiredFiles(disk.files, asOf)),
                    map id | id in rows :: ExpireUpdate(rows[id], asOf))
  {
    assert ExpiredFiles(disk.files, asOf) == ExpiredRows(rows, asOf);
  }

  // ---------------------------------------------------------------- what each call does, field by field

  /** A claim wins a pending record without a sentinel, and that record only is changed by it. */
  lemma FsClaims(a: Disk, id: Id, e: Executor, deadline: int, b: Disk, ok: bool)
    requires FsCall(a, Claim(id, e, deadline), b, Done(ok))
    ensures ok <==> id !in a.sentinels && id in a.files && a.files[id].Record? && a.files[id].d.status == Pending
    ensures ok ==>
      b == Disk(a.files[id := Record(a.files[id].d.(status := Claimed, claimedBy := e, leaseUntil := Some(deadline)))],
                a.sentinels + {id})
    ensures !ok ==> SameButBlank(a, b, id)
  {
  }

  /** A refused update changes nothing, but may leave an empty file where there was none. */
  ghost predicate SameButBlank(a: Disk, b: Disk, id: Id) {
    && a.sentinels == b.sentinels && a.files.Keys <= b.files.Keys <= a.files.Keys + {id}
    && forall x | x in b.files :: b.files[x] == if x in a.files then a.files[x] else Blank
  }

  /** A renewal moves the deadline of a record that this executor has claimed. */
  lemma FsRenews(a: Disk, id: Id, e: Executor, deadline: int, b: Disk, ok: bool)
    requires FsCall(a, Renew(id, e, deadline), b, Done(ok))
    ensures ok <==> id in a.files && a.files[id].Record? && a.files[id].d.status == Claimed && a.files[id].d.claimedBy == e
    ensures ok ==> b == Disk(a.files[id := Record(a.files[id].d.(leaseUntil := Some(deadline)))], a.sentinels + {id})
    ensures !ok ==> SameButBlank(a, b, id)
  {
  }

  /** A release ends a record this executor holds, whatever its status, with a terminal one. */
  lemma FsReleases(a: Disk, id: Id, e: Executor, status: Status, at: int, b: Disk, ok: bool)
    requires FsCall(a, Release(id, e, status, at), b, Done(ok))
    ensures ok <==>
      && (status == Completed || status == Failed || status == Halted || status == Stale || status == Denied)
      && id in a.files && a.files[id].Record? && a.files[id].d.claimedBy == e
    ensures ok ==>
      b == Disk(a.files[id := Record(a.files[id].d.(status := status, claimedBy := "", leaseUntil := None, endedAt := Some(at)))],
                a.sentinels - {id})
    ensures !ok ==> SameButBlank(a, b, id)
  {
  }

  /**
   * A sweep at `now`: a claimed or running record whose lease ended before `now` is pending, nobody's, without lease
   * and without sentinel, and is returned; every other record and sentinel is as before and not returned.
   */
  lemma FsSwept(a: Disk, now: int, b: Disk, ids: seq<Id>, id: Id, d: Dispatch)
    requires FsCall(a, Expire(now), b, Ids(ids))
    ensures a.files.Keys == b.files.Keys && Ascending(ids)
    ensures id in a.files && a.files[id] == Record(d) && (d.status == Claimed || d.status == Running)
            && d.leaseUntil.Some? && d.leaseUntil.value < now ==>
      && id in ids && id !in b.sentinels
      && b.files[id] == Record(d.(status := Pending, claimedBy := "", leaseUntil := None))
    ensures id in a.files && a.files[id] == Record(d)
            && ((d.status != Claimed && d.status != Running) || d.leaseUntil.None? || d.leaseUntil.value >= now) ==>
      id !in ids && (id in b.sentinels <==> id in a.sentinels) && b.files[id] == a.files[id]
    ensures id !in a.files || !a.files[id].Record? ==>
      id !in ids && (id in b.sentinels <==> id in a.sentinels) && (id in a.files ==> b.files[id] == a.files[id])
  {
    assert id in ids <==> id in Elements(ids);
  }

  /** And the next claim of a dispatch it returned wins, whoever makes it. */
  lemma FsSweptClaimed(a: Disk, now: int, b: Disk, ids: seq<Id>, id: Id, e: Executor, deadline: int, c: Disk, ok: bool)
    requires FsCall(a, Expire(now), b, Ids(ids)) && id in ids && FsCall(b, Claim(id, e, deadline), c, Done(ok))
    ensures ok && id in a.files && a.files[id].Record? && id in c.sentinels && id in c.files
    ensures c.files[id] == Record(a.files[id].d.(status := Claimed, claimedBy := e, leaseUntil := Some(deadline)))
  {
    assert id in Elements(ids);
    FsSwept(a, now, b, ids, id, a.files[id].d);
    FsClaims(b, id, e, deadline, c, ok);
  }

  /** The same of the row store. */
  lemma PgClaims(a: map<Id, Dispatch>, id: Id, e: Executor, deadline: int, b: map<Id, Dispatch>, ok: bool)
    requires PgCall(a, Claim(id, e, deadline), b, Done(ok))
    ensures ok <==> id in a && a[id].status == Pending
    ensures b == if ok then a[id := a[id].(status := Claimed, claimedBy := e, leaseUntil := Some(deadline))] else a
  {
  }

  lemma PgRenews(a: map<Id, Dispatch>, id: Id, e: Executor, deadline: int, b: map<Id, Dispatch>, ok: bool)
    requires PgCall(a, Renew(id, e, deadline), b, Done(ok))
    ensures ok <==> id in a && a[id].status == Claimed && a[id].claimedBy == e
    ensures b == if ok then a[id := a[id].(leaseUntil := Some(deadline))] else a
  {
  }

  lemma PgReleases(a: map<Id, Dispatch>, id: Id, e: Executor, status: Status, at: int, b: map<Id, Dispatch>, ok: bool)
    requires PgCall(a, Release(id, e, status, at), b, Done(ok))
    ensures ok <==>
      && (status == Completed || status == Failed || status == Halted || status == Stale || status == Denied)
      && id in a && a[id].claimedBy == e
    ensures b == if ok then a[id := a[id].(status := status, claimedBy := "", leaseUntil := None, endedAt := Some(at))] else a
  {
  }

  lemma PgSwept(a: map<Id, Dispatch>, now: int, b: map<Id, Dispatch>, ids: seq<Id>, id: Id)
    requires PgCall(a, Expire(now), b, Ids(ids))
    ensures a.Keys == b.Keys && Ascending(ids) && (id !in a ==> id !in ids)
    ensures id in a ==>
      var d := a[id];
      if (d.status == Claimed || d.status == Running) && d.leaseUntil.Some? && d.leaseUntil.value < now then
        id in ids && b[id] == d.(status := Pending, claimedBy := "", leaseUntil := None)
      else id !in ids && b[id] == d
  {
    assert id in ids <==> id in Elements(ids);
  }

  lemma PgSweptClaimed(a: map<Id, Dispatch>, now: int, b: map<Id, Dispatch>, ids: seq<Id>, id: Id,
                       e: Executor, deadline: int, c: map<Id, Dispatch>, ok: bool)
    requires PgCall(a, Expire(now), b, Ids(ids)) && id in ids && PgCall(b, Claim(id, e, deadline), c, Done(ok))
    ensures ok && id in a && c == b[id := a[id].(status := Claimed, claimedBy := e, leaseUntil := Some(deadline))]
  {
    assert id in Elements(ids);
    PgSwept(a, now, b, ids, id);
    PgClaims(b, id, e, deadline, c, ok);
  }

  /** A listing has exactly the pending dispatches, in ascending order, and changes nothing. */
  lemma FsLists(a: Disk, b: Disk, ids: seq<Id>, id: Id)
    requires FsCall(a, ListPending, b, Ids(ids))
    ensures b == a && Ascending(ids)
    ensures id in ids <==> id in a.files && a.files[id].Record? && a.files[id].d.status == Pending
  {
    assert id in ids <==> id in Elements(ids);
  }

  lemma PgLists(a: map<Id, Dispatch>, b: map<Id, Dispatch>, ids: seq<Id>, id: Id)
    requires PgCall(a, ListPending, b, Ids(ids))
    ensures b == a && Ascending(ids)
    ensures id in ids <==> id in a && a[id].status == Pending
  {
    assert id in ids <==> id in Elements(ids);
  }

  // ---------------------------------------------------------------- calls and runs

  /** Each call, run whole, answers the same on both stores and leaves them coupled. */
  lemma CallRefines(disk: Disk, rows: map<Id, Dispatch>, call: Call,
                    disk': Disk, rows': map<Id, Dispatch>, fsReply: Reply, pgReply: Reply)
    requires Coupled(disk, rows)
    requires FsCall(disk, call, disk', fsReply) && PgCall(rows, call, rows', pgReply)
    ensures fsReply == pgReply && Coupled(disk', rows')
  {
    match call
    case Claim(id, e, deadline) => UpdateRefines(disk, rows, id, ClaimUpdate(RowOf(rows, id), e, deadline));
    case Renew(id, e, deadline) => UpdateRefines(disk, rows, id, RenewUpdate(RowOf(rows, id), e, deadline));
    case Release(id, e, status, at) =>
      if Terminal(status) {
        UpdateRefines(disk, rows, id, ReleaseUpdate(RowOf(rows, id), e, status, at));
      }
    case Expire(asOf) =>
      ExpireRefines(disk, rows, asOf);
      ListingUnique(fsReply.ids, pgReply.ids);
    case ListPending =>
      assert PendingFiles(disk.files) == PendingRows(rows);
      ListingUnique(fsReply.ids, pgReply.ids);
  }

  ghost predicate FsRun(disks: seq<Disk>, calls: seq<Call>, replies: seq<Reply>) {
    && |disks| == |calls| + 1 && |replies| == |calls|
    && forall i | 0 <= i < |calls| :: FsCall(disks[i], calls[i], disks[i + 1], replies[i])
  }

  ghost predicate PgRun(tables: seq<map<Id, Dispatch>>, calls: seq<Call>, replies: seq<Reply>) {
    && |tables| == |calls| + 1 && |replies| == |calls|
    && forall i | 0 <= i < |calls| :: PgCall(tables[i], calls[i], tables[i + 1], replies[i])
  }

  /** No sequence of calls tells the two stores apart. */
  lemma {:induction false} StoresAgree(disks: seq<Disk>, tables: seq<map<Id, Dispatch>>, calls: seq<Call>,
                                       fsReplies: seq<Reply>, pgReplies: seq<Reply>, n: nat)
    requires FsRun(disks, calls, fsReplies) && PgRun(tables, calls, pgReplies)
    requires Coupled(disks[0], tables[0]) && n <= |calls|
    ensures fsReplies[..n] == pgReplies[..n] && Coupled(disks[n], tables[n])
  {
    if n > 0 {
      StoresAgree(disks, tables, calls, fsReplies, pgReplies, n - 1);
      CallRefines(disks[n - 1], tables[n - 1], calls[n - 1], disks[n], tables[n], fsReplies[n - 1], pgReplies[n - 1]);
      assert fsReplies[..n] == fsReplies[..n - 1] + [fsReplies[n - 1]];
      assert pgReplies[..n] == pgReplies[..n - 1] + [pgReplies[n - 1]];
    }
  }

  /**
   * Without the coupling the stores do differ: on readable, coherent records a claim run alone gives the
   * row store's answer exactly when the dispatch is not pending behind a sentinel left by an earlier call.
   */
  lemma StraySentinelBlocks(disk: Disk, rows: map<Id, Dispatch>, id: Id, e: Executor, deadline: int,
                            disk': Disk, rows': map<Id, Dispatch>, fsReply: Reply, pgReply: Reply)
    requires id in rows <==> id in disk.files && disk.files[id].Record?
    requires id in rows ==> rows[id] == disk.files[id].d
    requires FsCall(disk, Claim(id, e, deadline), disk', fsReply) && PgCall(rows, Claim(id, e, deadline), rows', pgReply)
    ensures fsReply == pgReply <==> !(id in disk.sentinels && RowOf(rows, id).status == Pending)
  {
  }
}
