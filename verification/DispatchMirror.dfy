/** The tee store over the two dispatch stores: the mirror's dispatches are the authoritative ones, but for their moments. */
module DispatchMirror {
  import opened Dispatches
  import opened Order
  import opened TeeStore
  import Ids = DispatchIds
  import S = Stores

  /** A run's part of each store: its dispatches, and what allocation counts. */
  datatype RunFiles = RunFiles(disk: S.Disk, dirs: Option<seq<Ids.Entry>>)
  datatype RunRows = RunRows(rows: map<Id, Dispatch>, nextN: Option<nat>)

  type Files = map<string, RunFiles>
  type Tables = map<string, RunRows>

  function FilesOf(f: Files, run: string): RunFiles {
    if run in f then f[run] else RunFiles(S.Disk(map[], {}), None)
  }

  function RowsOf(p: Tables, run: string): RunRows {
    if run in p then p[run] else RunRows(map[], None)
  }

  // ---------------------------------------------------------------- whole calls, as steps

  /** The guarded updates and the sweep of `Stores`, on the files; the flag says whether the call succeeded. */
  function FsStep(disk: S.Disk, call: S.Call): (S.Disk, bool) {
    match call
    case Claim(id, e, deadline) =>
      if id in disk.sentinels then (disk, false)
      else
        var (files, ok) := S.Locked(disk.files, id, ClaimUpdate(RecordOf(disk.files, id), e, deadline));
        (S.Disk(files, if ok then disk.sentinels + {id} else disk.sentinels), ok)
    case Renew(id, e, deadline) =>
      var (files, ok) := S.Locked(disk.files, id, RenewUpdate(RecordOf(disk.files, id), e, deadline));
      (S.Disk(files, if ok then disk.sentinels + {id} else disk.sentinels), ok)
    case Release(id, e, status, at) =>
      if !Terminal(status) then (disk, false)
      else
        var (files, ok) := S.Locked(disk.files, id, ReleaseUpdate(RecordOf(disk.files, id), e, status, at));
        (S.Disk(files, if ok then disk.sentinels - {id} else disk.sentinels), ok)
    case Expire(asOf) =>
      (S.Disk(map id | id in disk.files :: if disk.files[id].Record? then Record(ExpireUpdate(disk.files[id].d, asOf)) else disk.files[id],
              set id | id in disk.sentinels && !(id in disk.files && disk.files[id].Record? && Expired(disk.files[id].d, asOf))), true)
    case ListPending => (disk, true)
  }

  function PgStep(rows: map<Id, Dispatch>, call: S.Call): (map<Id, Dispatch>, bool) {
    match call
    case Claim(id, e, deadline) => S.Updated(rows, id, ClaimUpdate(S.RowOf(rows, id), e, deadline))
    case Renew(id, e, deadline) => S.Updated(rows, id, RenewUpdate(S.RowOf(rows, id), e, deadline))
    case Release(id, e, status, at) =>
      if !Terminal(status) then (rows, false) else S.Updated(rows, id, ReleaseUpdate(S.RowOf(rows, id), e, status, at))
    case Expire(asOf) => (map id | id in rows :: ExpireUpdate(rows[id], asOf), true)
    case ListPending => (rows, true)
  }

  predicate OnOneDispatch(call: S.Call) {
    call.Claim? || call.Renew? || call.Release?
  }

  /** They are the calls the two store classes are proved to make. */
  lemma StepsAreCalls(disk: S.Disk, rows: map<Id, Dispatch>, call: S.Call)
    requires OnOneDispatch(call)
    ensures S.FsCall(disk, call, FsStep(disk, call).0, S.Done(FsStep(disk, call).1))
    ensures S.PgCall(rows, call, PgStep(rows, call).0, S.Done(PgStep(rows, call).1))
  {
  }

  lemma SweepIsCall(disk: S.Disk, asOf: int, ids: seq<Id>)
    ensures S.FsCall(disk, S.Expire(asOf), FsStep(disk, S.Expire(asOf)).0, S.Ids(ids)) <==>
      Lists(ids, S.ExpiredFiles(disk.files, asOf))
  {
    var after := FsStep(disk, S.Expire(asOf)).0;
    assert after.files == S.AfterExpiry(disk.files, asOf);
    assert after.sentinels == disk.sentinels - S.ExpiredFiles(disk.files, asOf);
  }

  // ---------------------------------------------------------------- the store interface

  /** Every write makes the dispatch's directory if there is none. */
  function Made(dirs: Option<seq<Ids.Entry>>, id: Id): Option<seq<Ids.Entry>> {
    match dirs
    case None => Some([Ids.Entry(id, true)])
    case Some(entries) => if Ids.Named(entries, id) then dirs else Some(entries + [Ids.Entry(id, true)])
  }

  function Accepted(ok: bool): Reply {
    if ok then Ok else Err("refused")
  }

  /** One guarded update of a run's dispatch. */
  function FsUpdate(f: Files, run: string, call: S.Call): (Files, bool)
    requires OnOneDispatch(call)
  {
    var x := FilesOf(f, run);
    var (disk, ok) := FsStep(x.disk, call);
    (f[run := RunFiles(disk, if call.Release? && !Terminal(call.status) then x.dirs else Made(x.dirs, call.id))], ok)
  }

  function PgUpdate(p: Tables, run: string, call: S.Call): (Tables, bool)
    requires OnOneDispatch(call)
  {
    var y := RowsOf(p, run);
    var (rows, ok) := PgStep(y.rows, call);
    (p[run := y.(rows := rows)], ok)
  }

  /** The row that allocation reserves an id with. */
  const PLACEHOLDER := Dispatch(Pending, "", None, None, "", "", Usage(0, 0, ""))

  /**
   * The file store at a moment of its clock. What it answers about runs, agents, documents and listings is `other`;
   * none of that touches a dispatch record.
   */
  function FsExec(other: (Call, int) -> Reply, f: Files, call: Call, at: int): (Files, Reply) {
    match call
    case ClaimDispatch(run, id, e, lease) =>
      var (f', ok) := FsUpdate(f, run, S.Claim(id, e, at + lease));
      (f', Won(ok))
    case RenewLease(run, id, e, lease) =>
      var (f', ok) := FsUpdate(f, run, S.Renew(id, e, at + lease));
      (f', Accepted(ok))
    case ReleaseDispatch(run, id, e, status) =>
      var (f', ok) := FsUpdate(f, run, S.Release(id, e, status, at));
      (f', Accepted(ok))
    case WriteDispatch(run, id, d) =>
      var x := FilesOf(f, run);
      (f[run := RunFiles(x.disk.(files := x.disk.files[id := Record(d)]), Made(x.dirs, id))], Ok)
    case AllocDispatch(run) => FsAlloc(f, run)
    case ExpireLeases(run) =>
      var x := FilesOf(f, run);
      (f[run := x.(disk := FsStep(x.disk, S.Expire(at)).0)], other(call, at))
    case CreateRun(_, _) =>
      var reply := other(call, at);
      (if reply.Named? then f[reply.id := RunFiles(FilesOf(f, reply.id).disk, Created(FilesOf(f, reply.id).dirs))] else f, reply)
    case _ => (f, other(call, at))
  }

  function Created(dirs: Option<seq<Ids.Entry>>): Option<seq<Ids.Entry>> {
    if dirs.None? then Some([]) else dirs
  }

  function FsAlloc(f: Files, run: string): (Files, Reply) {
    var x := FilesOf(f, run);
    if x.dirs.None? then (f, Err("no run directory"))
    else
      match Ids.AllocSpec(x.dirs.value)
      case (_, None) => (f, Err("directory exists"))
      case (entries, Some(id)) => (f[run := x.(dirs := entries)], Named(id))
  }

  /** The row store at a moment of its own clock. */
  function PgExec(other: (Call, int) -> Reply, p: Tables, call: Call, at: int): (Tables, Reply) {
    match call
    case ClaimDispatch(run, id, e, lease) =>
      var (p', ok) := PgUpdate(p, run, S.Claim(id, e, at + lease));
      (p', Won(ok))
    case RenewLease(run, id, e, lease) =>
      var (p', ok) := PgUpdate(p, run, S.Renew(id, e, at + lease));
      (p', Accepted(ok))
    case ReleaseDispatch(run, id, e, status) =>
      var (p', ok) := PgUpdate(p, run, S.Release(id, e, status, at));
      (p', Accepted(ok))
    case WriteDispatch(run, id, d) =>
      var y := RowsOf(p, run);
      (p[run := y.(rows := y.rows[id := d])], Ok)
    case AllocDispatch(run) =>
      var y := RowsOf(p, run);
      var n := if y.nextN.None? then 1 else y.nextN.value;
      var id := Ids.DispatchId(n);
      (p[run := RunRows(if id in y.rows then y.rows else y.rows[id := PLACEHOLDER], Some(n + 1))], Named(id))
    case ExpireLeases(run) =>
      var y := RowsOf(p, run);
      (p[run := y.(rows := PgStep(y.rows, S.Expire(at)).0)], other(call, at))
    case _ => (p, other(call, at))
  }

  /** Allocation: the file store's makes a directory, or fails and changes nothing; no record changes. */
  lemma FsAllocates(other: (Call, int) -> Reply, f: Files, run: string, at: int)
    ensures var (f', reply), x := FsExec(other, f, AllocDispatch(run), at), FilesOf(f, run);
      if x.dirs.None? || Ids.AllocSpec(x.dirs.value).1.None? then f' == f && reply.Err?
      else
        && reply == Named(Ids.AllocSpec(x.dirs.value).1.value)
        && f' == f[run := RunFiles(x.disk, Ids.AllocSpec(x.dirs.value).0)]
  {
  }

  /** The row store's takes the counter's id, moves the counter on, and reserves the id unless its row is there. */
  lemma PgAllocates(other: (Call, int) -> Reply, p: Tables, run: string, at: int, n: nat)
    requires n == if run in p && p[run].nextN.Some? then p[run].nextN.value else 1
    ensures var (p', reply), id, y := PgExec(other, p, AllocDispatch(run), at), Ids.DispatchId(n), RowsOf(p, run);
      && reply == Named(id)
      && p' == p[run := RunRows(if id in y.rows then y.rows
                                else y.rows[id := Dispatch(Pending, "", None, None, "", "", Usage(0, 0, ""))], Some(n + 1))]
  {
  }

  /** A write, claim or renewal makes the dispatch's directory, and so does a release with a terminal status. */
  lemma DirectoryMade(other: (Call, int) -> Reply, f: Files, c: Call, at: int)
    requires c.WriteDispatch? || c.ClaimDispatch? || c.RenewLease? || (c.ReleaseDispatch? && Terminal(c.status))
    ensures var before, after := FilesOf(f, c.runID).dirs, FilesOf(FsExec(other, f, c, at).0, c.runID).dirs;
      && after.Some? && Ids.Named(after.value, c.dispatchID)
      && (before.None? ==> after == Some([Ids.Entry(c.dispatchID, true)]))
      && (before.Some? ==> after.value == before.value + if Ids.Named(before.value, c.dispatchID) then [] else [Ids.Entry(c.dispatchID, true)])
  {
    var before, entry := FilesOf(f, c.runID).dirs, Ids.Entry(c.dispatchID, true);
    if before.Some? {
      assert before.value + [] == before.value;
      assert (before.value + [entry])[|before.value|] == entry;
      assert Ids.Named(before.value + [entry], c.dispatchID);
    } else {
      assert [entry][0] == entry;
      assert Ids.Named([entry], c.dispatchID);
    }
  }

  /** A release that is not terminal changes nothing. */
  lemma ReleaseRefused(other: (Call, int) -> Reply, f: Files, c: Call, at: int)
    requires c.ReleaseDispatch? && !Terminal(c.status)
    ensures FsExec(other, f, c, at).1.Err? && FilesOf(FsExec(other, f, c, at).0, c.runID) == FilesOf(f, c.runID)
  {
  }

  /** A new run has a directory without dispatches, unless it was there. */
  lemma RunCreated(other: (Call, int) -> Reply, f: Files, id: string, run: string, at: int, name: string)
    requires other(CreateRun(id, run), at) == Named(name)
    ensures var f' := FsExec(other, f, CreateRun(id, run), at).0;
      && FilesOf(f', name).disk == FilesOf(f, name).disk
      && FilesOf(f', name).dirs == if FilesOf(f, name).dirs.None? then Some([]) else FilesOf(f, name).dirs
  {
  }

  function FileStore(other: (Call, int) -> Reply): Behaviour<Files> {
    (f, call, at) => FsExec(other, f, call, at)
  }

  function RowStore(other: (Call, int) -> Reply): Behaviour<Tables> {
    (p, call, at) => PgExec(other, p, call, at)
  }

  // ---------------------------------------------------------------- the same dispatches, but for their moments

  /** A record without the moments a store's clock put into it; whether it has them is kept. */
  function Timeless(d: Dispatch): Dispatch {
    d.(leaseUntil := if d.leaseUntil.Some? then Some(0) else None, endedAt := if d.endedAt.Some? then Some(0) else None)
  }

  predicate HasRecord(files: map<Id, MetaFile>, id: Id) {
    id in files && files[id].Record?
  }

  /** Every dispatch record has its row, the same but for its moments; every other row only reserves an id. */
  ghost predicate RunView(files: map<Id, MetaFile>, rows: map<Id, Dispatch>) {
    && (forall id | HasRecord(files, id) :: id in rows && Timeless(rows[id]) == Timeless(files[id].d))
    && (forall id | id in rows && !HasRecord(files, id) :: rows[id] == PLACEHOLDER)
  }

  ghost predicate StoreView(f: Files, p: Tables) {
    forall run :: RunView(FilesOf(f, run).disk.files, RowsOf(p, run).rows)
  }

  /** Field by field: what the rows of a run compared with its records have in common with them. */
  lemma ViewMeans(files: map<Id, MetaFile>, rows: map<Id, Dispatch>)
    ensures RunView(files, rows) <==>
      && (forall id | id in files && files[id].Record? :: id in rows && SameButClock(files[id].d, rows[id]))
      && (forall id | id in rows && !(id in files && files[id].Record?) ::
            rows[id] == Dispatch(Pending, "", None, None, "", "", Usage(0, 0, "")))
  {
    forall d: Dispatch, d': Dispatch ensures Timeless(d) == Timeless(d') <==> SameButClock(d, d') {
    }
  }

  predicate SameButClock(d: Dispatch, d': Dispatch) {
    && d.status == d'.status && d.claimedBy == d'.claimedBy && d.denyReason == d'.denyReason
    && d.adapter == d'.adapter && d.usage == d'.usage
    && (d.leaseUntil.Some? <==> d'.leaseUntil.Some?) && (d.endedAt.Some? <==> d'.endedAt.Some?)
  }

  lemma TouchedViewed(files: map<Id, MetaFile>, rows: map<Id, Dispatch>, id: Id)
    requires RunView(files, rows)
    ensures RunView(Touched(files, id), rows)
  {
  }

  lemma PutViewed(files: map<Id, MetaFile>, rows: map<Id, Dispatch>, id: Id, d: Dispatch, d': Dispatch)
    requires RunView(files, rows) && Timeless(d) == Timeless(d')
    ensures RunView(files[id := Record(d)], rows[id := d'])
  {
  }

  /** What a call does to the record it is about, if its guard lets it. */
  function Update(call: S.Call, d: Dispatch): Option<Dispatch>
    requires OnOneDispatch(call)
  {
    match call
    case Claim(_, e, deadline) => ClaimUpdate(d, e, deadline)
    case Renew(_, e, deadline) => RenewUpdate(d, e, deadline)
    case Release(_, e, status, at) => if Terminal(status) then ReleaseUpdate(d, e, status, at) else None
  }

  /** The guards ask for no moment, and the record they let through differs in none but moments. */
  lemma UpdateTimeless(c: S.Call, later: S.Call, d: Dispatch, d': Dispatch)
    requires SameButMoment(c, later) && Timeless(d) == Timeless(d')
    ensures Update(c, d).Some? <==> Update(later, d').Some?
    ensures Update(c, d).Some? ==> Timeless(Update(c, d).value) == Timeless(Update(later, d').value)
    ensures Update(c, ZERO_DISPATCH).None?
  {
  }

  /** The same call, with the moment another clock gave it. */
  predicate SameButMoment(c: S.Call, later: S.Call) {
    match c
    case Claim(id, e, _) => later.Claim? && later.id == id && later.e == e
    case Renew(id, e, _) => later.Renew? && later.id == id && later.e == e
    case Release(id, e, status, _) => later.Release? && later.id == id && later.e == e && later.status == status
    case _ => false
  }

  /** A call that succeeds stores its update; one that is refused leaves the records alone. */
  lemma FsOutcome(disk: S.Disk, c: S.Call, disk': S.Disk, ok: bool)
    requires OnOneDispatch(c) && S.FsCall(disk, c, disk', S.Done(ok))
    ensures ok ==> Update(c, RecordOf(disk.files, c.id)).Some?
    ensures ok ==> disk'.files == disk.files[c.id := Record(Update(c, RecordOf(disk.files, c.id)).value)]
    ensures !ok ==> disk'.files == disk.files || disk'.files == Touched(disk.files, c.id)
  {
  }

  lemma PgOutcome(rows: map<Id, Dispatch>, c: S.Call, rows': map<Id, Dispatch>, ok: bool)
    requires OnOneDispatch(c) && S.PgCall(rows, c, rows', S.Done(ok))
    ensures ok <==> Update(c, S.RowOf(rows, c.id)).Some?
    ensures ok ==> rows' == rows[c.id := Update(c, S.RowOf(rows, c.id)).value]
  {
  }

  /**
   * A claim, renewal or release that succeeds on the files does so on the rows, whatever their clock says, and they
   * compare as before; one that is refused there leaves them comparing as before without the rows.
   */
  lemma CallViewed(disk: S.Disk, rows: map<Id, Dispatch>, c: S.Call, later: S.Call,
                   disk': S.Disk, rows': map<Id, Dispatch>, ok: bool, ok': bool)
    requires RunView(disk.files, rows) && SameButMoment(c, later)
    requires S.FsCall(disk, c, disk', S.Done(ok)) && S.PgCall(rows, later, rows', S.Done(ok'))
    ensures if ok then ok' && RunView(disk'.files, rows') else RunView(disk'.files, rows)
  {
    var d, d' := RecordOf(disk.files, c.id), S.RowOf(rows, c.id);
    FsOutcome(disk, c, disk', ok);
    PgOutcome(rows, later, rows', ok');
    UpdateTimeless(c, later, ZERO_DISPATCH, ZERO_DISPATCH);
    if ok {
      assert HasRecord(disk.files, c.id);
      UpdateTimeless(c, later, d, d');
      PutViewed(disk.files, rows, c.id, Update(c, d).value, Update(later, d').value);
    } else {
      TouchedViewed(disk.files, rows, c.id);
    }
  }

  /** Only one run's part of the stores has changed. */
  lemma RunsFollow(f: Files, p: Tables, run: string, f': Files, p': Tables)
    requires StoreView(f, p) && RunView(FilesOf(f', run).disk.files, RowsOf(p', run).rows)
    requires forall r | r != run :: FilesOf(f', r) == FilesOf(f, r) && RowsOf(p', r).rows == RowsOf(p, r).rows
    ensures StoreView(f', p')
  {
    forall r ensures RunView(FilesOf(f', r).disk.files, RowsOf(p', r).rows) {
      assert RunView(FilesOf(f, r).disk.files, RowsOf(p, r).rows);
    }
  }

  lemma StepViewed(x: S.Disk, y: map<Id, Dispatch>, c: S.Call, later: S.Call)
    requires RunView(x.files, y) && SameButMoment(c, later)
    ensures RunView(FsStep(x, c).0.files, if FsStep(x, c).1 then PgStep(y, later).0 else y)
  {
    StepsAreCalls(x, y, c);
    StepsAreCalls(x, y, later);
    CallViewed(x, y, c, later, FsStep(x, c).0, PgStep(y, later).0, FsStep(x, c).1, PgStep(y, later).1);
  }

  lemma FsUpdateOne(f: Files, run: string, c: S.Call, f': Files, ok: bool)
    requires OnOneDispatch(c) && FsUpdate(f, run, c) == (f', ok)
    ensures (FilesOf(f', run).disk, ok) == FsStep(FilesOf(f, run).disk, c)
    ensures forall r | r != run :: FilesOf(f', r) == FilesOf(f, r)
  {
  }

  lemma PgUpdateOne(p: Tables, run: string, c: S.Call, p': Tables, ok: bool)
    requires OnOneDispatch(c) && PgUpdate(p, run, c) == (p', ok)
    ensures (RowsOf(p', run).rows, ok) == PgStep(RowsOf(p, run).rows, c)
    ensures forall r | r != run :: RowsOf(p', r) == RowsOf(p, r)
  {
  }

  lemma UpdateFollows(f: Files, p: Tables, run: string, c: S.Call, later: S.Call)
    requires StoreView(f, p) && SameButMoment(c, later)
    ensures StoreView(FsUpdate(f, run, c).0, if FsUpdate(f, run, c).1 then PgUpdate(p, run, later).0 else p)
  {
    var (f', ok) := FsUpdate(f, run, c);
    var (p', ok') := PgUpdate(p, run, later);
    FsUpdateOne(f, run, c, f', ok);
    PgUpdateOne(p, run, later, p', ok');
    assert RunView(FilesOf(f, run).disk.files, RowsOf(p, run).rows);
    StepViewed(FilesOf(f, run).disk, RowsOf(p, run).rows, c, later);
    RunsFollow(f, p, run, f', if ok then p' else p);
  }

  /** A call that concerns no dispatch's record leaves all runs comparing as before. */
  lemma RecordsSame(f: Files, p: Tables, f': Files)
    requires StoreView(f, p) && forall run :: FilesOf(f', run).disk == FilesOf(f, run).disk
    ensures StoreView(f', p)
  {
  }

  lemma WriteFollows(other: (Call, int) -> Reply, other': (Call, int) -> Reply, f: Files, p: Tables, c: Call, t: int, t': int)
    requires StoreView(f, p) && c.WriteDispatch?
    ensures StoreView(FsExec(other, f, c, t).0, PgExec(other', p, c, t').0)
  {
    var f', p' := FsExec(other, f, c, t).0, PgExec(other', p, c, t').0;
    forall run ensures RunView(FilesOf(f', run).disk.files, RowsOf(p', run).rows) {
      assert RunView(FilesOf(f, run).disk.files, RowsOf(p, run).rows);
    }
  }

  /** The mirror reserves an id of its own count, which changes no dispatch there is. */
  lemma AllocFollows(other: (Call, int) -> Reply, f: Files, p: Tables, c: Call, t: int, t': int)
    requires StoreView(f, p) && c.AllocDispatch?
    ensures StoreView(f, PgExec(other, p, c, t').0)
  {
    var p' := PgExec(other, p, c, t').0;
    forall run ensures RunView(FilesOf(f, run).disk.files, RowsOf(p', run).rows) {
      assert RunView(FilesOf(f, run).disk.files, RowsOf(p, run).rows);
    }
  }

  lemma AllocLeaves(f: Files, run: string, r: string)
    ensures FilesOf(FsAlloc(f, run).0, r).disk == FilesOf(f, r).disk
  {
  }

  lemma CreateLeaves(other: (Call, int) -> Reply, f: Files, c: Call, t: int, r: string)
    requires c.CreateRun?
    ensures FilesOf(FsExec(other, f, c, t).0, r).disk == FilesOf(f, r).disk
  {
  }

  predicate OnDispatch(c: Call) {
    c.ClaimDispatch? || c.RenewLease? || c.ReleaseDispatch?
  }

  /** The guarded update a call of the interface asks for. */
  function Request(c: Call, at: int): (u: S.Call)
    requires OnDispatch(c)
    ensures OnOneDispatch(u)
  {
    if c.ClaimDispatch? then S.Claim(c.dispatchID, c.executor, at + c.lease)
    else if c.RenewLease? then S.Renew(c.dispatchID, c.executor, at + c.lease)
    else S.Release(c.dispatchID, c.executor, c.status, at)
  }

  /** What the two stores make of a call and its mirror write, put together. */
  lemma FollowsFrom(other: (Call, int) -> Reply, other': (Call, int) -> Reply, f: Files, p: Tables, c: Timed, at: int,
                    f': Files, p': Tables, ok: bool)
    requires FsExec(other, f, c.call, c.at).0 == f' && StoreView(f', if ok then p' else p)
    requires Mirrored(c.call, FsExec(other, f, c.call, c.at).1) == if ok then Some(c.call) else None
    requires PgExec(other', p, c.call, at).0 == p'
    ensures Follows(FileStore(other), RowStore(other'), StoreView, f, p, c, at)
  {
  }

  lemma FsRuns(other: (Call, int) -> Reply, f: Files, c: Call, at: int, run: string, u: S.Call)
    requires OnDispatch(c) && run == c.runID && u == Request(c, at)
    ensures FsExec(other, f, c, at).0 == FsUpdate(f, run, u).0
    ensures Mirrored(c, FsExec(other, f, c, at).1) == if FsUpdate(f, run, u).1 then Some(c) else None
  {
  }

  lemma PgRuns(other: (Call, int) -> Reply, p: Tables, c: Call, at: int, run: string, u: S.Call)
    requires OnDispatch(c) && run == c.runID && u == Request(c, at)
    ensures PgExec(other, p, c, at).0 == PgUpdate(p, run, u).0
  {
  }

  lemma DispatchFollows(other: (Call, int) -> Reply, other': (Call, int) -> Reply, f: Files, p: Tables, c: Timed, at: int)
    requires StoreView(f, p) && OnDispatch(c.call)
    ensures Follows(FileStore(other), RowStore(other'), StoreView, f, p, c, at)
  {
    var run, u, u' := c.call.runID, Request(c.call, c.at), Request(c.call, at);
    FsRuns(other, f, c.call, c.at, run, u);
    PgRuns(other', p, c.call, at, run, u');
    UpdateFollows(f, p, run, u, u');
    FollowsFrom(other, other', f, p, c, at, FsUpdate(f, run, u).0, PgUpdate(p, run, u').0, FsUpdate(f, run, u).1);
  }

  lemma AllocationFollows(other: (Call, int) -> Reply, other': (Call, int) -> Reply, f: Files, p: Tables, c: Timed, at: int)
    requires StoreView(f, p) && c.call.AllocDispatch?
    ensures Follows(FileStore(other), RowStore(other'), StoreView, f, p, c, at)
  {
    var f' := FsAlloc(f, c.call.runID).0;
    forall r ensures FilesOf(f', r).disk == FilesOf(f, r).disk {
      AllocLeaves(f, c.call.runID, r);
    }
    RecordsSame(f, p, f');
    AllocFollows(other', f', p, c.call, c.at, at);
  }

  lemma CreationFollows(other: (Call, int) -> Reply, other': (Call, int) -> Reply, f: Files, p: Tables, c: Timed, at: int)
    requires StoreView(f, p) && c.call.CreateRun?
    ensures Follows(FileStore(other), RowStore(other'), StoreView, f, p, c, at)
  {
    var f' := FsExec(other, f, c.call, c.at).0;
    forall r ensures FilesOf(f', r).disk == FilesOf(f, r).disk {
      CreateLeaves(other, f, c.call, c.at, r);
    }
    RecordsSame(f, p, f');
  }

  /** Every call but a sweep is followed by its mirror write, whenever the mirror runs it. */
  lemma CallFollows(other: (Call, int) -> Reply, other': (Call, int) -> Reply, f: Files, p: Tables, c: Timed, at: int)
    requires StoreView(f, p) && !c.call.ExpireLeases?
    ensures Follows(FileStore(other), RowStore(other'), StoreView, f, p, c, at)
  {
    if OnDispatch(c.call) {
      DispatchFollows(other, other', f, p, c, at);
    } else if c.call.WriteDispatch? {
      WriteFollows(other, other', f, p, c.call, c.at, at);
    } else if c.call.AllocDispatch? {
      AllocationFollows(other, other', f, p, c, at);
    } else if c.call.CreateRun? {
      CreationFollows(other, other', f, p, c, at);
    }
  }

  /**
   * After an orderly schedule without drops and without sweeps the mirror has the authoritative dispatches, each the
   * same but for its moments, whenever it ran the writes.
   */
  lemma DispatchesFollow(other: (Call, int) -> Reply, other': (Call, int) -> Reply,
                         f: Files, p: Tables, schedule: seq<Action>, ran: seq<Timed>)
    requires StoreView(f, p) && Orderly(FileStore(other), f, schedule)
    requires var q := Play(FileStore(other), f, schedule);
      && q.waiting == map[] && (forall c | c in q.asked :: !c.call.ExpireLeases?)
      && Within(q.offered, |q.writes|) && Calls(ran) == OpsAt(q.writes, q.offered)
    ensures StoreView(After(FileStore(other), f, Play(FileStore(other), f, schedule).asked), After(RowStore(other'), p, ran))
  {
    var q := Play(FileStore(other), f, schedule);
    forall g: Files, r: Tables, c, at: int | c in q.asked && StoreView(g, r)
      ensures Follows(FileStore(other), RowStore(other'), StoreView, g, r, c, at)
    {
      CallFollows(other, other', g, r, c, at);
    }
    OrderlyFollows(FileStore(other), RowStore(other'), StoreView, f, p, schedule, ran);
  }

  // ---------------------------------------------------------------- where they differ

  /** A sweep of one run's records leaves them comparing as before exactly if none had expired. */
  lemma SweepViewed(disk: S.Disk, rows: map<Id, Dispatch>, at: int)
    requires RunView(disk.files, rows)
    ensures RunView(FsStep(disk, S.Expire(at)).0.files, rows) <==> S.ExpiredFiles(disk.files, at) == {}
  {
    var files := FsStep(disk, S.Expire(at)).0.files;
    if id :| id in S.ExpiredFiles(disk.files, at) {
      assert HasRecord(disk.files, id) && HasRecord(files, id);
      assert Timeless(files[id].d).status == Pending && Timeless(rows[id]).status == disk.files[id].d.status;
    } else {
      forall id | id in disk.files ensures files[id] == disk.files[id] {
        assert id !in S.ExpiredFiles(disk.files, at);
      }
      assert files == disk.files;
    }
  }

  /** A sweep is not mirrored: the stores still compare exactly if it found nothing to requeue. */
  lemma SweepUnmirrored(other: (Call, int) -> Reply, f: Files, p: Tables, run: string, at: int)
    requires StoreView(f, p)
    ensures StoreView(FsExec(other, f, ExpireLeases(run), at).0, p) <==> S.ExpiredFiles(FilesOf(f, run).disk.files, at) == {}
  {
    var f', x, y := FsExec(other, f, ExpireLeases(run), at).0, FilesOf(f, run).disk, RowsOf(p, run).rows;
    assert RunView(x.files, y);
    SweepViewed(x, y, at);
    assert FilesOf(f', run).disk.files == FsStep(x, S.Expire(at)).0.files;
    if RunView(FilesOf(f', run).disk.files, y) {
      RunsFollow(f, p, run, f', p);
    }
  }

  /** A claim won at `t` and mirrored at `t'`: the deadlines are each clock's own, the same exactly if the moments are. */
  lemma ClaimMoments(disk: S.Disk, rows: map<Id, Dispatch>, id: Id, e: Executor, lease: int, t: int, t': int)
    requires RunView(disk.files, rows) && FsStep(disk, S.Claim(id, e, t + lease)).1
    ensures var a, b := FsStep(disk, S.Claim(id, e, t + lease)).0.files, PgStep(rows, S.Claim(id, e, t' + lease)).0;
      && HasRecord(a, id) && id in b
      && a[id].d.leaseUntil == Some(t + lease) && b[id].leaseUntil == Some(t' + lease)
      && (a[id].d.leaseUntil == b[id].leaseUntil <==> t == t')
  {
    assert HasRecord(disk.files, id);
  }

  /** And an end: the records agree in everything else. */
  lemma ReleaseMoments(disk: S.Disk, rows: map<Id, Dispatch>, id: Id, e: Executor, status: Status, t: int, t': int)
    requires RunView(disk.files, rows) && FsStep(disk, S.Release(id, e, status, t)).1
    ensures var a, b := FsStep(disk, S.Release(id, e, status, t)).0.files, PgStep(rows, S.Release(id, e, status, t')).0;
      && HasRecord(a, id) && id in b
      && a[id].d.endedAt == Some(t) && b[id].endedAt == Some(t') && a[id].d == b[id].(endedAt := Some(t))
      && (a[id].d == b[id] <==> t == t')
  {
    assert HasRecord(disk.files, id);
  }
}
