/** Dispatch records, and the guarded updates the two stores apply to them. */
module Dispatches {

  datatype Option<+T> = None | Some(value: T)

  type Id = string

  /** An executor name; the empty string means "nobody" in a record. */
  type Executor = e: string | e != "" witness "w"

  /** Status strings; any spelling outside the known ones is `Other`. */
  datatype Status =
    | Pending | Claimed | Running
    | Completed | Failed | Halted | Stale | Denied
    | Other(text: string)

  /** What a supervisor reports about the work itself. */
  datatype Usage = Usage(costMicros: int, turns: int, session: string)

  datatype Dispatch = Dispatch(
    status: Status,
    claimedBy: string,
    leaseUntil: Option<int>,
    endedAt: Option<int>,
    denyReason: string,
    adapter: string,
    usage: Usage
  )

  const ZERO_DISPATCH := Dispatch(Other(""), "", None, None, "", "", Usage(0, 0, ""))

  predicate Terminal(s: Status) {
    s in {Completed, Failed, Halted, Stale, Denied}
  }

  /** The record names an executor. */
  predicate Held(d: Dispatch) {
    d.claimedBy != ""
  }

  /** A lease runs out strictly before `now`, on a record somebody may be working on. */
  predicate Expired(d: Dispatch, now: int) {
    d.status in {Claimed, Running} && d.leaseUntil.Some? && d.leaseUntil.value < now
  }

  /** Released, and out of every queue. */
  predicate Finished(d: Dispatch) {
    Terminal(d.status) && !Held(d) && d.leaseUntil.None?
  }

  /** Fields that agree: nobody holds a pending record, and claims and leases name their holder. */
  predicate Coherent(d: Dispatch) {
    && (d.status == Pending ==> !Held(d))
    && (d.status == Claimed ==> Held(d))
    && (d.leaseUntil.Some? ==> Held(d))
  }

  /** The three guarded updates: None is the refusal (an error, or no row matched). */

  function ClaimUpdate(d: Dispatch, e: Executor, deadline: int): Option<Dispatch> {
    if d.status != Pending then None
    else Some(d.(status := Claimed, claimedBy := e, leaseUntil := Some(deadline)))
  }

  function RenewUpdate(d: Dispatch, e: Executor, deadline: int): Option<Dispatch> {
    if d.claimedBy != e || d.status != Claimed then None
    else Some(d.(leaseUntil := Some(deadline)))
  }

  function ReleaseUpdate(d: Dispatch, e: Executor, status: Status, now: int): Option<Dispatch> {
    if d.claimedBy != e then None
    else Some(d.(status := status, claimedBy := "", leaseUntil := None, endedAt := Some(now)))
  }

  function Requeue(d: Dispatch): Dispatch {
    d.(status := Pending, claimedBy := "", leaseUntil := None)
  }

  function ExpireUpdate(d: Dispatch, now: int): Dispatch {
    if Expired(d, now) then Requeue(d) else d
  }

  /** A `meta.json`: `Blank` is the empty file left behind by an update that was refused. */
  datatype MetaFile = Blank | Corrupt | Record(d: Dispatch)

  /** The record a locked update sees: a missing or empty file reads as the zero record. */
  function RecordOf(files: map<Id, MetaFile>, id: Id): Dispatch {
    if id in files && files[id].Record? then files[id].d else ZERO_DISPATCH
  }

  predicate Unreadable(files: map<Id, MetaFile>, id: Id) {
    id in files && files[id].Corrupt?
  }

  /** A refused update still creates the file it opened. */
  function Touched(files: map<Id, MetaFile>, id: Id): map<Id, MetaFile> {
    if id in files then files else files[id := Blank]
  }
}
