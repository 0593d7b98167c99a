/**
 * The tee store: every call answered by the authoritative store, writes mirrored through a bounded queue.
 *
 * A caller's write has two steps with nothing held in between: the authoritative store answers, then the mirror
 * write is offered to the queue. Any number of callers may be between the two.
 */
module TeeStore {
  import opened Dispatches

  const MIRROR_QUEUE_CAP := 512

  datatype Document = Brief | Report | AdapterConfig

  /** The store interface; bodies, and all records but those of dispatches, are opaque texts. */
  datatype Call =
    | CreateRun(runID: string, run: string)
    | WriteRun(run: string)
    | AllocDispatch(runID: string)
    | WriteDispatch(runID: string, dispatchID: Id, d: Dispatch)
    | CreateAgentRun(runID: string, agent: string)
    | WriteAgentRun(runID: string, agent: string)
    | AppendCheckpointCandidate(runID: string, c: string)
    | AppendLedgerEvent(runID: string, ev: string)
    | WriteDocument(kind: Document, runID: string, dispatchID: string, body: string)
    | AppendNote(runID: string, author: string, body: string)
    | AppendTraceEvent(runID: string, dispatchID: string, ev: string)
    | ClaimDispatch(runID: string, dispatchID: Id, executor: Executor, lease: int)
    | RenewLease(runID: string, dispatchID: Id, executor: Executor, lease: int)
    | ReleaseDispatch(runID: string, dispatchID: Id, executor: Executor, status: Status)
    | ExpireLeases(runID: string)
    | Materialize(runID: string, dispatchID: string, dir: string)
    | AuditSink(runID: string, sink: string)
    | Read(query: string)

  datatype Reply = Err(message: string) | Ok | Named(id: string) | Won(claimed: bool) | Data(text: string)

  /** What a call and its answer put on the mirror queue: successful writes, won claims, the run's new id. */
  function Mirrored(call: Call, reply: Reply): Option<Call> {
    if reply.Err? || call.Read? || call.ExpireLeases? || call.Materialize? || call.AuditSink? then None
    else if call.CreateRun? then if reply.Named? then Some(CreateRun(reply.id, call.run)) else None
    else if call.ClaimDispatch? && reply != Won(true) then None
    else Some(call)
  }

  /**
   * Call by call: every write of the interface is mirrored as it was made once it has succeeded, a claim once it is won,
   * a new run under the id it was given; what only reads, expires leases, hands out files or an audit sink never is.
   */
  lemma MirroredIs(call: Call, reply: Reply)
    ensures call.WriteRun? || call.AllocDispatch? || call.WriteDispatch? || call.CreateAgentRun? || call.WriteAgentRun?
            || call.AppendCheckpointCandidate? || call.AppendLedgerEvent? || call.WriteDocument? || call.AppendNote?
            || call.AppendTraceEvent? || call.RenewLease? || call.ReleaseDispatch? ==>
      Mirrored(call, reply) == match reply case Err(_) => None case _ => Some(call)
    ensures call.ClaimDispatch? ==> Mirrored(call, reply) == match reply case Won(true) => Some(call) case _ => None
    ensures call.CreateRun? ==>
      Mirrored(call, reply) == match reply case Named(id) => Some(CreateRun(id, call.run)) case _ => None
    ensures call.ExpireLeases? || call.Materialize? || call.AuditSink? || call.Read? ==> Mirrored(call, reply).None?
  {
  }

  /** How a store answers a call made at a moment of its clock, and the store after it. */
  type Behaviour<!S> = (S, Call, int) -> (S, Reply)

  /** A call, and when the store runs it. */
  datatype Timed = Timed(call: Call, at: int)

  // ---------------------------------------------------------------- one store alone

  function After<S>(exec: Behaviour<S>, s: S, calls: seq<Timed>): S {
    if calls == [] then s
    else
      var last := calls[|calls| - 1];
      exec(After(exec, s, calls[..|calls| - 1]), last.call, last.at).0
  }

  function Replies<S>(exec: Behaviour<S>, s: S, calls: seq<Timed>): seq<Reply> {
    if calls == [] then []
    else
      var init, last := calls[..|calls| - 1], calls[|calls| - 1];
      Replies(exec, s, init) + [exec(After(exec, s, init), last.call, last.at).1]
  }

  function OptionSeq<T>(x: Option<T>): seq<T> {
    if x.Some? then [x.value] else []
  }

  /** The mirror write that a call made now gives rise to. */
  function NextWrite<S>(exec: Behaviour<S>, s: S, calls: seq<Timed>, next: Timed): Option<Call> {
    Mirrored(next.call, exec(After(exec, s, calls), next.call, next.at).1)
  }

  /** The mirror writes a list of calls gives rise to, in order. */
  function Mirrors<S>(exec: Behaviour<S>, s: S, calls: seq<Timed>): seq<Call> {
    if calls == [] then []
    else
      var init := calls[..|calls| - 1];
      Mirrors(exec, s, init) + OptionSeq(NextWrite(exec, s, init, calls[|calls| - 1]))
  }

  lemma AfterMore<S>(exec: Behaviour<S>, s: S, calls: seq<Timed>, next: Timed)
    ensures After(exec, s, calls + [next]) == exec(After(exec, s, calls), next.call, next.at).0
  {
    assert (calls + [next])[..|calls|] == calls;
  }

  lemma OneMore<S>(exec: Behaviour<S>, s: S, calls: seq<Timed>, next: Timed)
    ensures Replies(exec, s, calls + [next]) == Replies(exec, s, calls) + [exec(After(exec, s, calls), next.call, next.at).1]
    ensures Mirrors(exec, s, calls + [next]) == Mirrors(exec, s, calls) + OptionSeq(NextWrite(exec, s, calls, next))
  {
    assert (calls + [next])[..|calls|] == calls;
  }

  // ---------------------------------------------------------------- callers between their two steps

  /** What happens next: a caller's first or second step, or one move of the background goroutine. */
  datatype Action = Answer(caller: nat, next: Timed) | Offer(caller: nat) | Take | Apply(at: int)

  /** A mirror write and the caller it belongs to; writes are numbered as the authoritative store answered them. */
  datatype Write = Write(caller: nat, op: Call)

  /** What callers have done: calls answered, writes they gave rise to, and the numbers waiting and offered. */
  datatype Progress = Progress(asked: seq<Timed>, writes: seq<Write>, waiting: map<nat, nat>, offered: seq<nat>)

  const START := Progress([], [], map[], [])

  /** A caller still between its steps asks nothing, and one that is not has nothing to offer. */
  function Step<S>(exec: Behaviour<S>, s: S, p: Progress, action: Action): Progress {
    match action
    case Answer(caller, next) => if caller in p.waiting then p
      else Answered(p, caller, next, NextWrite(exec, s, p.asked, next))
    case Offer(caller) => if caller in p.waiting then Offered(p, caller) else p
    case Take => p
    case Apply(_) => p
  }

  /** `op` is the mirror write the call gives rise to, if any. */
  function Answered(p: Progress, caller: nat, next: Timed, op: Option<Call>): Progress {
    Progress(p.asked + [next],
             if op.None? then p.writes else p.writes + [Write(caller, op.value)],
             if op.None? then p.waiting else p.waiting[caller := |p.writes|],
             p.offered)
  }

  function Offered(p: Progress, caller: nat): Progress
    requires caller in p.waiting
  {
    p.(waiting := p.waiting - {caller}, offered := p.offered + [p.waiting[caller]])
  }

  function Play<S>(exec: Behaviour<S>, s: S, schedule: seq<Action>): Progress {
    if schedule == [] then START
    else Step(exec, s, Play(exec, s, schedule[..|schedule| - 1]), schedule[|schedule| - 1])
  }

  /** An offer passes one that has been waiting since before. */
  ghost predicate Overtakes(p: Progress, action: Action) {
    && action.Offer? && action.caller in p.waiting
    && exists other | other in p.waiting :: p.waiting[other] < p.waiting[action.caller]
  }

  ghost predicate Orderly<S>(exec: Behaviour<S>, s: S, schedule: seq<Action>) {
    forall i | 0 <= i < |schedule| :: !Overtakes(Play(exec, s, schedule[..i]), schedule[i])
  }

  // ---------------------------------------------------------------- what every schedule keeps

  /** Each write is waiting at its own caller or has been offered, and only once. */
  ghost predicate Numbered(p: Progress) {
    && (forall a, b | 0 <= a < b < |p.offered| :: p.offered[a] != p.offered[b])
    && (forall a | 0 <= a < |p.offered| :: p.offered[a] < |p.writes|)
    && (forall c | c in p.waiting :: p.waiting[c] < |p.writes| && p.writes[p.waiting[c]].caller == c && p.waiting[c] !in p.offered)
    && (forall k: nat | k < |p.writes| && k !in p.offered :: Waits(p, k))
  }

  ghost predicate Waits(p: Progress, k: nat)
    requires k < |p.writes|
  {
    p.writes[k].caller in p.waiting && p.waiting[p.writes[k].caller] == k
  }

  /** Each caller's writes are offered in the order it made them. */
  ghost predicate CallersInOrder(p: Progress)
    requires Numbered(p)
  {
    && (forall a, b | 0 <= a < b < |p.offered| && p.writes[p.offered[a]].caller == p.writes[p.offered[b]].caller ::
          p.offered[a] < p.offered[b])
    && (forall a, c | 0 <= a < |p.offered| && c in p.waiting && p.writes[p.offered[a]].caller == c :: p.offered[a] < p.waiting[c])
  }

  lemma AnsweredNumbered(p: Progress, caller: nat, next: Timed, op: Option<Call>)
    requires Numbered(p) && CallersInOrder(p) && caller !in p.waiting
    ensures Numbered(Answered(p, caller, next, op)) && CallersInOrder(Answered(p, caller, next, op))
  {
    var q := Answered(p, caller, next, op);
    if op.Some? {
      assert forall k | 0 <= k < |p.writes| :: q.writes[k] == p.writes[k];
      forall k: nat | k < |q.writes| && k !in q.offered ensures Waits(q, k) {
        if k < |p.writes| {
          assert Waits(p, k);
        }
      }
    }
  }

  lemma OfferedCallers(p: Progress, caller: nat)
    requires Numbered(p) && CallersInOrder(p) && caller in p.waiting && Numbered(Offered(p, caller))
    ensures CallersInOrder(Offered(p, caller))
  {
  }

  lemma OfferedNumbered(p: Progress, caller: nat)
    requires Numbered(p) && caller in p.waiting
    ensures Numbered(Offered(p, caller))
  {
    var q := Offered(p, caller);
    forall k: nat | k < |q.writes| && k !in q.offered ensures Waits(q, k) {
      assert forall a | 0 <= a < |p.offered| :: q.offered[a] == p.offered[a];
      assert q.offered[|p.offered|] == p.waiting[caller];
      assert Waits(p, k);
    }
  }

  lemma {:induction false} PlayNumbered<S>(exec: Behaviour<S>, s: S, schedule: seq<Action>)
    ensures Numbered(Play(exec, s, schedule)) && CallersInOrder(Play(exec, s, schedule))
  {
    if schedule != [] {
      PlayNumbered(exec, s, schedule[..|schedule| - 1]);
      var p := Play(exec, s, schedule[..|schedule| - 1]);
      match schedule[|schedule| - 1]
      case Answer(caller, next) =>
        if caller !in p.waiting {
          AnsweredNumbered(p, caller, next, NextWrite(exec, s, p.asked, next));
        }
      case Offer(caller) =>
        if caller in p.waiting {
          OfferedNumbered(p, caller);
          OfferedCallers(p, caller);
        }
      case _ =>
    }
  }

  /** The writes, in number order, are the mirror writes of the calls answered. */
  lemma {:induction false} PlayWrites<S>(exec: Behaviour<S>, s: S, schedule: seq<Action>)
    ensures var p := Play(exec, s, schedule); Mirrors(exec, s, p.asked) == OpsOf(p.writes)
  {
    if schedule != [] {
      PlayWrites(exec, s, schedule[..|schedule| - 1]);
      var p, action := Play(exec, s, schedule[..|schedule| - 1]), schedule[|schedule| - 1];
      if action.Answer? && action.caller !in p.waiting {
        OneMore(exec, s, p.asked, action.next);
        AnsweredOps(p, action.caller, action.next, NextWrite(exec, s, p.asked, action.next));
      }
    }
  }

  function OpsOf(writes: seq<Write>): (ops: seq<Call>)
    ensures |ops| == |writes| && forall k | 0 <= k < |ops| :: ops[k] == writes[k].op
  {
    seq(|writes|, k requires 0 <= k < |writes| => writes[k].op)
  }

  lemma AnsweredOps(p: Progress, caller: nat, next: Timed, op: Option<Call>)
    ensures OpsOf(Answered(p, caller, next, op).writes) == OpsOf(p.writes) + OptionSeq(op)
  {
  }

  // ---------------------------------------------------------------- in order, unless overtaken

  /** Numbers offered ascend, and those waiting are higher still. */
  ghost predicate Ascends(p: Progress) {
    && (forall a, b | 0 <= a < b < |p.offered| :: p.offered[a] < p.offered[b])
    && (forall a, c | 0 <= a < |p.offered| && c in p.waiting :: p.offered[a] < p.waiting[c])
  }

  lemma AscendedBefore(p: Progress, caller: nat)
    requires Numbered(p) && caller in p.waiting && Ascends(Offered(p, caller))
    ensures Ascends(p) && !Overtakes(p, Offer(caller))
  {
    var q, k := Offered(p, caller), p.waiting[caller];
    assert q.offered[|p.offered|] == k;
    assert forall a | 0 <= a < |p.offered| :: q.offered[a] == p.offered[a];
    forall a, c | 0 <= a < |p.offered| && c in p.waiting ensures p.offered[a] < p.waiting[c] {
      assert c != caller ==> c in q.waiting && q.offered[a] < q.waiting[c];
    }
    forall other | other in p.waiting ensures p.waiting[other] >= k {
      assert other != caller ==> other in q.waiting && q.offered[|p.offered|] < q.waiting[other];
    }
  }

  lemma AscendsStill(p: Progress, caller: nat)
    requires Numbered(p) && caller in p.waiting && Ascends(p) && !Overtakes(p, Offer(caller))
    ensures Ascends(Offered(p, caller))
  {
    var q, k := Offered(p, caller), p.waiting[caller];
    assert q.offered[|p.offered|] == k;
    assert forall a | 0 <= a < |p.offered| :: q.offered[a] == p.offered[a];
    forall c | c in q.waiting ensures k < q.waiting[c] {
      assert p.writes[p.waiting[c]].caller == c && p.writes[k].caller == caller;
    }
  }

  lemma OfferedAscends(p: Progress, caller: nat)
    requires Numbered(p) && caller in p.waiting
    ensures Ascends(Offered(p, caller)) <==> Ascends(p) && !Overtakes(p, Offer(caller))
  {
    if Ascends(Offered(p, caller)) {
      AscendedBefore(p, caller);
    }
    if Ascends(p) && !Overtakes(p, Offer(caller)) {
      AscendsStill(p, caller);
    }
  }

  lemma AnsweredAscends(p: Progress, caller: nat, next: Timed, op: Option<Call>)
    requires Numbered(p) && caller !in p.waiting
    ensures Ascends(Answered(p, caller, next, op)) <==> Ascends(p)
  {
    var q := Answered(p, caller, next, op);
    assert forall c | c in p.waiting :: c in q.waiting && q.waiting[c] == p.waiting[c];
  }

  lemma {:induction false} PlayAscends<S>(exec: Behaviour<S>, s: S, schedule: seq<Action>)
    ensures Ascends(Play(exec, s, schedule)) <==> Orderly(exec, s, schedule)
  {
    if schedule != [] {
      var n := |schedule| - 1;
      var p, action := Play(exec, s, schedule[..n]), schedule[n];
      PlayAscends(exec, s, schedule[..n]);
      PlayNumbered(exec, s, schedule[..n]);
      OrderlyMore(exec, s, schedule);
      match action
      case Answer(caller, next) =>
        if caller !in p.waiting {
          AnsweredAscends(p, caller, next, NextWrite(exec, s, p.asked, next));
        }
      case Offer(caller) =>
        if caller in p.waiting {
          OfferedAscends(p, caller);
        }
      case _ =>
    }
  }

  lemma OrderlyMore<S>(exec: Behaviour<S>, s: S, schedule: seq<Action>)
    requires schedule != []
    ensures var n := |schedule| - 1;
      Orderly(exec, s, schedule) <==>
        Orderly(exec, s, schedule[..n]) && !Overtakes(Play(exec, s, schedule[..n]), schedule[n])
  {
    var n := |schedule| - 1;
    assert forall i | 0 <= i < n :: schedule[..n][..i] == schedule[..i] && schedule[..n][i] == schedule[i];
  }

  /** Once no caller is between its steps, every write has been offered, each exactly once. */
  lemma AllOffered(p: Progress)
    requires Numbered(p) && p.waiting == map[]
    ensures forall k: nat :: k in p.offered <==> k < |p.writes|
    ensures multiset(p.offered) == multiset(Upto(|p.writes|))
  {
    forall k: nat ensures k in p.offered <==> k < |p.writes| {
      assert k < |p.writes| ==> k in p.offered || Waits(p, k);
    }
    forall k: nat ensures multiset(p.offered)[k] == multiset(Upto(|p.writes|))[k] {
      if k < |p.writes| {
        assert Upto(|p.writes|)[k] == k;
        OnlyOnce(p.offered, k);
        OnlyOnce(Upto(|p.writes|), k);
      }
    }
  }

  lemma {:induction false} OnlyOnce(s: seq<nat>, k: nat)
    requires k in s && forall a, b | 0 <= a < b < |s| :: s[a] != s[b]
    ensures multiset(s)[k] == 1
  {
    var a :| 0 <= a < |s| && s[a] == k;
    assert s == s[..a] + [k] + s[a + 1..];
    assert k !in s[..a] && k !in s[a + 1..];
  }

  /** The writes are offered in the order of the answers exactly when no offer overtook another. */
  lemma InOrderIff<S>(exec: Behaviour<S>, s: S, schedule: seq<Action>)
    requires Play(exec, s, schedule).waiting == map[]
    ensures var p := Play(exec, s, schedule);
      p.offered == Upto(|p.writes|) <==> Orderly(exec, s, schedule)
  {
    var p := Play(exec, s, schedule);
    PlayNumbered(exec, s, schedule);
    PlayAscends(exec, s, schedule);
    if Ascends(p) {
      AscendingAll(p, |p.writes|);
    }
  }

  function Upto(n: nat): seq<nat> {
    seq(n, i requires 0 <= i => i)
  }

  lemma AscendingAll(p: Progress, n: nat)
    requires Numbered(p) && Ascends(p) && p.waiting == map[] && n == |p.writes|
    ensures p.offered == Upto(n)
  {
    AllOffered(p);
    AscendingIs(p.offered, n);
  }

  lemma {:induction false} AscendingIs(s: seq<nat>, n: nat)
    requires forall a, b | 0 <= a < b < |s| :: s[a] < s[b]
    requires forall k: nat :: k in s <==> k < n
    ensures s == Upto(n)
  {
    assert n > 0 ==> 0 in s;
    if s != [] {
      var last := |s| - 1;
      assert s[last] in s;
      assert n - 1 in s;
      assert s[last] == n - 1;
      forall k: nat ensures k in s[..last] <==> k < n - 1 {
        if k < n - 1 {
          assert k in s;
          var a :| 0 <= a < |s| && s[a] == k;
          assert s[..last][a] == k;
        }
        if k in s[..last] {
          var a :| 0 <= a < last && s[..last][a] == k;
          assert s[a] < s[last];
        }
      }
      AscendingIs(s[..last], n - 1);
      assert s == s[..last] + [s[last]];
    }
  }

  // ---------------------------------------------------------------- the tee

  function InOrder(applied: seq<Call>, inFlight: Option<Call>, queue: seq<Call>): seq<Call> {
    applied + OptionSeq(inFlight) + queue
  }

  lemma TakeKeeps(applied: seq<Call>, queue: seq<Call>)
    requires queue != []
    ensures InOrder(applied, Some(queue[0]), queue[1..]) == InOrder(applied, None, queue)
  {
  }

  lemma ApplyKeeps(applied: seq<Call>, op: Call, queue: seq<Call>)
    ensures InOrder(applied + [op], None, queue) == InOrder(applied, Some(op), queue)
  {
  }

  ghost predicate Within(ks: seq<nat>, n: nat) {
    forall i | 0 <= i < |ks| :: ks[i] < n
  }

  /** The writes with these numbers, in this order. */
  function OpsAt(writes: seq<Write>, ks: seq<nat>): (ops: seq<Call>)
    requires Within(ks, |writes|)
    ensures |ops| == |ks| && forall i | 0 <= i < |ks| :: ops[i] == writes[ks[i]].op
  {
    seq(|ks|, i requires 0 <= i < |ks| => writes[ks[i]].op)
  }

  /** `a` is obtained from `b` by leaving elements out. */
  predicate Subsequence(a: seq<nat>, b: seq<nat>) {
    || a == []
    || (b != [] && ((a[|a| - 1] == b[|b| - 1] && Subsequence(a[..|a| - 1], b[..|b| - 1])) || Subsequence(a, b[..|b| - 1])))
  }

  lemma {:induction false} SubsequenceShorter(a: seq<nat>, b: seq<nat>)
    requires Subsequence(a, b)
    ensures |a| <= |b| && (|a| == |b| ==> a == b)
    decreases |b|
  {
    if a != [] {
      var inits := a[|a| - 1] == b[|b| - 1] && Subsequence(a[..|a| - 1], b[..|b| - 1]);
      if inits {
        SubsequenceShorter(a[..|a| - 1], b[..|b| - 1]);
        assert a == a[..|a| - 1] + [a[|a| - 1]] && b == b[..|b| - 1] + [b[|b| - 1]];
      } else {
        SubsequenceShorter(a, b[..|b| - 1]);
      }
    }
  }

  /** The offers the queue took, in order; `took` says of each whether there was room. */
  function Taken(offered: seq<nat>, took: seq<bool>): seq<nat>
    requires |took| == |offered|
  {
    if offered == [] then []
    else
      var n := |offered| - 1;
      Taken(offered[..n], took[..n]) + if took[n] then [offered[n]] else []
  }

  ghost predicate Selected(kept: seq<nat>, took: seq<bool>, offered: seq<nat>) {
    |took| == |offered| && kept == Taken(offered, took)
  }

  lemma SelectedMore(kept: seq<nat>, took: seq<bool>, offered: seq<nat>, k: nat, room: bool)
    requires Selected(kept, took, offered)
    ensures Selected(if room then kept + [k] else kept, took + [room], offered + [k])
  {
    assert (offered + [k])[..|offered|] == offered && (took + [room])[..|took|] == took;
    assert kept + [] == kept;
  }

  lemma {:induction false} TakenCount(offered: seq<nat>, took: seq<bool>)
    requires |took| == |offered|
    ensures |Taken(offered, took)| + multiset(took)[false] == |offered|
  {
    if offered != [] {
      var n := |offered| - 1;
      TakenCount(offered[..n], took[..n]);
      assert took == took[..n] + [took[n]];
    }
  }

  /** What was taken is what was offered with some left out: one for each offer that found no room. */
  lemma {:induction false} TakenSubsequence(offered: seq<nat>, took: seq<bool>)
    requires |took| == |offered|
    ensures Subsequence(Taken(offered, took), offered)
    ensures |Taken(offered, took)| + multiset(took)[false] == |offered|
  {
    TakenCount(offered, took);
    if offered != [] {
      var n := |offered| - 1;
      TakenSubsequence(offered[..n], took[..n]);
      SubsequenceMore(Taken(offered[..n], took[..n]), offered, n, took[n]);
    }
  }

  lemma SubsequenceMore(fewer: seq<nat>, offered: seq<nat>, n: nat, taken: bool)
    requires |offered| == n + 1 && Subsequence(fewer, offered[..n])
    ensures Subsequence(fewer + if taken then [offered[n]] else [], offered)
  {
    if taken {
      assert (fewer + [offered[n]])[..|fewer|] == fewer;
    } else {
      assert fewer + [] == fewer;
    }
  }

  /** The mirror's side agrees with what was kept: applied, being applied, and queued. */
  ghost predicate Mirroring(p: Progress, kept: seq<nat>, took: seq<bool>, applied: seq<Call>, inFlight: Option<Call>, queue: seq<Call>) {
    && Selected(kept, took, p.offered) && Within(kept, |p.writes|)
    && InOrder(applied, inFlight, queue) == OpsAt(p.writes, kept)
  }

  /** Each waiting caller holds the write it is going to offer. */
  ghost predicate Holding(p: Progress, waiting: map<nat, Call>) {
    && waiting.Keys == p.waiting.Keys
    && forall c | c in waiting :: p.waiting[c] < |p.writes| && waiting[c] == p.writes[p.waiting[c]].op
  }

  /** The write a caller is going to offer, if it has one. */
  function Put(waiting: map<nat, Call>, caller: nat, op: Option<Call>): map<nat, Call> {
    if op.Some? then waiting[caller := op.value] else waiting
  }

  /** The calls a store has run, without their moments. */
  function Calls(ran: seq<Timed>): (calls: seq<Call>)
    ensures |calls| == |ran| && forall i | 0 <= i < |ran| :: calls[i] == ran[i].call
  {
    seq(|ran|, i requires 0 <= i < |ran| => ran[i].call)
  }

  lemma RanMore(ran: seq<Timed>, next: Timed)
    ensures Calls(ran + [next]) == Calls(ran) + [next.call]
  {
  }

  /** The authoritative store and the mirror are different stores, each with its own state and its own clock. */
  class TeeStore<F(==, !new), P(==, !new)> {
    const fsExec: Behaviour<F>
    const pgExec: Behaviour<P>
    var fs: F
    var pg: P
    var mirrorQ: seq<Call>
    var inFlight: Option<Call>
    var closed: bool
    var waiting: map<nat, Call>      // callers answered that have not yet offered their mirror write
    ghost const fs0: F
    ghost const pg0: P
    ghost var progress: Progress
    ghost var took: seq<bool>        // of each offer, whether the queue had room
    ghost var kept: seq<nat>         // the writes the queue took
    ghost var applied: seq<Timed>    // what the mirror has run, and when

    ghost predicate Valid()
      reads this
    {
      && |mirrorQ| <= MIRROR_QUEUE_CAP
      && fs == After(fsExec, fs0, progress.asked)
      && pg == After(pgExec, pg0, applied)
      && Holding(progress, waiting)
      && Mirroring(progress, kept, took, Calls(applied), inFlight, mirrorQ)
      && (closed ==> inFlight.None? && mirrorQ == [])
    }

    constructor (fsExec: Behaviour<F>, pgExec: Behaviour<P>, fs: F, pg: P)
      ensures Valid() && !closed && this.fsExec == fsExec && this.pgExec == pgExec
      ensures fs0 == fs && pg0 == pg && progress == START && took == []
    {
      this.fsExec, this.pgExec := fsExec, pgExec;
      this.fs, this.pg := fs, pg;
      this.fs0, this.pg0 := fs, pg;
      mirrorQ, inFlight, closed, waiting := [], None, false, map[];
      progress, kept, took, applied := START, [], [], [];
    }

    /** A caller's first step: the authoritative store answers, and a successful write is to be mirrored. */
    method AnswerCall(caller: nat, next: Timed) returns (reply: Reply, op: Option<Call>)
      requires Valid() && !closed && caller !in waiting
      modifies this`fs, this`waiting, this`progress
      ensures Valid() && progress == Answered(old(progress), caller, next, op)
      ensures reply == fsExec(old(fs), next.call, next.at).1 && fs == fsExec(old(fs), next.call, next.at).0
      ensures op == Mirrored(next.call, reply) && waiting == Put(old(waiting), caller, op)
    {
      AfterMore(fsExec, fs0, progress.asked, next);
      var result := fsExec(fs, next.call, next.at);
      fs, reply := result.0, result.1;
      op := Mirrored(next.call, reply);
      AnsweredKeeps(progress, caller, next, op, waiting);
      AnsweredMirroring(progress, caller, next, op, kept, took, Calls(applied), inFlight, mirrorQ);
      progress := Answered(progress, caller, next, op);
      waiting := Put(waiting, caller, op);
    }

    /** Its second step: the write is queued, or lost to a full queue; the caller never waits. */
    method Enqueue(caller: nat)
      requires Valid() && !closed && caller in waiting
      modifies this`mirrorQ, this`waiting, this`progress, this`kept, this`took
      ensures Valid() && waiting == old(waiting) - {caller}
      ensures caller in old(progress).waiting && progress == Offered(old(progress), caller)
      ensures mirrorQ == old(mirrorQ) + if |old(mirrorQ)| < 512 then [old(waiting)[caller]] else []
      ensures took == old(took) + [|old(mirrorQ)| < 512]
    {
      OfferedHolding(progress, caller, waiting);
      OfferedMirroring(progress, caller, kept, took, Calls(applied), inFlight, mirrorQ);
      took := took + [|mirrorQ| < MIRROR_QUEUE_CAP];
      if |mirrorQ| < MIRROR_QUEUE_CAP {
        mirrorQ := mirrorQ + [waiting[caller]];
        kept := kept + [progress.waiting[caller]];
      }
      progress := Offered(progress, caller);
      waiting := waiting - {caller};
    }

    /** A caller whose two steps nobody comes between. */
    method Invoke(caller: nat, next: Timed) returns (reply: Reply, op: Option<Call>)
      requires Valid() && !closed && caller !in waiting
      modifies this`fs, this`waiting, this`progress, this`mirrorQ, this`kept, this`took
      ensures Valid() && reply == fsExec(old(fs), next.call, next.at).1 && op == Mirrored(next.call, reply)
      ensures waiting == old(waiting)
      ensures mirrorQ == old(mirrorQ) + if op.Some? && |old(mirrorQ)| < 512 then [op.value] else []
    {
      reply, op := AnswerCall(caller, next);
      if op.Some? {
        PutAndTaken(old(waiting), caller, op.value);
        Enqueue(caller);
      }
    }

    /** The background goroutine receives the oldest queued write … */
    method Receive()
      requires Valid() && inFlight.None? && mirrorQ != []
      modifies this`inFlight, this`mirrorQ
      ensures Valid() && inFlight == Some(old(mirrorQ)[0]) && mirrorQ == old(mirrorQ)[1..]
    {
      TakeKeeps(Calls(applied), mirrorQ);
      inFlight := Some(mirrorQ[0]);
      mirrorQ := mirrorQ[1..];
    }

    /** … and runs it on the mirror at a moment of its own; nobody sees the mirror's answer. */
    method Run(at: int)
      requires Valid() && inFlight.Some?
      modifies this`pg, this`inFlight, this`applied
      ensures Valid() && inFlight.None? && applied == old(applied) + [Timed(old(inFlight).value, at)]
      ensures pg == pgExec(old(pg), old(inFlight).value, at).0
    {
      var op := inFlight.value;
      ApplyKeeps(Calls(applied), op, mirrorQ);
      RanMore(applied, Timed(op, at));
      AfterMore(pgExec, pg0, applied, Timed(op, at));
      pg := pgExec(pg, op, at).0;
      applied := applied + [Timed(op, at)];
      inFlight := None;
    }

    /** Closing, when every caller has returned, waits until the goroutine has emptied the queue. */
    method Close()
      requires Valid() && waiting == map[]
      modifies this`pg, this`mirrorQ, this`inFlight, this`applied, this`closed
      ensures Valid() && closed && Calls(applied) == OpsAt(progress.writes, kept)
    {
      if !closed {
        if inFlight.Some? {
          var at: int := *;
          Run(at);
        }
        Drain();
        closed := true;
      }
      assert InOrder(Calls(applied), None, []) == Calls(applied);
    }

    /** The moments at which what is left is run are the goroutine's. */
    method Drain()
      requires Valid() && inFlight.None?
      modifies this`pg, this`mirrorQ, this`inFlight, this`applied
      ensures Valid() && inFlight.None? && mirrorQ == []
    {
      while mirrorQ != []
        invariant Valid() && inFlight.None?
        decreases |mirrorQ|
      {
        Receive();
        var at: int := *;
        Run(at);
      }
    }
  }

  lemma PutAndTaken(waiting: map<nat, Call>, caller: nat, op: Call)
    requires caller !in waiting
    ensures Put(waiting, caller, Some(op)) - {caller} == waiting
  {
  }

  lemma AnsweredKeeps(p: Progress, caller: nat, next: Timed, op: Option<Call>, waiting: map<nat, Call>)
    requires Holding(p, waiting) && caller !in waiting
    ensures Holding(Answered(p, caller, next, op), Put(waiting, caller, op))
  {
  }

  lemma AnsweredMirroring(p: Progress, caller: nat, next: Timed, op: Option<Call>,
                          kept: seq<nat>, took: seq<bool>, applied: seq<Call>, inFlight: Option<Call>, queue: seq<Call>)
    requires Mirroring(p, kept, took, applied, inFlight, queue)
    ensures Mirroring(Answered(p, caller, next, op), kept, took, applied, inFlight, queue)
  {
    var q := Answered(p, caller, next, op);
    assert forall k | 0 <= k < |p.writes| :: q.writes[k] == p.writes[k];
    assert OpsAt(q.writes, kept) == OpsAt(p.writes, kept);
  }

  lemma OfferedHolding(p: Progress, caller: nat, waiting: map<nat, Call>)
    requires Holding(p, waiting) && caller in waiting
    ensures Holding(Offered(p, caller), waiting - {caller})
  {
  }

  /** An offered write joins the end of the queue, or is dropped. */
  lemma OfferedMirroring(p: Progress, caller: nat,
                         kept: seq<nat>, took: seq<bool>, applied: seq<Call>, inFlight: Option<Call>, queue: seq<Call>)
    requires Mirroring(p, kept, took, applied, inFlight, queue) && caller in p.waiting && p.waiting[caller] < |p.writes|
    ensures var q, k := Offered(p, caller), p.waiting[caller];
      && Mirroring(q, kept + [k], took + [true], applied, inFlight, queue + [p.writes[k].op])
      && Mirroring(q, kept, took + [false], applied, inFlight, queue)
  {
    var k := p.waiting[caller];
    SelectedMore(kept, took, p.offered, k, true);
    SelectedMore(kept, took, p.offered, k, false);
    assert InOrder(applied, inFlight, queue + [p.writes[k].op]) == InOrder(applied, inFlight, queue) + [p.writes[k].op];
    assert OpsAt(p.writes, kept + [k]) == OpsAt(p.writes, kept) + [p.writes[k].op];
  }

  /**
   * Any interleaving of callers' steps with the goroutine in which every caller returns, then Close. Callers see
   * exactly the answers of the authoritative store alone; the mirror has run the writes in the order they were
   * offered, without those that met a full queue.
   */
  method RunSchedule<F(==, !new), P(==, !new)>(tee: TeeStore<F, P>, schedule: seq<Action>) returns (replies: seq<Reply>)
    requires tee.Valid() && !tee.closed && tee.progress == START && tee.waiting == map[]
    requires Play(tee.fsExec, tee.fs0, schedule).waiting == map[]
    modifies tee
    ensures tee.progress == Play(tee.fsExec, tee.fs0, schedule)
    ensures replies == Replies(tee.fsExec, tee.fs0, tee.progress.asked)
    ensures tee.fs == After(tee.fsExec, tee.fs0, tee.progress.asked)
    ensures Selected(tee.kept, tee.took, tee.progress.offered) && Subsequence(tee.kept, tee.progress.offered)
    ensures |tee.kept| + multiset(tee.took)[false] == |tee.progress.offered|
    ensures false !in tee.took ==> tee.kept == tee.progress.offered
    ensures Within(tee.kept, |tee.progress.writes|) && Calls(tee.applied) == OpsAt(tee.progress.writes, tee.kept)
    ensures tee.pg == After(tee.pgExec, tee.pg0, tee.applied)
  {
    replies := [];
    for i := 0 to |schedule|
      invariant tee.Valid() && !tee.closed
      invariant tee.progress == Play(tee.fsExec, tee.fs0, schedule[..i])
      invariant replies == Replies(tee.fsExec, tee.fs0, tee.progress.asked)
    {
      assert schedule[..i + 1][..i] == schedule[..i];
      var more := Perform(tee, schedule[i]);
      replies := replies + more;
    }
    assert schedule[..|schedule|] == schedule;
    tee.Close();
    TakenSubsequence(tee.progress.offered, tee.took);
    SubsequenceShorter(tee.kept, tee.progress.offered);
  }

  /** One action, if it is possible. */
  method Perform<F(==, !new), P(==, !new)>(tee: TeeStore<F, P>, action: Action) returns (replies: seq<Reply>)
    requires tee.Valid() && !tee.closed
    modifies tee
    ensures tee.Valid() && !tee.closed && tee.progress == Step(tee.fsExec, tee.fs0, old(tee.progress), action)
    ensures Replies(tee.fsExec, tee.fs0, tee.progress.asked) == Replies(tee.fsExec, tee.fs0, old(tee.progress).asked) + replies
  {
    replies := [];
    match action {
      case Answer(caller, next) =>
        if caller !in tee.waiting {
          var reply := PerformAnswer(tee, caller, next);
          replies := [reply];
        }
      case Offer(caller) =>
        if caller in tee.waiting {
          tee.Enqueue(caller);
        }
      case Take =>
        if tee.inFlight.None? && tee.mirrorQ != [] {
          tee.Receive();
        }
      case Apply(at) =>
        if tee.inFlight.Some? {
          tee.Run(at);
        }
    }
  }

  method PerformAnswer<F(==, !new), P(==, !new)>(tee: TeeStore<F, P>, caller: nat, next: Timed) returns (reply: Reply)
    requires tee.Valid() && !tee.closed && caller !in tee.waiting
    modifies tee
    ensures tee.Valid() && !tee.closed && tee.progress == Step(tee.fsExec, tee.fs0, old(tee.progress), Answer(caller, next))
    ensures Replies(tee.fsExec, tee.fs0, tee.progress.asked) == Replies(tee.fsExec, tee.fs0, old(tee.progress).asked) + [reply]
  {
    OneMore(tee.fsExec, tee.fs0, tee.progress.asked, next);
    var op;
    reply, op := tee.AnswerCall(caller, next);
  }

  // ---------------------------------------------------------------- when the mirror follows

  /** How the two stores' states are compared. */
  type View<!F, !P> = (F, P) -> bool

  /**
   * Two stores that compare well still do after a call on the authoritative one at its moment, and its mirror write,
   * if it has one, on the mirror at another.
   */
  ghost predicate Follows<F, P>(fsExec: Behaviour<F>, pgExec: Behaviour<P>, view: View<F, P>, f: F, p: P, c: Timed, at: int) {
    match Mirrored(c.call, fsExec(f, c.call, c.at).1)
    case None => view(fsExec(f, c.call, c.at).0, p)
    case Some(op) => view(fsExec(f, c.call, c.at).0, pgExec(p, op, at).0)
  }

  /** So it is from all states, whatever the moments at which the mirror runs. */
  ghost predicate Tracks<F(!new), P(!new)>(fsExec: Behaviour<F>, pgExec: Behaviour<P>, view: View<F, P>, calls: seq<Timed>) {
    forall f: F, p: P, c, at: int | c in calls && view(f, p) :: Follows(fsExec, pgExec, view, f, p, c, at)
  }

  /** A mirror that has run all the mirror writes in the order of the answers still compares well, whenever it ran them. */
  lemma {:induction false} MirrorFollows<F(!new), P(!new)>(fsExec: Behaviour<F>, pgExec: Behaviour<P>, view: View<F, P>,
                                                           f: F, p: P, calls: seq<Timed>, ran: seq<Timed>)
    requires Tracks(fsExec, pgExec, view, calls) && view(f, p) && Calls(ran) == Mirrors(fsExec, f, calls)
    ensures view(After(fsExec, f, calls), After(pgExec, p, ran))
    decreases |calls|
  {
    if calls == [] {
      assert ran == [];
    } else {
      var init, last := calls[..|calls| - 1], calls[|calls| - 1];
      assert last in calls;
      var op := NextWrite(fsExec, f, init, last);
      if op.None? {
        assert Mirrors(fsExec, f, init) + [] == Mirrors(fsExec, f, init);
        MirrorFollows(fsExec, pgExec, view, f, p, init, ran);
        assert Follows(fsExec, pgExec, view, After(fsExec, f, init), After(pgExec, p, ran), last, 0);
      } else {
        LastRan(ran, Mirrors(fsExec, f, init), op.value);
        MirrorFollows(fsExec, pgExec, view, f, p, init, ran[..|ran| - 1]);
        assert Follows(fsExec, pgExec, view, After(fsExec, f, init), After(pgExec, p, ran[..|ran| - 1]), last, ran[|ran| - 1].at);
      }
    }
  }

  lemma LastRan(ran: seq<Timed>, calls: seq<Call>, last: Call)
    requires Calls(ran) == calls + [last]
    ensures ran != [] && ran[|ran| - 1].call == last && Calls(ran[..|ran| - 1]) == calls
  {
    assert Calls(ran)[|calls|] == last;
    assert forall i | 0 <= i < |calls| :: Calls(ran)[i] == calls[i];
  }

  /** So an orderly schedule without drops ends with a mirror that compares well, if every caller has returned. */
  lemma OrderlyFollows<F(!new), P(!new)>(fsExec: Behaviour<F>, pgExec: Behaviour<P>, view: View<F, P>,
                                         f: F, p: P, schedule: seq<Action>, ran: seq<Timed>)
    requires var q := Play(fsExec, f, schedule);
      && q.waiting == map[] && Orderly(fsExec, f, schedule) && Tracks(fsExec, pgExec, view, q.asked)
      && Within(q.offered, |q.writes|) && Calls(ran) == OpsAt(q.writes, q.offered)
    requires view(f, p)
    ensures view(After(fsExec, f, Play(fsExec, f, schedule).asked), After(pgExec, p, ran))
  {
    var q := Play(fsExec, f, schedule);
    InOrderIff(fsExec, f, schedule);
    PlayWrites(fsExec, f, schedule);
    assert OpsAt(q.writes, Upto(|q.writes|)) == OpsOf(q.writes);
    MirrorFollows(fsExec, pgExec, view, f, p, q.asked, ran);
  }

  /** The tee itself, run on such a schedule. */
  method RunOrderly<F(==, !new), P(==, !new)>(tee: TeeStore<F, P>, schedule: seq<Action>, ghost view: View<F, P>)
    requires tee.Valid() && !tee.closed && tee.progress == START && tee.waiting == map[]
    requires Play(tee.fsExec, tee.fs0, schedule).waiting == map[] && Orderly(tee.fsExec, tee.fs0, schedule)
    requires Tracks(tee.fsExec, tee.pgExec, view, Play(tee.fsExec, tee.fs0, schedule).asked) && view(tee.fs0, tee.pg0)
    modifies tee
    ensures false !in tee.took ==> view(tee.fs, tee.pg)
  {
    var _ := RunSchedule(tee, schedule);
    if false !in tee.took {
      OrderlyFollows(tee.fsExec, tee.pgExec, view, tee.fs0, tee.pg0, schedule, tee.applied);
    }
  }

  // ---------------------------------------------------------------- when it does not

  /** A store of one record, which every dispatch write replaces. */
  function LastRecord(s: Option<Dispatch>, call: Call, at: int): (Option<Dispatch>, Reply) {
    (if call.WriteDispatch? then Some(call.d) else s, Ok)
  }

  /** Two dispatch writes, the second of which overtakes the first between answer and offer. */
  function Overtaking(a: Timed, b: Timed): seq<Action> {
    [Answer(0, a), Answer(1, b)] + [Offer(1), Offer(0)]
  }

  lemma PlayTwo<S>(exec: Behaviour<S>, s: S, schedule: seq<Action>, x: Action, y: Action)
    ensures Play(exec, s, schedule + [x]) == Step(exec, s, Play(exec, s, schedule), x)
    ensures Play(exec, s, schedule + [x, y]) == Step(exec, s, Play(exec, s, schedule + [x]), y)
  {
    assert (schedule + [x])[..|schedule|] == schedule;
    assert (schedule + [x, y])[..|schedule| + 1] == schedule + [x];
  }

  lemma FirstAnswered(a: Timed)
    requires a.call.WriteDispatch?
    ensures Step(LastRecord, None, START, Answer(0, a)) == Progress([a], [Write(0, a.call)], map[0 := 0], [])
  {
  }

  lemma SecondAnswered(a: Timed, b: Timed)
    requires a.call.WriteDispatch? && b.call.WriteDispatch?
    ensures Step(LastRecord, None, Progress([a], [Write(0, a.call)], map[0 := 0], []), Answer(1, b)) ==
      Progress([a, b], [Write(0, a.call), Write(1, b.call)], map[0 := 0, 1 := 1], [])
  {
    assert Mirrored(b.call, Ok) == Some(b.call);
  }

  lemma BothAnswered(a: Timed, b: Timed)
    requires a.call.WriteDispatch? && b.call.WriteDispatch?
    ensures Play(LastRecord, None, [Answer(0, a), Answer(1, b)]) ==
      Progress([a, b], [Write(0, a.call), Write(1, b.call)], map[0 := 0, 1 := 1], [])
  {
    PlayTwo(LastRecord, None, [], Answer(0, a), Answer(1, b));
    assert [] + [Answer(0, a), Answer(1, b)] == [Answer(0, a), Answer(1, b)];
    FirstAnswered(a);
    SecondAnswered(a, b);
  }

  lemma OfferedTwo(asked: seq<Timed>, writes: seq<Write>)
    ensures var p := Progress(asked, writes, map[0 := 0, 1 := 1], []);
      && 1 in p.waiting && Offered(p, 1) == Progress(asked, writes, map[0 := 0], [1])
      && 0 in Offered(p, 1).waiting && Offered(Offered(p, 1), 0) == Progress(asked, writes, map[], [1, 0])
  {
    assert map[0 := 0, 1 := 1] - {1} == map[0 := 0] && map[0 := 0] - {0} == map[];
  }

  lemma BothOffered(a: Timed, b: Timed)
    requires a.call.WriteDispatch? && b.call.WriteDispatch?
    ensures Play(LastRecord, None, Overtaking(a, b)) ==
      Progress([a, b], [Write(0, a.call), Write(1, b.call)], map[], [1, 0])
  {
    BothAnswered(a, b);
    PlayTwo(LastRecord, None, [Answer(0, a), Answer(1, b)], Offer(1), Offer(0));
    OfferedTwo([a, b], [Write(0, a.call), Write(1, b.call)]);
  }

  lemma NotOrderly(a: Timed, b: Timed)
    requires a.call.WriteDispatch? && b.call.WriteDispatch?
    ensures !Orderly(LastRecord, None, Overtaking(a, b))
  {
    BothAnswered(a, b);
    var p := Progress([a, b], [Write(0, a.call), Write(1, b.call)], map[0 := 0, 1 := 1], []);
    assert 0 in p.waiting && p.waiting[0] < p.waiting[1];
    assert Overtakes(p, Offer(1));
    var schedule := Overtaking(a, b);
    assert schedule[..2] == [Answer(0, a), Answer(1, b)] && schedule[2] == Offer(1);
  }

  lemma LastOfTwo(a: Timed, b: Timed)
    requires a.call.WriteDispatch? && b.call.WriteDispatch?
    ensures After(LastRecord, None, [a, b]) == Some(b.call.d)
  {
    assert [a, b][..1] == [a];
  }

  predicate SameRecord(f: Option<Dispatch>, p: Option<Dispatch>) {
    f == p
  }

  /** In the order of the answers two such stores stay equal. */
  lemma LastRecordTracks(calls: seq<Timed>)
    ensures Tracks(LastRecord, LastRecord, SameRecord, calls)
  {
    forall f, p, c, at: int | c in calls && SameRecord(f, p) ensures Follows(LastRecord, LastRecord, SameRecord, f, p, c, at) {
    }
  }

  /**
   * Nothing is dropped, the stores start out equal, and each write would keep them equal if run in order; yet the
   * mirror ends with the older record, whenever it runs the two writes.
   */
  lemma OvertakenMirror(a: Timed, b: Timed, ran: seq<Timed>) returns (p: Progress)
    requires a.call.WriteDispatch? && b.call.WriteDispatch? && Calls(ran) == [b.call, a.call]
    ensures p == Play(LastRecord, None, Overtaking(a, b)) && p.waiting == map[] && p.offered == [1, 0]
    ensures !Orderly(LastRecord, None, Overtaking(a, b)) && Within(p.offered, |p.writes|)
    ensures Calls(ran) == OpsAt(p.writes, p.offered) && Tracks(LastRecord, LastRecord, SameRecord, p.asked)
    ensures After(LastRecord, None, p.asked) == Some(b.call.d) && After(LastRecord, None, ran) == Some(a.call.d)
  {
    p := Progress([a, b], [Write(0, a.call), Write(1, b.call)], map[], [1, 0]);
    BothOffered(a, b);
    NotOrderly(a, b);
    LastOfTwo(a, b);
    LastRecordTracks(p.asked);
    assert ran == [ran[0], ran[1]] && ran[0].call == Calls(ran)[0] && ran[1].call == Calls(ran)[1];
    LastOfTwo(ran[0], ran[1]);
    assert OpsAt(p.writes, p.offered) == [b.call, a.call];
  }
}
