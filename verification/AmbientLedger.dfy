/** Attempt numbering and deduplication over the append-only ledger of ambient task events. */
module AmbientLedger {
  import AgentRuns
  import opened Decimals
  import opened Dispatches
  import opened StatusFold
  import opened Text

  const NUL := '\0'
  const ATTEMPT := "attempt_id:"

  /** What the numbering needs of the hash: no two inputs collide, and outputs are plain non-empty text. */
  ghost predicate GoodHash(hash: string -> string) {
    && (forall x, y :: hash(x) == hash(y) ==> x == y)
    && (forall x :: hash(x) != "" && NUL !in hash(x))
  }

  // ---------------------------------------------------------------- ordinals in print

  const MAX_INT := 0x7FFF_FFFF_FFFF_FFFF

  lemma IntDigits(v: nat)
    requires v <= MAX_INT
    ensures |Decimal(v)| <= 19
  {
    DecimalLength(v, 19);
    PowerFour(15);
    PowerFour(11);
    PowerFour(7);
    PowerFour(3);
    assert Power10(3) >= 1000;
  }

  /** A machine integer printed into a buffer of twenty bytes; a negative one prints as nothing. */
  method IntFingerprint(v: int) returns (s: string)
    requires v <= MAX_INT
    ensures v >= 0 ==> s == Decimal(v)
    ensures v < 0 ==> s == ""
  {
    if v == 0 {
      return "0";
    }
    var b := new char[20];
    var i, n := b.Length, v;
    if v > 0 {
      IntDigits(v);
    }
    while n > 0
      invariant 0 <= i <= 20 && (v < 0 ==> i == 20) && (v > 0 ==> n >= 0)
      invariant v > 0 ==> Decimal(v) == (if n == 0 then "" else Decimal(n)) + b[i..]
    {
      ghost var tail := b[i..];
      i := i - 1;
      b[i] := Digit(n % 10);
      assert b[i..] == [Digit(n % 10)] + tail;
      assert Decimal(n) == (if n < 10 then "" else Decimal(n / 10)) + [Digit(n % 10)];
      n := n / 10;
    }
    return b[i..];
  }

  function Fingerprint(v: int): string {
    if v < 0 then "" else Decimal(v)
  }

  function AttemptFor(hash: string -> string, descriptor: string, ordinal: int): string {
    "attempt-" + hash(descriptor + [NUL] + Fingerprint(ordinal))
  }

  /** Text joined by NUL can be taken apart if the first part has none. */
  lemma JoinInjective(a: string, b: string, a': string, b': string)
    requires a + [NUL] + b == a' + [NUL] + b' && NUL !in a && NUL !in a'
    ensures a == a' && b == b'
  {
    var s, t := a + [NUL] + b, a' + [NUL] + b';
    assert s[|a|] == NUL && t[|a'|] == NUL;
    assert forall k | 0 <= k < |a| :: s[k] == a[k] && a[k] in a;
    assert forall k | 0 <= k < |a'| :: t[k] == a'[k] && a'[k] in a';
    assert |a| == |a'|;
    assert s[..|a|] == a && t[..|a|] == a' && s[|a| + 1..] == b && t[|a| + 1..] == b';
  }

  /** Attempt ids of different descriptors or ordinals differ. */
  lemma AttemptsDiffer(hash: string -> string, d: string, k: nat, d': string, k': nat)
    requires GoodHash(hash) && NUL !in d && NUL !in d' && AttemptFor(hash, d, k) == AttemptFor(hash, d', k')
    ensures d == d' && k == k'
  {
    var x, y := d + [NUL] + Decimal(k), d' + [NUL] + Decimal(k');
    assert AttemptFor(hash, d, k)[8..] == hash(x) && AttemptFor(hash, d', k')[8..] == hash(y);
    JoinInjective(d, Decimal(k), d', Decimal(k'));
    DecimalInjective(k, k');
  }

  // ---------------------------------------------------------------- reading attempts from the ledger

  predicate Describes(e: Event, descriptor: string) {
    e.kind == TaskDescriptor && RefValue(e.refs, DESCRIPTOR) == descriptor
  }

  /** How many descriptor events of this descriptor there are. */
  function Attempts(events: seq<Event>, descriptor: string): (n: nat)
    ensures n <= |events|
  {
    if events == [] then 0
    else Attempts(events[..|events| - 1], descriptor) + if Describes(events[|events| - 1], descriptor) then 1 else 0
  }

  /** The attempt id of the last such event that has one. */
  function LatestAttempt(events: seq<Event>, descriptor: string): string {
    if events == [] then ""
    else
      var e := events[|events| - 1];
      if Describes(e, descriptor) && RefValue(e.refs, ATTEMPT) != "" then RefValue(e.refs, ATTEMPT)
      else LatestAttempt(events[..|events| - 1], descriptor)
  }

  datatype Mode = NextAttempt | LastAttempt

  function AttemptId(hash: string -> string, events: seq<Event>, descriptor: string, mode: Mode): string {
    var count, latest := Attempts(events, descriptor), LatestAttempt(events, descriptor);
    if descriptor == "" then "attempt-" + hash(descriptor + [NUL] + "unknown")
    else if mode == LastAttempt && latest != "" then latest
    else if mode == LastAttempt && count > 0 then AttemptFor(hash, descriptor, count)
    else AttemptFor(hash, descriptor, count + 1)
  }

  method AmbientAttemptId(hash: string -> string, events: seq<Event>, descriptor: string, mode: Mode) returns (id: string)
    requires |events| < MAX_INT
    ensures id == AttemptId(hash, events, descriptor, mode)
  {
    if descriptor == "" {
      return "attempt-" + hash(descriptor + [NUL] + "unknown");
    }
    var latest, count := "", 0;
    for i := 0 to |events|
      invariant count == Attempts(events[..i], descriptor) && latest == LatestAttempt(events[..i], descriptor)
    {
      assert events[..i + 1][..i] == events[..i];
      if Describes(events[i], descriptor) {
        count := count + 1;
        var attempt := RefValue(events[i].refs, ATTEMPT);
        if attempt != "" {
          latest := attempt;
        }
      }
    }
    assert events[..|events|] == events;
    if mode == LastAttempt && latest != "" {
      return latest;
    }
    var ordinal := IntFingerprint(if mode == LastAttempt && count > 0 then count else count + 1);
    return "attempt-" + hash(descriptor + [NUL] + ordinal);
  }

  // ---------------------------------------------------------------- the references of an event

  /** A tool call as the hook reports it, with its fields trimmed and its tool name also in normal form. */
  datatype Hook = Hook(
    backend: string, tool: string, normalized: string, agentType: string, objective: string,
    agentId: string, model: string, effort: string
  )

  /** What descriptor and result events are made from. */
  datatype Ambient = Ambient(hook: Hook, descriptor: string, objectiveHash: string, attempt: string)

  function Descriptor(hash: string -> string, h: Hook): string {
    hash(h.backend + [NUL] + h.normalized + [NUL] + h.agentType + [NUL] + hash(h.objective))
  }

  function AmbientOf(hash: string -> string, events: seq<Event>, h: Hook, mode: Mode): Ambient {
    var d := Descriptor(hash, h);
    Ambient(h, d, hash(h.objective), AttemptId(hash, events, d, mode))
  }

  function RefsBefore(h: Hook): seq<string> {
    (if h.tool != "" then ["tool:" + h.normalized] else []) + (if h.agentType != "" then ["agent_type:" + h.agentType] else [])
  }

  function RefsNaming(a: Ambient): seq<string> {
    [DESCRIPTOR + a.descriptor, "objective_hash:" + a.objectiveHash, ATTEMPT + a.attempt]
  }

  function RefsAfter(h: Hook): seq<string> {
    (if h.agentId != "" then ["backend_agent_id:" + h.agentId] else [])
    + (if h.model != "" then ["model:" + h.model] else [])
    + (if h.effort != "" then ["effort:" + h.effort] else [])
  }

  function EventRefs(a: Ambient): seq<string> {
    RefsBefore(a.hook) + (RefsNaming(a) + RefsAfter(a.hook))
  }

  method AmbientEventRefs(a: Ambient) returns (refs: seq<string>)
    ensures refs == EventRefs(a)
  {
    var before := RefsBeforeNaming(a.hook);
    var after := RefsAfterNaming(a.hook);
    return before + (RefsNaming(a) + after);
  }

  method RefsBeforeNaming(h: Hook) returns (refs: seq<string>)
    ensures refs == RefsBefore(h)
  {
    refs := [];
    if h.tool != "" {
      refs := refs + ["tool:" + h.normalized];
    }
    if h.agentType != "" {
      refs := refs + ["agent_type:" + h.agentType];
    }
  }

  method RefsAfterNaming(h: Hook) returns (refs: seq<string>)
    ensures refs == RefsAfter(h)
  {
    refs := [];
    if h.agentId != "" {
      refs := refs + ["backend_agent_id:" + h.agentId];
    }
    if h.model != "" {
      refs := refs + ["model:" + h.model];
    }
    if h.effort != "" {
      refs := refs + ["effort:" + h.effort];
    }
  }

  lemma OtherPrefix(s: string, prefix: string, i: nat)
    requires i < |s| && i < |prefix| && s[i] != prefix[i]
    ensures !HasPrefix(s, prefix)
  {
    if |prefix| <= |s| {
      assert s[..|prefix|][i] == s[i];
    }
  }

  lemma NoneBefore(h: Hook)
    ensures !HasRef(RefsBefore(h), DESCRIPTOR) && !HasRef(RefsBefore(h), ATTEMPT)
  {
    OtherPrefix("tool:" + h.normalized, DESCRIPTOR, 0);
    OtherPrefix("tool:" + h.normalized, ATTEMPT, 0);
    OtherPrefix("agent_type:" + h.agentType, DESCRIPTOR, 0);
    OtherPrefix("agent_type:" + h.agentType, ATTEMPT, 1);
  }

  /** Whatever the tool, agent type or model say, an event's references name its descriptor and its attempt. */
  lemma RefsName(a: Ambient)
    ensures RefValue(EventRefs(a), DESCRIPTOR) == a.descriptor
    ensures RefValue(EventRefs(a), ATTEMPT) == a.attempt
  {
    var rest := RefsNaming(a) + RefsAfter(a.hook);
    NoneBefore(a.hook);
    RefValueConcat(RefsBefore(a.hook), rest, DESCRIPTOR);
    RefValueConcat(RefsBefore(a.hook), rest, ATTEMPT);
    NamingFirst(a, rest);
  }

  lemma NamingFirst(a: Ambient, rest: seq<string>)
    requires rest == RefsNaming(a) + RefsAfter(a.hook)
    ensures RefValue(rest, DESCRIPTOR) == a.descriptor && RefValue(rest, ATTEMPT) == a.attempt
  {
    var d, o, t := DESCRIPTOR + a.descriptor, "objective_hash:" + a.objectiveHash, ATTEMPT + a.attempt;
    assert rest[0] == d && rest[1] == o && rest[2] == t;
    var more := rest[1..];
    var last := more[1..];
    assert more[0] == o && last[0] == t;
    assert d[..|DESCRIPTOR|] == DESCRIPTOR && d[|DESCRIPTOR|..] == a.descriptor;
    assert t[..|ATTEMPT|] == ATTEMPT && t[|ATTEMPT|..] == a.attempt;
    OtherPrefix(d, ATTEMPT, 0);
    OtherPrefix(o, ATTEMPT, 0);
    assert RefValue(last, ATTEMPT) == a.attempt;
    assert RefValue(more, ATTEMPT) == a.attempt;
  }

  // ---------------------------------------------------------------- appending to the ledger

  datatype Candidate = Candidate(
    id: string, agentRun: string, backend: string, role: string, tier: string, at: int,
    changedFiles: seq<string>, verification: seq<string>, caveats: seq<string>, summary: string, refs: seq<string>
  )

  /** The ledger of a run, with the checkpoint candidates and agent records kept beside it. */
  datatype Ledger = Ledger(events: seq<Event>, candidates: seq<Candidate>, agents: map<string, AgentRuns.AgentRun>)

  const EMPTY := Ledger([], [], map[])

  predicate EventExists(events: seq<Event>, id: string) {
    exists i | 0 <= i < |events| :: events[i].id == id
  }

  function AddEvent(l: Ledger, e: Event): Ledger {
    if EventExists(l.events, e.id) then l else l.(events := l.events + [e])
  }

  function AddCandidate(l: Ledger, c: Candidate): Ledger {
    if CandidateExists(l.candidates, c.id) then l else l.(candidates := l.candidates + [c])
  }

  const TASK_PREFIX := "ambient-task-"
  const RESULT_PREFIX := "ambient-result-"
  const DISTILLATION_PREFIX := "ambient-distillation-"

  function TaskEventId(hash: string -> string, backend: string, descriptor: string, attempt: string): string {
    TASK_PREFIX + hash(backend + [NUL] + (descriptor + [NUL] + attempt))
  }

  predicate IsTaskTool(h: Hook) {
    (h.backend == "claude-code" && (h.normalized == "Task" || h.normalized == "Agent"))
    || (h.backend == "codex" && (h.normalized == "spawn_agent" || HasSuffix(h.tool, "spawn_agent")))
  }

  function TaskEvent(hash: string -> string, a: Ambient, now: int, summary: string): Event {
    Event(TaskDescriptor, TaskEventId(hash, a.hook.backend, a.descriptor, a.attempt), a.hook.backend, now,
          "requested", "", EventRefs(a), summary)
  }

  /** A descriptor hook: ignored for other tools, else the next attempt of its descriptor. */
  function Described(hash: string -> string, l: Ledger, h: Hook, now: int, summary: string): Ledger {
    if !IsTaskTool(h) then l else AddEvent(l, TaskEvent(hash, AmbientOf(hash, l.events, h, NextAttempt), now, summary))
  }

  /** A tool response: its text, and what the report parser finds in it. */
  datatype Response = Response(
    isError: bool, text: string, checkpoint: bool, distillation: string, summary: string,
    changedFiles: seq<string>, verification: seq<string>, caveats: seq<string>
  )

  function ResultStatus(h: Hook, isError: bool): string {
    if isError then "failed"
    else if h.backend == "codex" && h.normalized == "spawn_agent" then "requested"
    else if h.backend == "codex" && h.normalized == "close_agent" then "closed"
    else if h.backend == "codex" && h.normalized in {"wait_agent", "resume_agent", "send_input"} then "running"
    else "completed"
  }

  function AgentRunId(hash: string -> string, a: Ambient): string {
    var h := a.hook;
    if h.backend == "claude-code" then "ambient-agent-" + hash(h.backend + [NUL] + a.descriptor + [NUL] + a.attempt)
    else if h.backend == "codex" && h.agentId != "" then "codex-agent-" + hash("codex-agent" + [NUL] + h.agentId)
    else ""
  }

  function ResultEventId(hash: string -> string, a: Ambient, status: string, text: string): string {
    RESULT_PREFIX + hash(a.hook.backend + [NUL] + (a.hook.normalized + [NUL]
      + (a.descriptor + [NUL] + (a.attempt + [NUL] + (status + [NUL] + hash(text))))))
  }

  function ResultEvent(hash: string -> string, a: Ambient, r: Response, now: int): Event {
    var status := ResultStatus(a.hook, r.isError);
    var summary := if r.summary != "" then r.summary else a.hook.normalized + " result " + status;
    Event(TaskResult, ResultEventId(hash, a, status, r.text), a.hook.backend, now, status, AgentRunId(hash, a), EventRefs(a), summary)
  }

  function CheckpointCandidate(hash: string -> string, a: Ambient, r: Response, now: int): Candidate {
    Candidate("ambient-checkpoint-" + hash(a.hook.backend + [NUL] + a.descriptor + [NUL] + a.attempt),
              AgentRunId(hash, a), a.hook.backend, AgentRuns.Role(a.hook.agentType), AgentRuns.Tier(a.hook.agentType), now,
              r.changedFiles, r.verification, r.caveats, r.summary, EventRefs(a))
  }

  function DistillationEvent(hash: string -> string, a: Ambient, r: Response, now: int): Event {
    var status := ResultStatus(a.hook, r.isError);
    Event(Distillation,
          DISTILLATION_PREFIX + hash(a.hook.backend + [NUL] + a.descriptor + [NUL] + a.attempt + [NUL] + hash(r.distillation)),
          a.hook.backend, now, if status in {"completed", "closed"} then "completed" else "observed",
          AgentRunId(hash, a), EventRefs(a), r.distillation)
  }

  function AgentReport(a: Ambient, r: Response, now: int): AgentRuns.Report {
    AgentRuns.Report(a.hook.backend, if a.hook.backend == "codex" then a.hook.agentId else "", a.hook.agentType,
                     now, ResultStatus(a.hook, r.isError), r.summary, r.changedFiles, r.verification, r.caveats, EventRefs(a))
  }

  function Find(agents: map<string, AgentRuns.AgentRun>, id: string): Option<AgentRuns.AgentRun> {
    if id in agents then Some(agents[id]) else None
  }

  /** The result in the agent's record, if the backend says which agent it was. */
  function AddReport(hash: string -> string, l: Ledger, a: Ambient, r: Response, now: int): Ledger {
    var id := AgentRunId(hash, a);
    if id == "" then l else l.(agents := l.agents[id := AgentRuns.Reported(Find(l.agents, id), AgentReport(a, r, now))])
  }

  /**
   * A result hook: a report on the agent, and at most one result event, one candidate and one distillation, each
   * unless it is there already.
   */
  function Reconciled(hash: string -> string, l: Ledger, h: Hook, r: Response, now: int): Ledger {
    var a := AmbientOf(hash, l.events, h, LastAttempt);
    var l0 := AddReport(hash, l, a, r, now);
    var l1 := AddEvent(l0, ResultEvent(hash, a, r, now));
    var l2 := if r.checkpoint then AddCandidate(l1, CheckpointCandidate(hash, a, r, now)) else l1;
    if r.distillation != "" then AddEvent(l2, DistillationEvent(hash, a, r, now)) else l2
  }

  class AmbientHooks {
    const hash: string -> string
    var ledger: Ledger

    constructor (hash: string -> string)
      ensures this.hash == hash && ledger == EMPTY
    {
      this.hash, ledger := hash, EMPTY;
    }

    method LedgerEventExists(id: string) returns (found: bool)
      ensures found == EventExists(ledger.events, id)
    {
      for i := 0 to |ledger.events|
        invariant forall j | 0 <= j < i :: ledger.events[j].id != id
      {
        if ledger.events[i].id == id {
          return true;
        }
      }
      return false;
    }

    method AppendAmbientTaskDescriptor(h: Hook, now: int, summary: string)
      requires |ledger.events| < MAX_INT
      modifies this`ledger
      ensures ledger == Described(hash, old(ledger), h, now, summary)
    {
      if !IsTaskTool(h) {
        return;
      }
      var a := NewAmbientEvent(h, NextAttempt);
      var refs := AmbientEventRefs(a);
      var id := TaskEventId(hash, h.backend, a.descriptor, a.attempt);
      var found := LedgerEventExists(id);
      if !found {
        var e := Event(TaskDescriptor, id, h.backend, now, "requested", "", refs, summary);
        ledger := ledger.(events := ledger.events + [e]);
      }
    }

    method NewAmbientEvent(h: Hook, mode: Mode) returns (a: Ambient)
      requires |ledger.events| < MAX_INT
      ensures a == AmbientOf(hash, ledger.events, h, mode)
    {
      var descriptor := Descriptor(hash, h);
      var attempt := AmbientAttemptId(hash, ledger.events, descriptor, mode);
      return Ambient(h, descriptor, hash(h.objective), attempt);
    }

    method AppendEvent(e: Event)
      modifies this`ledger
      ensures ledger == AddEvent(old(ledger), e)
    {
      var found := LedgerEventExists(e.id);
      if !found {
        ledger := ledger.(events := ledger.events + [e]);
      }
    }

    method UpsertAmbientAgentRun(id: string, r: AgentRuns.Report)
      modifies this`ledger
      ensures ledger == old(ledger).(agents := old(ledger).agents[id := AgentRuns.Reported(Find(old(ledger).agents, id), r)])
    {
      var found := Find(ledger.agents, id);
      var ar := AgentRuns.Upserted(found, r);
      ledger := ledger.(agents := ledger.agents[id := ar]);
    }

    method AppendAmbientCheckpointCandidate(c: Candidate)
      modifies this`ledger
      ensures ledger == AddCandidate(old(ledger), c)
    {
      for i := 0 to |ledger.candidates|
        invariant ledger == old(ledger) && forall j | 0 <= j < i :: ledger.candidates[j].id != c.id
      {
        if ledger.candidates[i].id == c.id {
          return;
        }
      }
      ledger := ledger.(candidates := ledger.candidates + [c]);
    }

    method ReconcileAmbientTaskResult(h: Hook, r: Response, now: int)
      requires |ledger.events| < MAX_INT
      modifies this`ledger
      ensures ledger == Reconciled(hash, old(ledger), h, r, now)
    {
      var a := NewAmbientEvent(h, LastAttempt);
      var agentRunId := AgentRunId(hash, a);
      if agentRunId != "" {
        UpsertAmbientAgentRun(agentRunId, AgentReport(a, r, now));
      }
      AppendEvent(ResultEvent(hash, a, r, now));
      if r.checkpoint {
        AppendAmbientCheckpointCandidate(CheckpointCandidate(hash, a, r, now));
      }
      if r.distillation != "" {
        AppendEvent(DistillationEvent(hash, a, r, now));
      }
    }
  }

  // ---------------------------------------------------------------- numbering, over whole ledgers

  /** The event at `i` carries the ordinal of its place among its descriptor's events; other kinds do not look like it. */
  ghost predicate NumberedAt(hash: string -> string, events: seq<Event>, i: nat)
    requires i < |events|
  {
    var e := events[i];
    if e.kind != TaskDescriptor then !HasPrefix(e.id, TASK_PREFIX)
    else
      var d := RefValue(e.refs, DESCRIPTOR);
      && d != "" && NUL !in d && NUL !in e.backend
      && RefValue(e.refs, ATTEMPT) == AttemptFor(hash, d, Attempts(events[..i + 1], d))
      && e.id == TaskEventId(hash, e.backend, d, RefValue(e.refs, ATTEMPT))
  }

  ghost predicate Numbered(hash: string -> string, events: seq<Event>) {
    forall i | 0 <= i < |events| :: NumberedAt(hash, events, i)
  }

  lemma NumberedMore(hash: string -> string, events: seq<Event>, e: Event)
    requires Numbered(hash, events) && NumberedAt(hash, events + [e], |events|)
    ensures Numbered(hash, events + [e])
  {
    var more := events + [e];
    forall i | 0 <= i < |events| ensures NumberedAt(hash, more, i) {
      assert NumberedAt(hash, events, i);
      assert more[..i + 1] == events[..i + 1] && more[i] == events[i];
    }
  }

  lemma NumberedFewer(hash: string -> string, events: seq<Event>)
    requires Numbered(hash, events) && events != []
    ensures Numbered(hash, events[..|events| - 1])
  {
    var fewer := events[..|events| - 1];
    forall i | 0 <= i < |fewer| ensures NumberedAt(hash, fewer, i) {
      assert NumberedAt(hash, events, i);
      assert fewer[..i + 1] == events[..i + 1] && fewer[i] == events[i];
    }
  }

  /** The latest attempt is the one with the highest ordinal. */
  lemma {:induction false} LatestIsHighest(hash: string -> string, events: seq<Event>, d: string)
    requires Numbered(hash, events) && Attempts(events, d) > 0
    ensures LatestAttempt(events, d) == AttemptFor(hash, d, Attempts(events, d))
  {
    var n := |events| - 1;
    NumberedFewer(hash, events);
    if Describes(events[n], d) {
      assert NumberedAt(hash, events, n);
      assert events[..n + 1] == events;
    } else {
      LatestIsHighest(hash, events[..n], d);
    }
  }

  lemma {:induction false} AttemptsMonotone(events: seq<Event>, i: nat, d: string)
    requires i <= |events|
    ensures Attempts(events[..i], d) <= Attempts(events, d)
    decreases |events|
  {
    if i < |events| {
      assert events[..|events| - 1][..i] == events[..i];
      AttemptsMonotone(events[..|events| - 1], i, d);
    } else {
      assert events[..i] == events;
    }
  }

  lemma TaskIdsDiffer(hash: string -> string, b: string, d: string, t: string, b': string, d': string, t': string)
    requires GoodHash(hash) && NUL !in b && NUL !in b' && NUL !in d && NUL !in d'
    requires TaskEventId(hash, b, d, t) == TaskEventId(hash, b', d', t')
    ensures d == d' && t == t'
  {
    var x, y := b + [NUL] + (d + [NUL] + t), b' + [NUL] + (d' + [NUL] + t');
    assert TaskEventId(hash, b, d, t)[|TASK_PREFIX|..] == hash(x);
    assert TaskEventId(hash, b', d', t')[|TASK_PREFIX|..] == hash(y);
    JoinInjective(b, d + [NUL] + t, b', d' + [NUL] + t');
    JoinInjective(d, t, d', t');
  }

  lemma NextIsNotAt(hash: string -> string, events: seq<Event>, i: nat, backend: string, d: string, n: nat)
    requires GoodHash(hash) && i < |events| && NumberedAt(hash, events, i) && NUL !in backend && NUL !in d
    requires Attempts(events[..i + 1], d) < n
    ensures events[i].id != TaskEventId(hash, backend, d, AttemptFor(hash, d, n))
  {
    var e, attempt := events[i], AttemptFor(hash, d, n);
    var id := TaskEventId(hash, backend, d, attempt);
    if e.kind != TaskDescriptor {
      assert id[..|TASK_PREFIX|] == TASK_PREFIX;
    } else if e.id == id {
      TaskIdsDiffer(hash, e.backend, RefValue(e.refs, DESCRIPTOR), RefValue(e.refs, ATTEMPT), backend, d, attempt);
      AttemptsDiffer(hash, d, Attempts(events[..i + 1], d), d, n);
    }
  }

  lemma NextIsNotIn(hash: string -> string, events: seq<Event>, i: nat, backend: string, d: string, id: string)
    requires GoodHash(hash) && Numbered(hash, events) && NUL !in backend && NUL !in d && i < |events|
    requires id == TaskEventId(hash, backend, d, AttemptFor(hash, d, Attempts(events, d) + 1))
    ensures events[i].id != id
  {
    assert NumberedAt(hash, events, i);
    AttemptsMonotone(events, i + 1, d);
    NextIsNotAt(hash, events, i, backend, d, Attempts(events, d) + 1);
  }

  /** The next attempt of a descriptor is new to the ledger, whatever else is in it. */
  lemma NextIsNew(hash: string -> string, events: seq<Event>, backend: string, d: string)
    requires GoodHash(hash) && Numbered(hash, events) && NUL !in backend && NUL !in d
    ensures !EventExists(events, TaskEventId(hash, backend, d, AttemptFor(hash, d, Attempts(events, d) + 1)))
  {
    var id := TaskEventId(hash, backend, d, AttemptFor(hash, d, Attempts(events, d) + 1));
    forall i | 0 <= i < |events| ensures events[i].id != id {
      NextIsNotIn(hash, events, i, backend, d, id);
    }
  }

  lemma TaskEventDescribes(hash: string -> string, a: Ambient, now: int, summary: string)
    ensures Describes(TaskEvent(hash, a, now, summary), a.descriptor)
    ensures RefValue(TaskEvent(hash, a, now, summary).refs, ATTEMPT) == a.attempt
  {
    RefsName(a);
  }

  lemma TaskBackend(h: Hook)
    requires IsTaskTool(h)
    ensures NUL !in h.backend
  {
  }

  /** Every descriptor hook appends one event: the next attempt, numbered one more than there were. */
  lemma DescribedNumbered(hash: string -> string, l: Ledger, h: Hook, now: int, summary: string)
    requires GoodHash(hash) && Numbered(hash, l.events) && IsTaskTool(h)
    ensures var d, next := Descriptor(hash, h), Described(hash, l, h, now, summary);
      && Numbered(hash, next.events) && next.candidates == l.candidates
      && |next.events| == |l.events| + 1 && next.events[..|l.events|] == l.events
      && Attempts(next.events, d) == Attempts(l.events, d) + 1
      && RefValue(next.events[|l.events|].refs, ATTEMPT) == AttemptFor(hash, d, Attempts(l.events, d) + 1)
  {
    var d := Descriptor(hash, h);
    var a := AmbientOf(hash, l.events, h, NextAttempt);
    var e := TaskEvent(hash, a, now, summary);
    TaskBackend(h);
    NextIsNew(hash, l.events, h.backend, d);
    TaskEventDescribes(hash, a, now, summary);
    var more := l.events + [e];
    assert more[..|l.events| + 1] == more && more[..|l.events|] == l.events && more[..|more| - 1] == l.events;
    assert NumberedAt(hash, more, |l.events|);
    NumberedMore(hash, l.events, e);
  }

  lemma NextEvent(hash: string -> string, events: seq<Event>, h: Hook, now: int, summary: string, e: Event, d: string, k: nat)
    requires GoodHash(hash) && IsTaskTool(h) && e == TaskEvent(hash, AmbientOf(hash, events, h, NextAttempt), now, summary)
    requires d == Descriptor(hash, h) && k == Attempts(events, d) + 1
    ensures d != "" && NUL !in d && NUL !in e.backend && Describes(e, d)
    ensures RefValue(e.refs, ATTEMPT) == AttemptFor(hash, d, k) && e.id == TaskEventId(hash, e.backend, d, AttemptFor(hash, d, k))
  {
    TaskEventDescribes(hash, AmbientOf(hash, events, h, NextAttempt), now, summary);
    TaskBackend(h);
  }

  lemma StaleEvent(hash: string -> string, events: seq<Event>, e: Event, d: string, k: nat)
    requires GoodHash(hash) && Numbered(hash, events) && Describes(e, d) && d != "" && NUL !in d && NUL !in e.backend
    requires RefValue(e.refs, ATTEMPT) == AttemptFor(hash, d, k) && e.id == TaskEventId(hash, e.backend, d, AttemptFor(hash, d, k))
    ensures Numbered(hash, events + [e]) <==> Attempts(events, d) + 1 == k
  {
    var more := events + [e];
    assert more[..|events| + 1] == more && more[..|more| - 1] == events;
    if Attempts(events, d) + 1 == k {
      assert NumberedAt(hash, more, |events|);
      NumberedMore(hash, events, e);
    } else if Numbered(hash, more) {
      assert NumberedAt(hash, more, |events|);
      AttemptsDiffer(hash, d, k, d, Attempts(events, d) + 1);
    }
  }

  /**
   * Hooks are processes of their own: one may have read the ledger when only its first `n` events were there. The
   * event it then appends keeps the numbering exactly if no attempt of its descriptor was appended since.
   */
  lemma StaleDescriptor(hash: string -> string, events: seq<Event>, n: nat, h: Hook, now: int, summary: string, e: Event)
    requires GoodHash(hash) && Numbered(hash, events) && n <= |events| && IsTaskTool(h)
    requires e == TaskEvent(hash, AmbientOf(hash, events[..n], h, NextAttempt), now, summary)
    ensures Numbered(hash, events + [e]) <==> Attempts(events, Descriptor(hash, h)) == Attempts(events[..n], Descriptor(hash, h))
  {
    var d, k := Descriptor(hash, h), Attempts(events[..n], Descriptor(hash, h)) + 1;
    NextEvent(hash, events[..n], h, now, summary, e, d, k);
    StaleEvent(hash, events, e, d, k);
  }

  // ---------------------------------------------------------------- results go to the latest attempt

  /** The ordinal of the latest attempt; a result that comes before any descriptor counts for the first. */
  function Current(events: seq<Event>, d: string): (n: nat)
    ensures n >= 1
  {
    if Attempts(events, d) == 0 then 1 else Attempts(events, d)
  }

  /** Looking up the latest attempt gives the highest ordinal. */
  lemma LatestAttemptId(hash: string -> string, events: seq<Event>, d: string)
    requires Numbered(hash, events) && d != ""
    ensures AttemptId(hash, events, d, LastAttempt) == AttemptFor(hash, d, Current(events, d))
  {
    if Attempts(events, d) > 0 {
      LatestIsHighest(hash, events, d);
    } else {
      NoLatest(events, d);
    }
  }

  lemma {:induction false} NoLatest(events: seq<Event>, d: string)
    requires Attempts(events, d) == 0
    ensures LatestAttempt(events, d) == ""
  {
    if events != [] {
      NoLatest(events[..|events| - 1], d);
    }
  }

  /** A result event names the latest attempt of its descriptor. */
  lemma ResultAttaches(hash: string -> string, l: Ledger, h: Hook, r: Response, now: int)
    requires GoodHash(hash) && Numbered(hash, l.events)
    ensures var d, e := Descriptor(hash, h), ResultEvent(hash, AmbientOf(hash, l.events, h, LastAttempt), r, now);
      && RefValue(e.refs, DESCRIPTOR) == d && RefValue(e.refs, ATTEMPT) == AttemptFor(hash, d, Current(l.events, d))
      && EventExists(Reconciled(hash, l, h, r, now).events, e.id)
  {
    var a := AmbientOf(hash, l.events, h, LastAttempt);
    var e := ResultEvent(hash, a, r, now);
    RefsName(a);
    LatestAttemptId(hash, l.events, Descriptor(hash, h));
    var l0 := AddReport(hash, l, a, r, now);
    Added(l0, e);
    var l1 := AddEvent(l0, e);
    var l2 := if r.checkpoint then AddCandidate(l1, CheckpointCandidate(hash, a, r, now)) else l1;
    Added(l2, DistillationEvent(hash, a, r, now));
  }

  ghost predicate Extends(l: Ledger, more: Ledger) {
    && (forall id :: EventExists(l.events, id) ==> EventExists(more.events, id))
    && (forall c :: CandidateExists(l.candidates, c) ==> CandidateExists(more.candidates, c))
  }

  predicate CandidateExists(candidates: seq<Candidate>, id: string) {
    exists i | 0 <= i < |candidates| :: candidates[i].id == id
  }

  lemma Added(l: Ledger, e: Event)
    ensures EventExists(AddEvent(l, e).events, e.id) && Extends(l, AddEvent(l, e))
  {
    var more := AddEvent(l, e).events;
    if !EventExists(l.events, e.id) {
      assert more[|l.events|] == e;
    }
    forall id | EventExists(l.events, id) ensures EventExists(more, id) {
      var i :| 0 <= i < |l.events| && l.events[i].id == id;
      assert more[i] == l.events[i];
    }
  }

  lemma AddedCandidate(l: Ledger, c: Candidate)
    ensures CandidateExists(AddCandidate(l, c).candidates, c.id) && Extends(l, AddCandidate(l, c))
  {
    var more := AddCandidate(l, c).candidates;
    if !CandidateExists(l.candidates, c.id) {
      assert more[|l.candidates|] == c;
    }
    forall id | CandidateExists(l.candidates, id) ensures CandidateExists(more, id) {
      var i :| 0 <= i < |l.candidates| && l.candidates[i].id == id;
      assert more[i] == l.candidates[i];
    }
  }

  /** Everything a result delivery stands for is in the ledger. */
  ghost predicate Holds(hash: string -> string, l: Ledger, a: Ambient, r: Response) {
    && EventExists(l.events, ResultEventId(hash, a, ResultStatus(a.hook, r.isError), r.text))
    && (r.checkpoint ==> CandidateExists(l.candidates, CheckpointCandidate(hash, a, r, 0).id))
    && (r.distillation != "" ==> EventExists(l.events, DistillationEvent(hash, a, r, 0).id))
  }

  lemma ReconciledHolds(hash: string -> string, l: Ledger, h: Hook, r: Response, now: int)
    ensures Holds(hash, Reconciled(hash, l, h, r, now), AmbientOf(hash, l.events, h, LastAttempt), r)
  {
    var a := AmbientOf(hash, l.events, h, LastAttempt);
    var l0 := AddReport(hash, l, a, r, now);
    var l1 := AddEvent(l0, ResultEvent(hash, a, r, now));
    Added(l0, ResultEvent(hash, a, r, now));
    var l2 := if r.checkpoint then AddCandidate(l1, CheckpointCandidate(hash, a, r, now)) else l1;
    AddedCandidate(l1, CheckpointCandidate(hash, a, r, now));
    Added(l2, DistillationEvent(hash, a, r, now));
  }

  lemma SameAmbient(hash: string -> string, events: seq<Event>, later: seq<Event>, h: Hook)
    requires GoodHash(hash) && Numbered(hash, events) && Numbered(hash, later)
    requires Current(later, Descriptor(hash, h)) == Current(events, Descriptor(hash, h))
    ensures AmbientOf(hash, later, h, LastAttempt) == AmbientOf(hash, events, h, LastAttempt)
  {
    LatestAttemptId(hash, events, Descriptor(hash, h));
    LatestAttemptId(hash, later, Descriptor(hash, h));
  }

  lemma StillHolds(hash: string -> string, l: Ledger, later: Ledger, a: Ambient, r: Response)
    requires Holds(hash, l, a, r) && Extends(l, later)
    ensures Holds(hash, later, a, r)
  {
  }

  lemma HeldAlready(hash: string -> string, l: Ledger, h: Hook, r: Response, now: int, a: Ambient)
    requires a == AmbientOf(hash, l.events, h, LastAttempt) && Holds(hash, l, a, r)
    ensures Reconciled(hash, l, h, r, now) == AddReport(hash, l, a, r, now)
  {
  }

  /**
   * Delivering a result again, after anything that starts no new attempt of its task, adds no event, no candidate and
   * no distillation; it is one more report on the same agent.
   */
  lemma Redelivered(hash: string -> string, l: Ledger, later: Ledger, h: Hook, r: Response, now: int, again: int)
    requires GoodHash(hash) && Numbered(hash, l.events) && Numbered(hash, later.events)
    requires Extends(Reconciled(hash, l, h, r, now), later)
    requires Current(later.events, Descriptor(hash, h)) == Current(l.events, Descriptor(hash, h))
    ensures Reconciled(hash, later, h, r, again) ==
      AddReport(hash, later, AmbientOf(hash, l.events, h, LastAttempt), r, again)
  {
    var a := AmbientOf(hash, l.events, h, LastAttempt);
    SameAmbient(hash, l.events, later.events, h);
    ReconciledHolds(hash, l, h, r, now);
    StillHolds(hash, Reconciled(hash, l, h, r, now), later, a, r);
    HeldAlready(hash, later, h, r, again, a);
  }

  /** Results of different attempts have different event ids: after a new attempt, a delivery is news again. */
  lemma ResultIdTellsAttempt(hash: string -> string, a: Ambient, b: Ambient, s: string, s': string, t: string, t': string)
    requires GoodHash(hash) && ResultEventId(hash, a, s, t) == ResultEventId(hash, b, s', t')
    requires NUL !in a.hook.backend && NUL !in a.hook.normalized && NUL !in a.descriptor && NUL !in a.attempt
    requires NUL !in b.hook.backend && NUL !in b.hook.normalized && NUL !in b.descriptor && NUL !in b.attempt
    ensures a.descriptor == b.descriptor && a.attempt == b.attempt
  {
    var x3, y3 := s + [NUL] + hash(t), s' + [NUL] + hash(t');
    var x2, y2 := a.attempt + [NUL] + x3, b.attempt + [NUL] + y3;
    var x1, y1 := a.descriptor + [NUL] + x2, b.descriptor + [NUL] + y2;
    var x0, y0 := a.hook.normalized + [NUL] + x1, b.hook.normalized + [NUL] + y1;
    var x, y := a.hook.backend + [NUL] + x0, b.hook.backend + [NUL] + y0;
    assert ResultEventId(hash, a, s, t)[|RESULT_PREFIX|..] == hash(x);
    assert ResultEventId(hash, b, s', t')[|RESULT_PREFIX|..] == hash(y);
    JoinInjective(a.hook.backend, x0, b.hook.backend, y0);
    JoinInjective(a.hook.normalized, x1, b.hook.normalized, y1);
    JoinInjective(a.descriptor, x2, b.descriptor, y2);
    JoinInjective(a.attempt, x3, b.attempt, y3);
  }

  // ---------------------------------------------------------------- whole runs

  /** What can happen to a ledger; `Other` is any event that is not a task descriptor and does not have the id of one. */
  datatype Step =
    | Describe(hook: Hook, now: int, summary: string)
    | Report(hook: Hook, response: Response, now: int)
    | Other(event: Event)

  ghost predicate Foreign(e: Event) {
    e.kind != TaskDescriptor && !HasPrefix(e.id, TASK_PREFIX)
  }

  ghost predicate Playable(steps: seq<Step>) {
    forall i | 0 <= i < |steps| && steps[i].Other? :: Foreign(steps[i].event)
  }

  function Played(hash: string -> string, l: Ledger, s: Step): Ledger {
    match s
    case Describe(h, now, summary) => Described(hash, l, h, now, summary)
    case Report(h, r, now) => Reconciled(hash, l, h, r, now)
    case Other(e) => l.(events := l.events + [e])
  }

  function Play(hash: string -> string, steps: seq<Step>): Ledger {
    if steps == [] then EMPTY else Played(hash, Play(hash, steps[..|steps| - 1]), steps[|steps| - 1])
  }

  lemma ForeignNumbered(hash: string -> string, l: Ledger, e: Event)
    requires Numbered(hash, l.events) && Foreign(e)
    ensures Numbered(hash, l.events + [e]) && Numbered(hash, AddEvent(l, e).events)
  {
    assert NumberedAt(hash, l.events + [e], |l.events|);
    NumberedMore(hash, l.events, e);
  }

  lemma ReportsForeign(hash: string -> string, a: Ambient, r: Response, now: int)
    ensures Foreign(ResultEvent(hash, a, r, now)) && Foreign(DistillationEvent(hash, a, r, now))
  {
    var x, y := ResultEvent(hash, a, r, now).id, DistillationEvent(hash, a, r, now).id;
    assert x[8] == RESULT_PREFIX[8] && y[8] == DISTILLATION_PREFIX[8];
    OtherPrefix(x, TASK_PREFIX, 8);
    OtherPrefix(y, TASK_PREFIX, 8);
  }

  lemma ReconciledNumbered(hash: string -> string, l: Ledger, h: Hook, r: Response, now: int)
    requires Numbered(hash, l.events)
    ensures Numbered(hash, Reconciled(hash, l, h, r, now).events)
  {
    var a := AmbientOf(hash, l.events, h, LastAttempt);
    ReportsForeign(hash, a, r, now);
    var l0 := AddReport(hash, l, a, r, now);
    var l1 := AddEvent(l0, ResultEvent(hash, a, r, now));
    ForeignNumbered(hash, l0, ResultEvent(hash, a, r, now));
    var l2 := if r.checkpoint then AddCandidate(l1, CheckpointCandidate(hash, a, r, now)) else l1;
    ForeignNumbered(hash, l2, DistillationEvent(hash, a, r, now));
  }

  /** Whatever happens, in whatever order, the k-th descriptor event of a descriptor carries ordinal k. */
  lemma {:induction false} PlayNumbered(hash: string -> string, steps: seq<Step>)
    requires GoodHash(hash) && Playable(steps)
    ensures Numbered(hash, Play(hash, steps).events)
  {
    if steps != [] {
      var fewer, last := steps[..|steps| - 1], steps[|steps| - 1];
      assert Playable(fewer) by {
        assert forall i | 0 <= i < |fewer| :: fewer[i] == steps[i];
      }
      PlayNumbered(hash, fewer);
      var l := Play(hash, fewer);
      match last
      case Describe(h, now, summary) =>
        if IsTaskTool(h) {
          DescribedNumbered(hash, l, h, now, summary);
        }
      case Report(h, r, now) => ReconciledNumbered(hash, l, h, r, now);
      case Other(e) => ForeignNumbered(hash, l, e);
    }
  }

  /** No two descriptor events of a ledger share an attempt id. */
  lemma AttemptsDistinct(hash: string -> string, events: seq<Event>, i: nat, j: nat)
    requires GoodHash(hash) && Numbered(hash, events)
    requires i < j < |events| && events[i].kind == events[j].kind == TaskDescriptor
    ensures RefValue(events[i].refs, ATTEMPT) != RefValue(events[j].refs, ATTEMPT)
  {
    assert NumberedAt(hash, events, i) && NumberedAt(hash, events, j);
    var d, d' := RefValue(events[i].refs, DESCRIPTOR), RefValue(events[j].refs, DESCRIPTOR);
    var k, k' := Attempts(events[..i + 1], d), Attempts(events[..j + 1], d');
    if AttemptFor(hash, d, k) == AttemptFor(hash, d', k') {
      AttemptsDiffer(hash, d, k, d', k');
      assert events[..j + 1][..j] == events[..j] && events[..j][..i + 1] == events[..i + 1];
      AttemptsMonotone(events[..j], i + 1, d);
    }
  }

  lemma {:induction false} NumberedCarried(hash: string -> string, events: seq<Event>)
    requires Numbered(hash, events)
    ensures Carried(TaskDescriptorEvents(events))
  {
    if events != [] {
      var n := |events| - 1;
      NumberedFewer(hash, events);
      NumberedCarried(hash, events[..n]);
      assert NumberedAt(hash, events, n);
    }
  }

  /** So attempt ids tell attempts apart, and the order of a run's ledger never shows in its descriptor folding. */
  lemma PlayedRuns(hash: string -> string, steps: seq<Step>)
    requires GoodHash(hash) && Playable(steps)
    ensures var events := Play(hash, steps).events;
      && (forall k :: !OrderSensitive(events, k))
      && forall i, j | 0 <= i < j < |events| && events[i].kind == events[j].kind == TaskDescriptor ::
           RefValue(events[i].refs, ATTEMPT) != RefValue(events[j].refs, ATTEMPT)
  {
    var events := Play(hash, steps).events;
    PlayNumbered(hash, steps);
    NumberedCarried(hash, events);
    forall k ensures !OrderSensitive(events, k) {
      CarriedInsensitive(events, k);
    }
    forall i, j | 0 <= i < j < |events| && events[i].kind == events[j].kind == TaskDescriptor
      ensures RefValue(events[i].refs, ATTEMPT) != RefValue(events[j].refs, ATTEMPT)
    {
      AttemptsDistinct(hash, events, i, j);
    }
  }

  // ---------------------------------------------------------------- agents, over whole runs

  /** The report a step makes on the agent `id`, if it makes one. */
  function ReportOf(hash: string -> string, l: Ledger, s: Step, id: string): seq<AgentRuns.Report> {
    match s
    case Report(h, r, now) =>
      var a := AmbientOf(hash, l.events, h, LastAttempt);
      if id != "" && AgentRunId(hash, a) == id then [AgentReport(a, r, now)] else []
    case _ => []
  }

  function ReportsOf(hash: string -> string, steps: seq<Step>, id: string): seq<AgentRuns.Report> {
    if steps == [] then []
    else ReportsOf(hash, steps[..|steps| - 1], id) + ReportOf(hash, Play(hash, steps[..|steps| - 1]), steps[|steps| - 1], id)
  }

  lemma ReconciledAgents(hash: string -> string, l: Ledger, h: Hook, r: Response, now: int)
    ensures Reconciled(hash, l, h, r, now).agents ==
      AddReport(hash, l, AmbientOf(hash, l.events, h, LastAttempt), r, now).agents
  {
  }

  lemma StepAgents(hash: string -> string, l: Ledger, s: Step, id: string)
    ensures var reports := ReportOf(hash, l, s, id);
      Find(Played(hash, l, s).agents, id) ==
        if reports == [] || id == "" then Find(l.agents, id) else Some(AgentRuns.Reported(Find(l.agents, id), reports[0]))
  {
    match s
    case Report(h, r, now) => ReconciledAgents(hash, l, h, r, now);
    case _ =>
  }

  /** Whatever else happens, an agent's record is what the reports on that agent, in order, add up to. */
  lemma {:induction false} PlayAgents(hash: string -> string, steps: seq<Step>, id: string)
    ensures Find(Play(hash, steps).agents, id) == AgentRuns.History(ReportsOf(hash, steps, id))
  {
    if steps != [] {
      var fewer, last := steps[..|steps| - 1], steps[|steps| - 1];
      PlayAgents(hash, fewer, id);
      StepAgents(hash, Play(hash, fewer), last, id);
      var before, more := ReportsOf(hash, fewer, id), ReportOf(hash, Play(hash, fewer), last, id);
      if more == [] {
        assert before + more == before;
      } else {
        assert (before + more)[..|before + more| - 1] == before;
      }
    }
  }

  /** On the backend without agent ids of its own, each attempt has an agent record of its own. */
  lemma AttemptAgents(hash: string -> string, a: Ambient, b: Ambient)
    requires GoodHash(hash) && a.hook.backend == b.hook.backend == "claude-code"
    requires NUL !in a.descriptor && NUL !in b.descriptor
    ensures AgentRunId(hash, a) == AgentRunId(hash, b) <==> a.descriptor == b.descriptor && a.attempt == b.attempt
  {
    var x, y := a.hook.backend + [NUL] + a.descriptor + [NUL] + a.attempt, b.hook.backend + [NUL] + b.descriptor + [NUL] + b.attempt;
    if AgentRunId(hash, a) == AgentRunId(hash, b) {
      assert ("ambient-agent-" + hash(x))[14..] == hash(x) && ("ambient-agent-" + hash(y))[14..] == hash(y);
      assert x == a.hook.backend + [NUL] + (a.descriptor + [NUL] + a.attempt);
      assert y == b.hook.backend + [NUL] + (b.descriptor + [NUL] + b.attempt);
      JoinInjective(a.hook.backend, a.descriptor + [NUL] + a.attempt, b.hook.backend, b.descriptor + [NUL] + b.attempt);
      JoinInjective(a.descriptor, a.attempt, b.descriptor, b.attempt);
    }
  }
}
