/** What the hooks put on record, by keys and fields: which calls share one, and what each record says. */
module AmbientRecords {
  import AgentRuns
  import opened AmbientLedger
  import opened Decimals
  import opened Dispatches
  import opened StatusFold
  import opened Text

  // ---------------------------------------------------------------- counting and looking up attempts

  /** The places of a descriptor's events. */
  function Places(events: seq<Event>, d: string): set<int> {
    set i | 0 <= i < |events| && events[i].kind == TaskDescriptor && RefValue(events[i].refs, "descriptor_id:") == d
  }

  /** The attempts of a descriptor are its descriptor events, however many others there are. */
  lemma {:induction false} AttemptsCount(events: seq<Event>, d: string)
    ensures Attempts(events, d) == |Places(events, d)|
  {
    if events != [] {
      var n := |events| - 1;
      AttemptsCount(events[..n], d);
      assert Places(events, d) == Places(events[..n], d) + if Describes(events[n], d) then {n} else {};
    }
  }

  /** Event `i` is the last of the descriptor's that names an attempt. */
  ghost predicate LastNamed(events: seq<Event>, d: string, i: int) {
    && 0 <= i < |events| && events[i].kind == TaskDescriptor && RefValue(events[i].refs, "descriptor_id:") == d
    && RefValue(events[i].refs, "attempt_id:") != ""
    && forall j | i < j < |events| && events[j].kind == TaskDescriptor && RefValue(events[j].refs, "descriptor_id:") == d ::
         RefValue(events[j].refs, "attempt_id:") == ""
  }

  /** A lookup gives what that event says, and nothing if there is none. */
  lemma {:induction false} LatestAttemptIs(events: seq<Event>, d: string)
    ensures LatestAttempt(events, d) == "" <==> forall i :: !LastNamed(events, d, i)
    ensures LatestAttempt(events, d) != "" ==>
      exists i :: LastNamed(events, d, i) && LatestAttempt(events, d) == RefValue(events[i].refs, "attempt_id:")
  {
    if events != [] {
      var n := |events| - 1;
      LatestAttemptIs(events[..n], d);
      forall i | 0 <= i < n
        ensures LastNamed(events, d, i) <==>
          LastNamed(events[..n], d, i) && !(Describes(events[n], d) && RefValue(events[n].refs, ATTEMPT) != "")
      {
        NamedMore(events, d, i, n);
      }
      assert LastNamed(events, d, n) <==> Describes(events[n], d) && RefValue(events[n].refs, ATTEMPT) != "";
      assert forall i :: LastNamed(events, d, i) ==> 0 <= i <= n;
      assert forall i :: LastNamed(events[..n], d, i) ==> 0 <= i < n && events[..n][i] == events[i];
    }
  }

  lemma NamedMore(events: seq<Event>, d: string, i: nat, n: nat)
    requires i < n && |events| == n + 1
    ensures LastNamed(events, d, i) <==>
      LastNamed(events[..n], d, i) && !(Describes(events[n], d) && RefValue(events[n].refs, ATTEMPT) != "")
  {
    assert forall j | 0 <= j < n :: events[..n][j] == events[j];
  }

  // ---------------------------------------------------------------- which calls share a key

  /** Two calls are attempts of the same task exactly if backend, tool, agent type and objective are the same. */
  lemma DescriptorTells(hash: string -> string, g: Hook, h: Hook)
    requires GoodHash(hash)
    requires NUL !in g.backend && NUL !in g.normalized && NUL !in g.agentType
    requires NUL !in h.backend && NUL !in h.normalized && NUL !in h.agentType
    ensures Descriptor(hash, g) == Descriptor(hash, h) <==>
      g.backend == h.backend && g.normalized == h.normalized && g.agentType == h.agentType && g.objective == h.objective
  {
    var x1, y1 := g.agentType + [NUL] + hash(g.objective), h.agentType + [NUL] + hash(h.objective);
    var x0, y0 := g.normalized + [NUL] + x1, h.normalized + [NUL] + y1;
    if Descriptor(hash, g) == Descriptor(hash, h) {
      assert g.backend + [NUL] + g.normalized + [NUL] + g.agentType + [NUL] + hash(g.objective) == g.backend + [NUL] + x0;
      assert h.backend + [NUL] + h.normalized + [NUL] + h.agentType + [NUL] + hash(h.objective) == h.backend + [NUL] + y0;
      JoinInjective(g.backend, x0, h.backend, y0);
      JoinInjective(g.normalized, x1, h.normalized, y1);
      JoinInjective(g.agentType, hash(g.objective), h.agentType, hash(h.objective));
    }
  }

  /**
   * The attempt a call works on: a descriptor the one after all there are; a result the one last named, or else the last
   * by count, or the first if there is none.
   */
  lemma AttemptIs(hash: string -> string, events: seq<Event>, d: string, n: nat)
    requires n == |Places(events, d)|
    ensures d == "" ==> forall mode :: AttemptId(hash, events, d, mode) == "attempt-" + hash(['\0'] + "unknown")
    ensures d != "" ==> AttemptId(hash, events, d, NextAttempt) == "attempt-" + hash(d + ['\0'] + Decimal(n + 1))
    ensures d != "" && (forall i :: !LastNamed(events, d, i)) ==>
      AttemptId(hash, events, d, LastAttempt) == "attempt-" + hash(d + ['\0'] + Decimal(if n == 0 then 1 else n))
    ensures forall i | d != "" && LastNamed(events, d, i) ::
      AttemptId(hash, events, d, LastAttempt) == RefValue(events[i].refs, "attempt_id:")
  {
    AttemptsCount(events, d);
    LatestAttemptIs(events, d);
    assert d == "" ==> d + [NUL] + "unknown" == ['\0'] + "unknown";
    forall i, j | LastNamed(events, d, i) && LastNamed(events, d, j) ensures i == j {
    }
  }

  /** Three texts joined by zero bytes can be taken apart. */
  lemma JoinThree(a: string, b: string, c: string, a': string, b': string, c': string)
    requires NUL !in a && NUL !in a' && NUL !in b && NUL !in b'
    ensures a + [NUL] + b + [NUL] + c == a' + [NUL] + b' + [NUL] + c' <==> a == a' && b == b' && c == c'
  {
    if a + [NUL] + b + [NUL] + c == a' + [NUL] + b' + [NUL] + c' {
      assert a + [NUL] + b + [NUL] + c == a + [NUL] + (b + [NUL] + c);
      assert a' + [NUL] + b' + [NUL] + c' == a' + [NUL] + (b' + [NUL] + c');
      JoinInjective(a, b + [NUL] + c, a', b' + [NUL] + c');
      JoinInjective(b, c, b', c');
    }
  }

  lemma PrefixInjective(prefix: string, x: string, y: string)
    ensures prefix + x == prefix + y <==> x == y
  {
    assert (prefix + x)[|prefix|..] == x && (prefix + y)[|prefix|..] == y;
  }

  /** What an ambient call is keyed by has no zero byte. */
  predicate PlainKeys(a: Ambient) {
    NUL !in a.hook.backend && NUL !in a.hook.normalized && NUL !in a.descriptor && NUL !in a.attempt
  }

  predicate SameAttempt(a: Ambient, b: Ambient) {
    a.hook.backend == b.hook.backend && a.descriptor == b.descriptor && a.attempt == b.attempt
  }

  /** There is one descriptor event for each backend, descriptor and attempt, and one checkpoint candidate. */
  lemma AttemptKeys(hash: string -> string, a: Ambient, b: Ambient, r: Response, s: Response, now: int, then_: int)
    requires GoodHash(hash) && PlainKeys(a) && PlainKeys(b)
    ensures TaskEvent(hash, a, now, "").id == TaskEvent(hash, b, then_, "").id <==> SameAttempt(a, b)
    ensures CheckpointCandidate(hash, a, r, now).id == CheckpointCandidate(hash, b, s, then_).id <==> SameAttempt(a, b)
  {
    var x, y := a.hook.backend + [NUL] + a.descriptor + [NUL] + a.attempt, b.hook.backend + [NUL] + b.descriptor + [NUL] + b.attempt;
    assert a.hook.backend + [NUL] + (a.descriptor + [NUL] + a.attempt) == x;
    assert b.hook.backend + [NUL] + (b.descriptor + [NUL] + b.attempt) == y;
    JoinThree(a.hook.backend, a.descriptor, a.attempt, b.hook.backend, b.descriptor, b.attempt);
    PrefixInjective(TASK_PREFIX, hash(x), hash(y));
    PrefixInjective("ambient-checkpoint-", hash(x), hash(y));
  }

  /** One result event for each attempt, tool, status and text. */
  lemma ResultKey(hash: string -> string, a: Ambient, b: Ambient, s: string, s': string, t: string, t': string)
    requires GoodHash(hash) && PlainKeys(a) && PlainKeys(b) && NUL !in s && NUL !in s'
    ensures ResultEventId(hash, a, s, t) == ResultEventId(hash, b, s', t') <==>
      SameAttempt(a, b) && a.hook.normalized == b.hook.normalized && s == s' && t == t'
  {
    var x2, y2 := a.attempt + [NUL] + (s + [NUL] + hash(t)), b.attempt + [NUL] + (s' + [NUL] + hash(t'));
    var x1, y1 := a.descriptor + [NUL] + x2, b.descriptor + [NUL] + y2;
    var x0, y0 := a.hook.normalized + [NUL] + x1, b.hook.normalized + [NUL] + y1;
    var x, y := a.hook.backend + [NUL] + x0, b.hook.backend + [NUL] + y0;
    PrefixInjective(RESULT_PREFIX, hash(x), hash(y));
    if x == y {
      JoinInjective(a.hook.backend, x0, b.hook.backend, y0);
      JoinInjective(a.hook.normalized, x1, b.hook.normalized, y1);
      JoinInjective(a.descriptor, x2, b.descriptor, y2);
      JoinInjective(a.attempt, s + [NUL] + hash(t), b.attempt, s' + [NUL] + hash(t'));
      JoinInjective(s, hash(t), s', hash(t'));
    }
  }

  /** One distillation event for each attempt and text. */
  lemma DistillationKey(hash: string -> string, a: Ambient, b: Ambient, r: Response, s: Response, now: int, then_: int)
    requires GoodHash(hash) && PlainKeys(a) && PlainKeys(b)
    ensures DistillationEvent(hash, a, r, now).id == DistillationEvent(hash, b, s, then_).id <==>
      SameAttempt(a, b) && r.distillation == s.distillation
  {
    var x, y := a.attempt + [NUL] + hash(r.distillation), b.attempt + [NUL] + hash(s.distillation);
    var k, l := a.hook.backend + [NUL] + a.descriptor + [NUL] + a.attempt + [NUL] + hash(r.distillation),
                b.hook.backend + [NUL] + b.descriptor + [NUL] + b.attempt + [NUL] + hash(s.distillation);
    assert k == a.hook.backend + [NUL] + a.descriptor + [NUL] + x && l == b.hook.backend + [NUL] + b.descriptor + [NUL] + y;
    PrefixInjective(DISTILLATION_PREFIX, hash(k), hash(l));
    JoinThree(a.hook.backend, a.descriptor, x, b.hook.backend, b.descriptor, y);
    if x == y {
      JoinInjective(a.attempt, hash(r.distillation), b.attempt, hash(s.distillation));
    }
  }

  // ---------------------------------------------------------------- what is recorded

  /** The references of an event, each with the field it comes from; empty fields have none. */
  lemma RefsAre(a: Ambient, ref: string)
    ensures ref in EventRefs(a) <==>
      || (a.hook.tool != "" && ref == "tool:" + a.hook.normalized)
      || (a.hook.agentType != "" && ref == "agent_type:" + a.hook.agentType)
      || ref == "descriptor_id:" + a.descriptor || ref == "objective_hash:" + a.objectiveHash
      || ref == "attempt_id:" + a.attempt
      || (a.hook.agentId != "" && ref == "backend_agent_id:" + a.hook.agentId)
      || (a.hook.model != "" && ref == "model:" + a.hook.model)
      || (a.hook.effort != "" && ref == "effort:" + a.hook.effort)
  {
    assert ref in EventRefs(a) <==> ref in RefsBefore(a.hook) || ref in RefsNaming(a) || ref in RefsAfter(a.hook);
  }

  /** The tools that start a task, on each backend. */
  ghost predicate StartsTask(h: Hook) {
    || (h.backend == "claude-code" && (h.normalized == "Task" || h.normalized == "Agent"))
    || (h.backend == "codex" && h.normalized == "spawn_agent")
    || (h.backend == "codex" && exists path :: h.tool == path + "spawn_agent")
  }

  /** A descriptor hook records exactly such a call: requested, now, under its backend, with its references. */
  lemma DescriptorRecorded(hash: string -> string, l: Ledger, h: Hook, now: int, summary: string)
    requires GoodHash(hash) && Numbered(hash, l.events)
    ensures var after, a := Described(hash, l, h, now, summary), AmbientOf(hash, l.events, h, NextAttempt);
      if !StartsTask(h) then after == l
      else
        && |after.events| == |l.events| + 1 && after.events[..|l.events|] == l.events
        && after.candidates == l.candidates && after.agents == l.agents
        && var e := after.events[|l.events|];
           && e.kind == TaskDescriptor && e.status == "requested" && e.at == now && e.backend == h.backend
           && e.detail == summary && e.agentRun == "" && e.refs == EventRefs(a)
  {
    assert IsTaskTool(h) <==> StartsTask(h) by {
      if HasSuffix(h.tool, "spawn_agent") {
        assert h.tool == h.tool[..|h.tool| - 11] + "spawn_agent";
      }
      if path :| h.tool == path + "spawn_agent" {
        assert h.tool[|h.tool| - 11..] == "spawn_agent";
      }
    }
    if IsTaskTool(h) {
      DescribedNumbered(hash, l, h, now, summary);
    }
  }

  /** What a tool's answer makes of its agent. */
  predicate StatusOf(h: Hook, isError: bool, status: string) {
    if isError then status == "failed"
    else if h.backend != "codex" then status == "completed"
    else if h.normalized == "spawn_agent" then status == "requested"
    else if h.normalized == "close_agent" then status == "closed"
    else if h.normalized == "wait_agent" || h.normalized == "resume_agent" || h.normalized == "send_input" then status == "running"
    else status == "completed"
  }

  /** The agent a result is about: its attempt's own on one backend, the one the backend names on the other. */
  predicate AgentOf(hash: string -> string, a: Ambient, id: string) {
    if a.hook.backend == "claude-code" then
      id == "ambient-agent-" + hash("claude-code" + ['\0'] + a.descriptor + ['\0'] + a.attempt)
    else if a.hook.backend == "codex" && a.hook.agentId != "" then
      id == "codex-agent-" + hash("codex-agent" + ['\0'] + a.hook.agentId)
    else id == ""
  }

  lemma StatusIs(h: Hook, isError: bool)
    ensures StatusOf(h, isError, ResultStatus(h, isError))
  {
  }

  lemma AgentIs(hash: string -> string, a: Ambient)
    ensures AgentOf(hash, a, AgentRunId(hash, a))
  {
  }

  function WithEvent(events: seq<Event>, e: Event): seq<Event> {
    if EventExists(events, e.id) then events else events + [e]
  }

  /** An event, a candidate if wanted, and another event if wanted, added to a ledger: its three lists. */
  lemma AddedParts(l: Ledger, e: Event, c: Option<Candidate>, d: Option<Event>, after: Ledger)
    requires var l1 := AddEvent(l, e);
      var l2 := if c.Some? then AddCandidate(l1, c.value) else l1;
      after == if d.Some? then AddEvent(l2, d.value) else l2
    ensures after.events == if d.Some? then WithEvent(WithEvent(l.events, e), d.value) else WithEvent(l.events, e)
    ensures after.candidates == if c.Some? then AddCandidate(l, c.value).candidates else l.candidates
    ensures after.agents == l.agents
  {
  }

  lemma ReconciledParts(hash: string -> string, l: Ledger, h: Hook, r: Response, now: int, a: Ambient)
    requires a == AmbientOf(hash, l.events, h, LastAttempt)
    ensures var after, e, d := Reconciled(hash, l, h, r, now), ResultEvent(hash, a, r, now), DistillationEvent(hash, a, r, now);
      && after.events == (if r.distillation != "" then WithEvent(WithEvent(l.events, e), d) else WithEvent(l.events, e))
      && after.candidates == (if r.checkpoint then AddCandidate(l, CheckpointCandidate(hash, a, r, now)).candidates else l.candidates)
      && after.agents == AddReport(hash, l, a, r, now).agents
  {
    var e, c, d := ResultEvent(hash, a, r, now), CheckpointCandidate(hash, a, r, now), DistillationEvent(hash, a, r, now);
    AddedParts(AddReport(hash, l, a, r, now), e, if r.checkpoint then Some(c) else None,
               if r.distillation != "" then Some(d) else None, Reconciled(hash, l, h, r, now));
  }

  /** What a result event says. */
  lemma ResultSays(hash: string -> string, a: Ambient, r: Response, now: int)
    ensures var e := ResultEvent(hash, a, r, now);
      && e.kind == TaskResult && e.at == now && e.backend == a.hook.backend && e.refs == EventRefs(a)
      && StatusOf(a.hook, r.isError, e.status) && AgentOf(hash, a, e.agentRun)
      && e.detail == if r.summary != "" then r.summary else a.hook.normalized + " result " + e.status
  {
    StatusIs(a.hook, r.isError);
    AgentIs(hash, a);
  }

  /** What a distillation says: what was distilled, and whether the task was over. */
  lemma DistillationSays(hash: string -> string, a: Ambient, r: Response, now: int)
    ensures var e := DistillationEvent(hash, a, r, now);
      && e.kind == Distillation && e.at == now && e.backend == a.hook.backend && e.refs == EventRefs(a)
      && AgentOf(hash, a, e.agentRun) && e.detail == r.distillation
      && e.status == if StatusOf(a.hook, r.isError, "completed") || StatusOf(a.hook, r.isError, "closed") then "completed" else "observed"
  {
    StatusIs(a.hook, r.isError);
    AgentIs(hash, a);
  }

  /**
   * A result hook appends the result, unless an event with its id is there, and then the distillation, if there is one
   * to make, under the same condition.
   */
  lemma ResultRecorded(hash: string -> string, l: Ledger, h: Hook, r: Response, now: int, a: Ambient, e: Event, d: Event)
    requires a == AmbientOf(hash, l.events, h, LastAttempt)
    requires e == ResultEvent(hash, a, r, now) && d == DistillationEvent(hash, a, r, now)
    ensures var es := l.events + if exists i :: 0 <= i < |l.events| && l.events[i].id == e.id then [] else [e];
      Reconciled(hash, l, h, r, now).events ==
        es + if r.distillation == "" || exists i :: 0 <= i < |es| && es[i].id == d.id then [] else [d]
  {
    ReconciledParts(hash, l, h, r, now, a);
    var es := WithEvent(l.events, e);
    assert l.events + [] == l.events && es + [] == es;
  }

  /** A checkpoint candidate is made exactly of a report that asks for one, unless the attempt has one. */
  lemma CandidateRecorded(hash: string -> string, l: Ledger, h: Hook, r: Response, now: int, a: Ambient, c: Candidate)
    requires a == AmbientOf(hash, l.events, h, LastAttempt) && c == CheckpointCandidate(hash, a, r, now)
    ensures Reconciled(hash, l, h, r, now).candidates ==
      l.candidates + if !r.checkpoint || exists i :: 0 <= i < |l.candidates| && l.candidates[i].id == c.id then [] else [c]
    ensures AgentOf(hash, a, c.agentRun) && c.backend == h.backend && c.at == now
    ensures c.role == AgentRuns.Role(h.agentType) && c.tier == AgentRuns.Tier(h.agentType)
    ensures c.changedFiles == r.changedFiles && c.verification == r.verification && c.caveats == r.caveats
    ensures c.summary == r.summary && c.refs == EventRefs(a)
  {
    ReconciledParts(hash, l, h, r, now, a);
    AgentIs(hash, a);
    assert l.candidates + [] == l.candidates;
  }

  /** The report a result makes on its agent, if it has one. */
  lemma ReportMade(hash: string -> string, l: Ledger, h: Hook, r: Response, now: int, a: Ambient, id: string, report: AgentRuns.Report)
    requires a == AmbientOf(hash, l.events, h, LastAttempt) && AgentOf(hash, a, id) && report == AgentReport(a, r, now)
    ensures Reconciled(hash, l, h, r, now).agents ==
      if id == "" then l.agents else l.agents[id := AgentRuns.Reported(Find(l.agents, id), report)]
    ensures report.backend == h.backend && report.agentType == h.agentType && report.at == now
    ensures report.agentId == (if h.backend == "codex" then h.agentId else "") && StatusOf(h, r.isError, report.status)
    ensures report.summary == r.summary && report.changedFiles == r.changedFiles
    ensures report.verification == r.verification && report.caveats == r.caveats && report.refs == EventRefs(a)
  {
    ReconciledParts(hash, l, h, r, now, a);
    StatusIs(h, r.isError);
    AgentIs(hash, a);
  }

  /** In a run, an event from elsewhere is recorded as it is. */
  lemma ForeignRecorded(hash: string -> string, steps: seq<Step>, e: Event)
    ensures Play(hash, steps + [Step.Other(e)]) == Play(hash, steps).(events := Play(hash, steps).events + [e])
  {
    assert (steps + [Step.Other(e)])[..|steps|] == steps;
  }
}
