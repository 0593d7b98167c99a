/** The record a run keeps of one agent: what a sequence of reports about it adds up to. */
module AgentRuns {
  import opened Dispatches
  import opened Order
  import opened Text

  datatype AgentRun = AgentRun(
    backend: string, agentId: string, role: string, tier: string,
    spawnedAt: Option<int>, completedAt: Option<int>, reportedAt: Option<int>,
    status: string, summary: string,
    changedFiles: seq<string>, verification: seq<string>, caveats: seq<string>,
    refs: seq<string>
  )

  /** What one result says about its agent. */
  datatype Report = Report(
    backend: string, agentId: string, agentType: string,
    at: int, status: string, summary: string,
    changedFiles: seq<string>, verification: seq<string>, caveats: seq<string>,
    refs: seq<string>
  )

  const TILLER := "tiller-"

  function Role(agentType: string): string {
    if HasPrefix(agentType, TILLER) then agentType[|TILLER|..] else agentType
  }

  function Tier(agentType: string): string {
    if agentType in {"tiller-scout", "tiller-summary", "tiller-investigator", "tiller-reviewer"} then "scrutiny"
    else if agentType in {"tiller-worker", "tiller-debugger"} then "execute"
    else if agentType in {"tiller-architect", "tiller-deep-report"} then "reason"
    else ""
  }

  predicate Ends(r: Report) {
    r.status in {"completed", "failed", "closed"}
  }

  /** The agent types there is a tier for; the role of any type is what follows the tool's name. */
  lemma TiersAre(agentType: string, rest: string)
    ensures Tier("tiller-scout") == Tier("tiller-summary") == Tier("tiller-investigator") == Tier("tiller-reviewer") == "scrutiny"
    ensures Tier("tiller-worker") == Tier("tiller-debugger") == "execute"
    ensures Tier("tiller-architect") == Tier("tiller-deep-report") == "reason"
    ensures Tier(agentType) == "" <==>
      && agentType != "tiller-scout" && agentType != "tiller-summary" && agentType != "tiller-investigator"
      && agentType != "tiller-reviewer" && agentType != "tiller-worker" && agentType != "tiller-debugger"
      && agentType != "tiller-architect" && agentType != "tiller-deep-report"
    ensures Role("tiller-" + rest) == rest
    ensures Role(agentType) == agentType || agentType == "tiller-" + Role(agentType)
  {
    assert ("tiller-" + rest)[..7] == "tiller-";
    if HasPrefix(agentType, TILLER) {
      assert agentType == "tiller-" + agentType[7..];
    }
  }

  lemma EndsAre(r: Report)
    ensures Ends(r) <==> r.status == "completed" || r.status == "failed" || r.status == "closed"
  {
  }

  // ---------------------------------------------------------------- lists of values

  /** The values trimmed, without blank ones, each where it first occurs. */
  function Values(values: seq<string>): seq<string> {
    if values == [] then []
    else
      var u, v := Values(values[..|values| - 1]), TrimSpace(values[|values| - 1]);
      if v == "" || v in u then u else u + [v]
  }

  method UniqueReportValues(values: seq<string>) returns (out: seq<string>)
    ensures out == Values(values)
  {
    var seen: set<string> := {};
    out := [];
    for i := 0 to |values|
      invariant out == Values(values[..i]) && seen == Elements(out)
    {
      assert values[..i + 1][..i] == values[..i];
      var value := TrimSpace(values[i]);
      if value != "" && value !in seen {
        seen := seen + {value};
        out := out + [value];
      }
    }
    assert values[..|values|] == values;
  }

  /** No blanks, no repetition, and exactly the values that are not blank. */
  lemma {:induction false} ValuesMeaning(values: seq<string>)
    ensures forall i, j | 0 <= i < j < |Values(values)| :: Values(values)[i] != Values(values)[j]
    ensures forall v :: v in Values(values) <==> v != "" && exists i :: 0 <= i < |values| && TrimSpace(values[i]) == v
  {
    if values != [] {
      var n := |values| - 1;
      ValuesMeaning(values[..n]);
      forall v | v in Values(values) ensures v != "" && exists i :: 0 <= i < |values| && TrimSpace(values[i]) == v {
        if v in Values(values[..n]) {
          var i :| 0 <= i < n && TrimSpace(values[..n][i]) == v;
          assert TrimSpace(values[i]) == v;
        } else {
          assert TrimSpace(values[n]) == v;
        }
      }
      forall i, v | v != "" && 0 <= i < |values| && TrimSpace(values[i]) == v ensures v in Values(values) {
        if i < n {
          assert TrimSpace(values[..n][i]) == v;
        }
      }
    }
  }

  /** They stand in the order in which they first occur: what comes later adds at the end. */
  lemma {:induction false} ValuesPrefix(values: seq<string>, more: seq<string>)
    ensures Values(values) <= Values(values + more)
    decreases |more|
  {
    if more == [] {
      assert values + more == values;
    } else {
      var n := |more| - 1;
      ValuesPrefix(values, more[..n]);
      ValuesSnoc(values + more[..n], more[n]);
      assert values + more[..n] + [more[n]] == values + more;
    }
  }

  lemma ValuesSnoc(values: seq<string>, value: string)
    ensures Values(values + [value]) ==
      if TrimSpace(value) == "" || TrimSpace(value) in Values(values) then Values(values) else Values(values) + [TrimSpace(value)]
  {
    assert (values + [value])[..|values|] == values;
  }

  lemma {:induction false} ValuesAgain(values: seq<string>)
    ensures Values(Values(values)) == Values(values)
  {
    if values != [] {
      var u, v := Values(values[..|values| - 1]), TrimSpace(values[|values| - 1]);
      ValuesAgain(values[..|values| - 1]);
      TrimmedTight(values[|values| - 1]);
      ValuesSnoc(u, v);
    }
  }

  lemma ValuesSame(u: seq<string>, a: seq<string>, more: seq<string>, last: string)
    requires Values(u + more) == Values(a + more)
    ensures Values(u + (more + [last])) == Values(a + (more + [last]))
  {
    ValuesSnoc(u + more, last);
    ValuesSnoc(a + more, last);
    assert u + (more + [last]) == u + more + [last] && a + (more + [last]) == a + more + [last];
  }

  /** Adding to a list already made unique is adding to the list it came from. */
  lemma {:induction false} ValuesConcat(a: seq<string>, u: seq<string>, b: seq<string>)
    requires u == Values(a)
    ensures Values(u + b) == Values(a + b)
    decreases |b|
  {
    if b == [] {
      assert u + b == u && a + b == a;
      ValuesAgain(a);
    } else {
      ValuesConcat(a, u, b[..|b| - 1]);
      ValuesSame(u, a, b[..|b| - 1], b[|b| - 1]);
      assert b == b[..|b| - 1] + [b[|b| - 1]];
    }
  }

  // ---------------------------------------------------------------- one report

  function Or<T(==)>(first: T, second: T, none: T): T {
    if first == none then second else first
  }

  /** The record as a report finds it: made new, or completed where it lacked something. */
  function Known(ar: Option<AgentRun>, r: Report): AgentRun {
    match ar
    case None =>
      AgentRun(r.backend, r.agentId, Role(r.agentType), Tier(r.agentType), Some(r.at), None, None, r.status, "", [], [], [], r.refs)
    case Some(old_) =>
      old_.(spawnedAt := Or(old_.spawnedAt, Some(r.at), None), agentId := Or(old_.agentId, r.agentId, ""),
            role := Or(old_.role, Role(r.agentType), ""), tier := Or(old_.tier, Tier(r.agentType), ""),
            status := r.status, refs := Values(old_.refs + r.refs))
  }

  function Reported(ar: Option<AgentRun>, r: Report): AgentRun {
    var known := Known(ar, r);
    known.(completedAt := if Ends(r) then Some(r.at) else known.completedAt, reportedAt := Some(r.at),
           summary := Or(r.summary, known.summary, ""), changedFiles := Or(r.changedFiles, known.changedFiles, []),
           verification := Or(r.verification, known.verification, []), caveats := Or(r.caveats, known.caveats, []))
  }

  /** The record a report leaves, worked out field by field. */
  method Upserted(found: Option<AgentRun>, r: Report) returns (ar: AgentRun)
    ensures ar == Reported(found, r)
  {
    if found.None? {
      ar := AgentRun(r.backend, r.agentId, Role(r.agentType), Tier(r.agentType), Some(r.at), None, None,
                     r.status, "", [], [], [], r.refs);
    } else {
      ar := found.value;
      if ar.spawnedAt.None? {
        ar := ar.(spawnedAt := Some(r.at));
      }
      if ar.agentId == "" {
        ar := ar.(agentId := r.agentId);
      }
      if ar.role == "" {
        ar := ar.(role := Role(r.agentType));
      }
      if ar.tier == "" {
        ar := ar.(tier := Tier(r.agentType));
      }
      var refs := UniqueReportValues(ar.refs + r.refs);
      ar := ar.(status := r.status, refs := refs);
    }
    ar := Filled(ar, r);
  }

  /** The second half of an upsert: times, and whatever the report has to say. */
  method Filled(known: AgentRun, r: Report) returns (ar: AgentRun)
    ensures ar == known.(completedAt := if Ends(r) then Some(r.at) else known.completedAt, reportedAt := Some(r.at),
      summary := Or(r.summary, known.summary, ""), changedFiles := Or(r.changedFiles, known.changedFiles, []),
      verification := Or(r.verification, known.verification, []), caveats := Or(r.caveats, known.caveats, []))
  {
    ar := known;
    if r.status == "completed" || r.status == "failed" || r.status == "closed" {
      ar := ar.(completedAt := Some(r.at));
    }
    ar := ar.(reportedAt := Some(r.at));
    if r.summary != "" {
      ar := ar.(summary := r.summary);
    }
    if |r.changedFiles| > 0 {
      ar := ar.(changedFiles := r.changedFiles);
    }
    if |r.verification| > 0 {
      ar := ar.(verification := r.verification);
    }
    if |r.caveats| > 0 {
      ar := ar.(caveats := r.caveats);
    }
  }

  // ---------------------------------------------------------------- any number of reports

  /** The record after these reports, in this order. */
  function History(reports: seq<Report>): Option<AgentRun> {
    if reports == [] then None else Some(Reported(History(reports[..|reports| - 1]), reports[|reports| - 1]))
  }

  /** `value` is what `f` finds in the last report in which it finds anything; `none` if in no report. */
  ghost predicate SaidLast<T(!new)>(reports: seq<Report>, f: Report -> T, value: T, none: T) {
    if value == none then NeverSaid(reports, f, none) else exists i :: LastSaying(reports, f, value, none, i)
  }

  ghost predicate SaidFirst<T(!new)>(reports: seq<Report>, f: Report -> T, value: T, none: T) {
    if value == none then NeverSaid(reports, f, none) else exists i :: FirstSaying(reports, f, value, none, i)
  }

  ghost predicate NeverSaid<T(!new)>(reports: seq<Report>, f: Report -> T, none: T) {
    forall i | 0 <= i < |reports| :: f(reports[i]) == none
  }

  ghost predicate LastSaying<T(!new)>(reports: seq<Report>, f: Report -> T, value: T, none: T, i: int) {
    0 <= i < |reports| && f(reports[i]) == value && forall j | i < j < |reports| :: f(reports[j]) == none
  }

  ghost predicate FirstSaying<T(!new)>(reports: seq<Report>, f: Report -> T, value: T, none: T, i: int) {
    0 <= i < |reports| && f(reports[i]) == value && forall j | 0 <= j < i :: f(reports[j]) == none
  }

  lemma SaidLastMore<T(!new)>(reports: seq<Report>, r: Report, f: Report -> T, value: T, none: T)
    requires SaidLast(reports, f, value, none)
    ensures SaidLast(reports + [r], f, Or(f(r), value, none), none)
  {
    var more := reports + [r];
    if f(r) != none {
      assert LastSaying(more, f, f(r), none, |reports|);
    } else if value != none {
      var i :| LastSaying(reports, f, value, none, i);
      assert LastSaying(more, f, value, none, i);
    }
  }

  lemma SaidFirstMore<T(!new)>(reports: seq<Report>, r: Report, f: Report -> T, value: T, none: T)
    requires SaidFirst(reports, f, value, none)
    ensures SaidFirst(reports + [r], f, Or(value, f(r), none), none)
  {
    var more := reports + [r];
    if value != none {
      var i :| FirstSaying(reports, f, value, none, i);
      assert FirstSaying(more, f, value, none, i);
    } else if f(r) != none {
      assert FirstSaying(more, f, f(r), none, |reports|);
    }
  }

  /** A field that a report overwrites when it has something to say. */
  ghost predicate Overwritten<T(!new)>(get: AgentRun -> T, f: Report -> T, none: T) {
    forall ar: Option<AgentRun>, r :: get(Reported(ar, r)) == Or(f(r), if ar.None? then none else get(ar.value), none)
  }

  /** A field that a report only fills in. */
  ghost predicate FilledIn<T(!new)>(get: AgentRun -> T, f: Report -> T, none: T) {
    forall ar: Option<AgentRun>, r :: get(Reported(ar, r)) == Or(if ar.None? then none else get(ar.value), f(r), none)
  }

  lemma {:induction false} OverwrittenSaidLast<T(!new)>(reports: seq<Report>, get: AgentRun -> T, f: Report -> T, none: T)
    requires Overwritten(get, f, none)
    ensures SaidLast(reports, f, if reports == [] then none else get(History(reports).value), none)
  {
    if reports != [] {
      var fewer, r := reports[..|reports| - 1], reports[|reports| - 1];
      OverwrittenSaidLast(fewer, get, f, none);
      SaidLastMore(fewer, r, f, if fewer == [] then none else get(History(fewer).value), none);
      assert get(Reported(History(fewer), r)) == get(History(reports).value);
      assert fewer + [r] == reports;
    }
  }

  lemma {:induction false} FilledInSaidFirst<T(!new)>(reports: seq<Report>, get: AgentRun -> T, f: Report -> T, none: T)
    requires FilledIn(get, f, none)
    ensures SaidFirst(reports, f, if reports == [] then none else get(History(reports).value), none)
  {
    if reports != [] {
      var fewer, r := reports[..|reports| - 1], reports[|reports| - 1];
      FilledInSaidFirst(fewer, get, f, none);
      SaidFirstMore(fewer, r, f, if fewer == [] then none else get(History(fewer).value), none);
      assert get(Reported(History(fewer), r)) == get(History(reports).value);
      assert fewer + [r] == reports;
    }
  }

  function EndTime(r: Report): Option<int> {
    if Ends(r) then Some(r.at) else None
  }

  lemma LastEnd(reports: seq<Report>, ar: AgentRun)
    requires History(reports) == Some(ar)
    ensures SaidLast(reports, EndTime, ar.completedAt, None)
  {
    OverwrittenSaidLast(reports, (a: AgentRun) => a.completedAt, EndTime, None);
  }

  /** What was found out: the last end, and the last word on summary, files, verification and caveats. */
  lemma LastWords(reports: seq<Report>, ar: AgentRun)
    requires History(reports) == Some(ar)
    ensures SaidLast(reports, EndTime, ar.completedAt, None)
    ensures SaidLast(reports, (r: Report) => r.summary, ar.summary, "")
    ensures SaidLast(reports, (r: Report) => r.changedFiles, ar.changedFiles, [])
    ensures SaidLast(reports, (r: Report) => r.verification, ar.verification, [])
    ensures SaidLast(reports, (r: Report) => r.caveats, ar.caveats, [])
  {
    LastEnd(reports, ar);
    OverwrittenSaidLast(reports, (a: AgentRun) => a.summary, (r: Report) => r.summary, "");
    OverwrittenSaidLast(reports, (a: AgentRun) => a.changedFiles, (r: Report) => r.changedFiles, []);
    OverwrittenSaidLast(reports, (a: AgentRun) => a.verification, (r: Report) => r.verification, []);
    OverwrittenSaidLast(reports, (a: AgentRun) => a.caveats, (r: Report) => r.caveats, []);
  }

  /** Who it was: the first report that says so. */
  lemma FirstWords(reports: seq<Report>, ar: AgentRun)
    requires History(reports) == Some(ar)
    ensures SaidFirst(reports, (r: Report) => r.agentId, ar.agentId, "")
    ensures SaidFirst(reports, (r: Report) => Role(r.agentType), ar.role, "")
    ensures SaidFirst(reports, (r: Report) => Tier(r.agentType), ar.tier, "")
    ensures ar.spawnedAt == Some(reports[0].at)
  {
    FilledInSaidFirst(reports, (a: AgentRun) => a.agentId, (r: Report) => r.agentId, "");
    FilledInSaidFirst(reports, (a: AgentRun) => a.role, (r: Report) => Role(r.agentType), "");
    FilledInSaidFirst(reports, (a: AgentRun) => a.tier, (r: Report) => Tier(r.agentType), "");
    FilledInSaidFirst(reports, (a: AgentRun) => a.spawnedAt, (r: Report) => Some(r.at), None);
    var i :| FirstSaying(reports, (r: Report) => Some(r.at), ar.spawnedAt, None, i);
  }

  function AllRefs(reports: seq<Report>): seq<string> {
    if reports == [] then [] else AllRefs(reports[..|reports| - 1]) + reports[|reports| - 1].refs
  }

  /** From the second report on, the references are those of all reports, trimmed and each once. */
  lemma {:induction false} HistoryRefs(reports: seq<Report>)
    requires reports != []
    ensures History(reports).value.refs == if |reports| == 1 then reports[0].refs else Values(AllRefs(reports))
  {
    if |reports| > 1 {
      var fewer, r := reports[..|reports| - 1], reports[|reports| - 1];
      HistoryRefs(fewer);
      if |fewer| == 1 {
        assert AllRefs(fewer) == AllRefs(fewer[..0]) + fewer[0].refs == fewer[0].refs;
      } else {
        ValuesConcat(AllRefs(fewer), History(fewer).value.refs, r.refs);
      }
    }
  }

  lemma EndRecorded(reports: seq<Report>, end: Option<int>)
    requires SaidLast(reports, EndTime, end, None)
    ensures end.Some? <==> exists i :: 0 <= i < |reports| && Ends(reports[i])
  {
    if end.Some? {
      var i :| LastSaying(reports, EndTime, end, None, i);
      assert Ends(reports[i]);
    } else {
      assert forall i | 0 <= i < |reports| :: EndTime(reports[i]) == None;
    }
  }

  /** The status is always the last report's … */
  lemma LastStatus(reports: seq<Report>, ar: AgentRun)
    requires History(reports) == Some(ar)
    ensures ar.status == reports[|reports| - 1].status && ar.reportedAt == Some(reports[|reports| - 1].at)
  {
  }

  /** … but an end once reported stays on record: an agent may be running again and have completed. */
  lemma EndStays(reports: seq<Report>, ar: AgentRun)
    requires History(reports) == Some(ar)
    ensures ar.completedAt.Some? <==> exists i :: 0 <= i < |reports| && Ends(reports[i])
  {
    LastEnd(reports, ar);
    EndRecorded(reports, ar.completedAt);
  }

  /** Values already there add nothing. */
  lemma {:induction false} ValuesPresent(values: seq<string>, more: seq<string>)
    requires forall i | 0 <= i < |more| :: TrimSpace(more[i]) == "" || TrimSpace(more[i]) in Values(values)
    ensures Values(values + more) == Values(values)
    decreases |more|
  {
    if more == [] {
      assert values + more == values;
    } else {
      var fewer, last := more[..|more| - 1], more[|more| - 1];
      ValuesPresent(values, fewer);
      ValuesSnoc(values + fewer, last);
      assert values + more == values + fewer + [last];
    }
  }

  lemma ValuesOfPart(a: seq<string>, b: seq<string>)
    ensures forall i | 0 <= i < |b| :: TrimSpace(b[i]) == "" || TrimSpace(b[i]) in Values(a + b)
  {
    ValuesMeaning(a + b);
    forall i | 0 <= i < |b| ensures TrimSpace(b[i]) == "" || TrimSpace(b[i]) in Values(a + b) {
      assert TrimSpace((a + b)[|a| + i]) == TrimSpace(b[i]);
    }
  }

  /** The same report once more changes the times only, once the references are unique. */
  lemma ReportedTwice(ar: Option<AgentRun>, r: Report, again: int)
    ensures var once := Reported(ar, r);
      Reported(Some(once), r.(at := again)) ==
      once.(completedAt := if Ends(r) then Some(again) else once.completedAt, reportedAt := Some(again),
            refs := Values(once.refs + r.refs))
    ensures ar.Some? ==> Values(Reported(ar, r).refs + r.refs) == Reported(ar, r).refs
  {
    if ar.Some? {
      ValuesConcat(ar.value.refs + r.refs, Reported(ar, r).refs, r.refs);
      ValuesOfPart(ar.value.refs, r.refs);
      ValuesPresent(ar.value.refs + r.refs, r.refs);
    }
  }
}
