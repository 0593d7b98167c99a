/** Folding ledger events into one effective event per task descriptor. */
module StatusFold {
  import opened Dispatches
  import opened Order
  import opened Text

  datatype Kind = TaskDescriptor | TaskResult | Distillation | OtherKind(text: string)

  /** A ledger event; `detail` stands for the fields that folding only carries along. */
  datatype Event = Event(
    kind: Kind, id: string, backend: string, at: int, status: string, agentRun: string, refs: seq<string>, detail: string
  )

  // ---------------------------------------------------------------- references

  const DESCRIPTOR := "descriptor_id:"

  /** The value of the first reference with this prefix. */
  function RefValue(refs: seq<string>, prefix: string): string {
    if refs == [] then ""
    else if HasPrefix(refs[0], prefix) then refs[0][|prefix|..]
    else RefValue(refs[1..], prefix)
  }

  predicate HasRef(refs: seq<string>, prefix: string) {
    exists i | 0 <= i < |refs| :: HasPrefix(refs[i], prefix)
  }

  lemma {:induction false} RefValueConcat(a: seq<string>, b: seq<string>, prefix: string)
    ensures RefValue(a + b, prefix) == if HasRef(a, prefix) then RefValue(a, prefix) else RefValue(b, prefix)
  {
    if a == [] {
      assert a + b == b;
    } else {
      assert (a + b)[1..] == a[1..] + b;
      if HasPrefix(a[0], prefix) {
      } else {
        RefValueConcat(a[1..], b, prefix);
        assert HasRef(a, prefix) ==> HasRef(a[1..], prefix) by {
          if i :| 0 <= i < |a| && HasPrefix(a[i], prefix) {
            assert a[1..][i - 1] == a[i];
          }
        }
      }
    }
  }

  lemma {:induction false} ValuedRef(refs: seq<string>, prefix: string)
    requires RefValue(refs, prefix) != ""
    ensures HasRef(refs, prefix)
  {
    if !HasPrefix(refs[0], prefix) {
      ValuedRef(refs[1..], prefix);
      var i :| 0 <= i < |refs[1..]| && HasPrefix(refs[1..][i], prefix);
      assert refs[i + 1] == refs[1..][i];
    }
  }

  /** The first occurrences, in order. */
  function Unique(values: seq<string>): seq<string> {
    if values == [] then []
    else
      var u, last := Unique(values[..|values| - 1]), values[|values| - 1];
      if last in u then u else u + [last]
  }

  ghost predicate NoRepeats(s: seq<string>) {
    forall i, j | 0 <= i < j < |s| :: s[i] != s[j]
  }

  lemma ElementsSnoc(a: seq<string>, x: string)
    ensures Elements(a + [x]) == Elements(a) + {x}
  {
  }

  lemma {:induction false} UniqueKeeps(values: seq<string>)
    ensures Elements(Unique(values)) == Elements(values) && NoRepeats(Unique(values))
  {
    if values != [] {
      var n := |values| - 1;
      var u, last := Unique(values[..n]), values[n];
      UniqueKeeps(values[..n]);
      assert values == values[..n] + [last];
      ElementsSnoc(values[..n], last);
      ElementsSnoc(u, last);
      assert last in u <==> last in Elements(u);
    }
  }

  lemma {:induction false} UniqueRefValue(values: seq<string>, prefix: string)
    ensures RefValue(Unique(values), prefix) == RefValue(values, prefix)
    ensures HasRef(Unique(values), prefix) == HasRef(values, prefix)
  {
    if values != [] {
      var n := |values| - 1;
      var u, last := Unique(values[..n]), values[n];
      UniqueRefValue(values[..n], prefix);
      assert values == values[..n] + [last];
      RefValueConcat(values[..n], [last], prefix);
      if last in u {
        var i :| 0 <= i < |u| && u[i] == last;
        assert HasPrefix(last, prefix) ==> HasRef(u, prefix);
        if !HasRef(values[..n], prefix) {
          RefValueNone(values[..n], prefix);
        }
      } else {
        RefValueConcat(u, [last], prefix);
      }
      SnocRef(values[..n], last, prefix);
      SnocRef(u, last, prefix);
    }
  }

  lemma SnocRef(a: seq<string>, last: string, prefix: string)
    ensures HasRef(a + [last], prefix) <==> HasRef(a, prefix) || HasPrefix(last, prefix)
  {
    var s := a + [last];
    assert s[|a|] == last;
    if i :| 0 <= i < |a| && HasPrefix(a[i], prefix) {
      assert s[i] == a[i];
    }
    if i :| 0 <= i < |s| && HasPrefix(s[i], prefix) {
      assert i < |a| ==> s[i] == a[i];
    }
  }

  lemma {:induction false} RefValueNone(refs: seq<string>, prefix: string)
    requires !HasRef(refs, prefix)
    ensures RefValue(refs, prefix) == ""
  {
    if refs != [] {
      assert !HasPrefix(refs[0], prefix);
      forall i | 0 <= i < |refs[1..]| ensures !HasPrefix(refs[1..][i], prefix) {
        assert refs[1..][i] == refs[i + 1];
      }
      RefValueNone(refs[1..], prefix);
    }
  }

  method UniqueStrings(values: seq<string>) returns (out: seq<string>)
    ensures out == Unique(values)
  {
    var seen: set<string> := {};
    out := [];
    for i := 0 to |values|
      invariant out == Unique(values[..i]) && seen == Elements(out)
    {
      assert values[..i + 1][..i] == values[..i];
      assert values[i] in seen <==> values[i] in out;
      if values[i] !in seen {
        seen := seen + {values[i]};
        out := out + [values[i]];
      }
    }
    assert values[..|values|] == values;
  }

  // ---------------------------------------------------------------- the latest event of a slot

  /** Later in time, or as late with the larger id. */
  predicate Later(a: Event, b: Event) {
    a.at > b.at || (a.at == b.at && Less(b.id, a.id))
  }

  lemma LaterTransitive(a: Event, b: Event, c: Event)
    requires Later(a, b) && Later(b, c)
    ensures Later(a, c)
  {
    if a.at == b.at == c.at {
      LessTransitive(c.id, b.id, a.id);
    }
  }

  datatype Purpose = Grouping | Results

  /** The entry of the fold an event goes to; `None` if the fold passes it over. */
  function Slot(p: Purpose, e: Event): Option<string> {
    var id := RefValue(e.refs, DESCRIPTOR);
    match p
    case Grouping => Some(if id == "" then e.id else id)
    case Results => if e.kind == TaskResult && id != "" then Some(id) else None
  }

  /** No event of this slot is later than `e`. */
  ghost predicate Tops(p: Purpose, events: seq<Event>, k: string, e: Event) {
    forall j | 0 <= j < |events| && Slot(p, events[j]) == Some(k) :: !Later(events[j], e)
  }

  /** `g` is a latest event of the slot, but for its references. */
  ghost predicate Latest(p: Purpose, events: seq<Event>, k: string, g: Event) {
    exists i | 0 <= i < |events| ::
      Slot(p, events[i]) == Some(k) && g == events[i].(refs := g.refs) && Tops(p, events, k, events[i])
  }

  ghost predicate Occupied(p: Purpose, events: seq<Event>, k: string) {
    exists i | 0 <= i < |events| :: Slot(p, events[i]) == Some(k)
  }

  /** One more event: it takes over exactly when it is later than the latest so far. */
  lemma LatestMore(p: Purpose, events: seq<Event>, k: string, g: Event, e: Event, refs: seq<string>)
    requires Latest(p, events, k, g) && Slot(p, e) == Some(k)
    ensures Latest(p, events + [e], k, if Later(e, g) then e.(refs := refs) else g.(refs := refs))
  {
    var i :| 0 <= i < |events| && Slot(p, events[i]) == Some(k) && g == events[i].(refs := g.refs) && Tops(p, events, k, events[i]);
    var more := events + [e];
    assert more[|events|] == e && more[i] == events[i];
    if Later(e, g) {
      forall j | 0 <= j < |more| && Slot(p, more[j]) == Some(k) ensures !Later(more[j], e) {
        if j < |events| {
          assert more[j] == events[j];
          if Later(more[j], e) { LaterTransitive(more[j], e, g); }
        } else if Later(e, e) {
          LessIrreflexive(e.id);
        }
      }
    } else {
      assert Tops(p, more, k, more[i]);
    }
  }

  lemma LatestFirst(p: Purpose, events: seq<Event>, k: string, e: Event, refs: seq<string>)
    requires !Occupied(p, events, k) && Slot(p, e) == Some(k)
    ensures Latest(p, events + [e], k, e.(refs := refs))
  {
    var more := events + [e];
    assert more[|events|] == e;
    LessIrreflexive(e.id);
    assert forall j | 0 <= j < |events| :: more[j] == events[j];
    assert Tops(p, more, k, more[|events|]);
  }

  lemma LatestOther(p: Purpose, events: seq<Event>, k: string, g: Event, e: Event)
    requires Latest(p, events, k, g) && Slot(p, e) != Some(k)
    ensures Latest(p, events + [e], k, g)
  {
    var i :| 0 <= i < |events| && Slot(p, events[i]) == Some(k) && g == events[i].(refs := g.refs) && Tops(p, events, k, events[i]);
    var more := events + [e];
    assert more[i] == events[i];
    assert Tops(p, more, k, more[i]);
  }

  lemma OccupiedMore(p: Purpose, events: seq<Event>, k: string, e: Event)
    ensures Occupied(p, events + [e], k) <==> Occupied(p, events, k) || Slot(p, e) == Some(k)
  {
    var more := events + [e];
    assert more[|events|] == e;
    if i :| 0 <= i < |events| && Slot(p, events[i]) == Some(k) {
      assert more[i] == events[i];
    }
  }

  // ---------------------------------------------------------------- grouping descriptor events

  function Groups(events: seq<Event>): map<string, Event> {
    if events == [] then map[]
    else
      var groups, e := Groups(events[..|events| - 1]), events[|events| - 1];
      Absorb(groups, e)
  }

  function Absorb(groups: map<string, Event>, e: Event): map<string, Event> {
    var k := Slot(Grouping, e).value;
    if k !in groups then groups[k := e.(refs := Unique(e.refs))]
    else
      var prev := groups[k];
      var refs := Unique(prev.refs + e.refs);
      groups[k := if Later(e, prev) then e.(refs := refs) else prev.(refs := refs)]
  }

  method EffectiveDescriptorGroups(events: seq<Event>) returns (byDescriptor: map<string, Event>)
    ensures byDescriptor == Groups(events)
  {
    byDescriptor := map[];
    for i := 0 to |events|
      invariant byDescriptor == Groups(events[..i])
    {
      assert events[..i + 1][..i] == events[..i];
      var ev := events[i];
      var id := RefValue(ev.refs, DESCRIPTOR);
      if id == "" {
        id := ev.id;
      }
      if id !in byDescriptor {
        var refs := UniqueStrings([] + ev.refs);
        assert [] + ev.refs == ev.refs;
        byDescriptor := byDescriptor[id := ev.(refs := refs)];
      } else {
        var prev := byDescriptor[id];
        var refs := UniqueStrings(prev.refs + ev.refs);
        byDescriptor := byDescriptor[id := if Later(ev, prev) then ev.(refs := refs) else prev.(refs := refs)];
      }
    }
    assert events[..|events|] == events;
  }

  /** Some event of the slot brings this reference. */
  ghost predicate Contributed(events: seq<Event>, k: string, r: string) {
    exists i | 0 <= i < |events| :: Slot(Grouping, events[i]) == Some(k) && r in events[i].refs
  }

  lemma ContributedMore(events: seq<Event>, k: string, e: Event, r: string)
    ensures Contributed(events + [e], k, r) <==> Contributed(events, k, r) || (Slot(Grouping, e) == Some(k) && r in e.refs)
  {
    var more := events + [e];
    assert more[|events|] == e;
    if i :| 0 <= i < |events| && Slot(Grouping, events[i]) == Some(k) && r in events[i].refs {
      assert more[i] == events[i];
    }
  }

  /** There is one group for every descriptor that occurs, holding its latest event. */
  lemma {:induction false} GroupIsLatest(events: seq<Event>, k: string)
    ensures k in Groups(events) <==> Occupied(Grouping, events, k)
    ensures k in Groups(events) ==> Latest(Grouping, events, k, Groups(events)[k])
  {
    if events != [] {
      var n := |events| - 1;
      var fewer, e, groups := events[..n], events[n], Groups(events[..n]);
      assert events == fewer + [e];
      GroupIsLatest(fewer, k);
      OccupiedMore(Grouping, fewer, k, e);
      if Slot(Grouping, e) != Some(k) {
        if k in groups {
          LatestOther(Grouping, fewer, k, groups[k], e);
        }
      } else if k in groups {
        LatestMore(Grouping, fewer, k, groups[k], e, Unique(groups[k].refs + e.refs));
      } else {
        LatestFirst(Grouping, fewer, k, e, Unique(e.refs));
      }
    }
  }

  /** A group's references are those of all its events, each once. */
  lemma {:induction false} GroupRefs(events: seq<Event>, k: string, r: string)
    requires k in Groups(events)
    ensures r in Groups(events)[k].refs <==> Contributed(events, k, r)
    ensures NoRepeats(Groups(events)[k].refs)
  {
    var n := |events| - 1;
    var fewer, e, groups := events[..n], events[n], Groups(events[..n]);
    assert events == fewer + [e];
    ContributedMore(fewer, k, e, r);
    if k in groups {
      GroupRefs(fewer, k, r);
      MergedRefs(groups[k].refs, e.refs, r);
    } else {
      MergedRefs([], e.refs, r);
      assert [] + e.refs == e.refs;
      NothingContributed(fewer, k, r);
    }
  }

  lemma MergedRefs(a: seq<string>, b: seq<string>, r: string)
    ensures r in Unique(a + b) <==> r in a || r in b
    ensures NoRepeats(Unique(a + b))
  {
    UniqueKeeps(a + b);
    assert r in Unique(a + b) <==> r in Elements(Unique(a + b));
    assert r in a + b <==> r in Elements(a + b);
  }

  lemma NothingContributed(events: seq<Event>, k: string, r: string)
    requires k !in Groups(events)
    ensures !Contributed(events, k, r)
  {
    GroupIsLatest(events, k);
  }

  // ---------------------------------------------------------------- results

  function LatestResults(events: seq<Event>): map<string, Event> {
    if events == [] then map[]
    else
      var results, e := LatestResults(events[..|events| - 1]), events[|events| - 1];
      var k := Slot(Results, e);
      if k.Some? && (k.value in results ==> Later(e, results[k.value])) then results[k.value := e] else results
  }

  lemma TopsMore(p: Purpose, events: seq<Event>, k: string, g: Event, e: Event)
    requires Tops(p, events, k, g)
    ensures Tops(p, events + [e], k, if Slot(p, e) == Some(k) && Later(e, g) then e else g)
  {
    var more := events + [e];
    var top := if Slot(p, e) == Some(k) && Later(e, g) then e else g;
    forall j | 0 <= j < |more| && Slot(p, more[j]) == Some(k) ensures !Later(more[j], top) {
      if j < |events| {
        assert more[j] == events[j];
        if top == e && Later(more[j], e) && Later(e, g) { LaterTransitive(more[j], e, g); }
      } else if Later(e, e) {
        LessIrreflexive(e.id);
      }
    }
  }

  /** `r` is an event of the slot, and none is later. */
  ghost predicate LatestEvent(p: Purpose, events: seq<Event>, k: string, r: Event) {
    Slot(p, r) == Some(k) && r in events && Tops(p, events, k, r)
  }

  /** There is a result for every descriptor with a result event, and it is the latest of them. */
  lemma {:induction false} ResultIsLatest(events: seq<Event>, k: string)
    ensures k in LatestResults(events) <==> Occupied(Results, events, k)
    ensures k in LatestResults(events) ==> LatestEvent(Results, events, k, LatestResults(events)[k])
  {
    if events != [] {
      var n := |events| - 1;
      var fewer, e, results := events[..n], events[n], LatestResults(events[..n]);
      assert events == fewer + [e];
      ResultIsLatest(fewer, k);
      OccupiedMore(Results, fewer, k, e);
      if k in results {
        TopsMore(Results, fewer, k, results[k], e);
      } else if Slot(Results, e) == Some(k) {
        LatestFirst(Results, fewer, k, e, e.refs);
        assert LatestEvent(Results, events, k, e);
      }
    }
  }

  // ---------------------------------------------------------------- one effective event per descriptor

  function TaskDescriptorEvents(events: seq<Event>): seq<Event> {
    if events == [] then []
    else
      var some, e := TaskDescriptorEvents(events[..|events| - 1]), events[|events| - 1];
      if e.kind == TaskDescriptor then some + [e] else some
  }

  lemma {:induction false} DescriptorEvents(events: seq<Event>, e: Event)
    ensures e in TaskDescriptorEvents(events) <==> e in events && e.kind == TaskDescriptor
  {
    if events != [] {
      DescriptorEvents(events[..|events| - 1], e);
      assert events == events[..|events| - 1] + [events[|events| - 1]];
    }
  }

  /** A group's event with the latest result laid over it. */
  function WithResult(g: Event, results: map<string, Event>): Event {
    var k := RefValue(g.refs, DESCRIPTOR);
    if k !in results then g else Laid(g, results[k])
  }

  function Laid(g: Event, r: Event): Event {
    g.(status := if r.status != "" then r.status else g.status,
       agentRun := if r.agentRun != "" then r.agentRun else g.agentRun,
       refs := Unique(g.refs + r.refs))
  }

  function Effective(events: seq<Event>, k: string): Event
    requires k in Groups(TaskDescriptorEvents(events))
  {
    WithResult(Groups(TaskDescriptorEvents(events))[k], LatestResults(events))
  }

  /** Map entries in whatever order iteration yields them. */
  method EntriesOf(m: map<string, Event>) returns (out: seq<Event>)
    ensures Enumerates(m, out)
  {
    out := [];
    ghost var keys: seq<string> := [];
    var todo := m.Keys;
    while todo != {}
      invariant todo <= m.Keys && multiset(keys) + multiset(todo) == multiset(m.Keys)
      invariant Entries(m, keys, out)
    {
      var k :| k in todo;
      out, keys, todo := out + [m[k]], keys + [k], todo - {k};
    }
    assert multiset(keys) == multiset(m.Keys);
  }

  ghost predicate Entries(m: map<string, Event>, keys: seq<string>, out: seq<Event>) {
    |out| == |keys| && forall i | 0 <= i < |keys| :: keys[i] in m && out[i] == m[keys[i]]
  }

  /** The entries of `m`, one for each key, in some order. */
  ghost predicate Enumerates(m: map<string, Event>, out: seq<Event>) {
    exists keys: seq<string> :: multiset(keys) == multiset(m.Keys) && Entries(m, keys, out)
  }

  /** The effective event of every descriptor. */
  function EffectiveAll(events: seq<Event>): map<string, Event> {
    map k | k in Groups(TaskDescriptorEvents(events)) :: Effective(events, k)
  }

  method CollectResults(events: seq<Event>) returns (results: map<string, Event>)
    ensures results == LatestResults(events)
  {
    results := map[];
    for i := 0 to |events|
      invariant results == LatestResults(events[..i])
    {
      assert events[..i + 1][..i] == events[..i];
      var ev := events[i];
      var id := RefValue(ev.refs, DESCRIPTOR);
      if ev.kind == TaskResult && id != "" {
        if id !in results || Later(ev, results[id]) {
          results := results[id := ev];
        }
      }
    }
    assert events[..|events|] == events;
  }

  method EffectiveTaskDescriptorEvents(events: seq<Event>) returns (out: seq<Event>)
    ensures Enumerates(EffectiveAll(events), out)
  {
    var groups := EffectiveDescriptorGroups(TaskDescriptorEvents(events));
    out := EntriesOf(groups);
    var results := CollectResults(events);
    ghost var before := out;
    for i := 0 to |out|
      invariant |out| == |before|
      invariant forall j | 0 <= j < i :: out[j] == WithResult(before[j], results)
      invariant forall j | i <= j < |out| :: out[j] == before[j]
    {
      var id := RefValue(out[i].refs, DESCRIPTOR);
      if id in results {
        var result := results[id];
        var refs := UniqueStrings(out[i].refs + result.refs);
        out := out[i := out[i].(
          status := if result.status != "" then result.status else out[i].status,
          agentRun := if result.agentRun != "" then result.agentRun else out[i].agentRun,
          refs := refs)];
      }
    }
    LaidOver(events, before, out);
  }

  lemma LaidOver(events: seq<Event>, before: seq<Event>, out: seq<Event>)
    requires Enumerates(Groups(TaskDescriptorEvents(events)), before) && |out| == |before|
    requires forall j | 0 <= j < |out| :: out[j] == WithResult(before[j], LatestResults(events))
    ensures Enumerates(EffectiveAll(events), out)
  {
    var groups := Groups(TaskDescriptorEvents(events));
    var keys: seq<string> :| multiset(keys) == multiset(groups.Keys) && Entries(groups, keys, before);
    assert EffectiveAll(events).Keys == groups.Keys;
    assert Entries(EffectiveAll(events), keys, out);
  }

  // ---------------------------------------------------------------- what the fold means

  /** Every descriptor event names its descriptor. */
  ghost predicate Carried(events: seq<Event>) {
    forall i | 0 <= i < |events| :: RefValue(events[i].refs, DESCRIPTOR) != ""
  }

  /** The event has a reference to a descriptor, be it blank. */
  predicate Refers(e: Event, k: string) {
    Slot(Grouping, e) == Some(k) && HasRef(e.refs, DESCRIPTOR)
  }

  /** What the first event of a slot that has a descriptor reference says there. */
  function GroupName(events: seq<Event>, k: string): Option<string> {
    if events == [] then None
    else
      var before, e := GroupName(events[..|events| - 1], k), events[|events| - 1];
      if before.None? && Refers(e, k) then Some(RefValue(e.refs, DESCRIPTOR)) else before
  }

  lemma {:induction false} GroupNameFrom(events: seq<Event>, k: string)
    ensures GroupName(events, k).None? <==> forall i | 0 <= i < |events| :: !Refers(events[i], k)
    ensures GroupName(events, k).Some? ==>
      exists i | 0 <= i < |events| :: Refers(events[i], k) && GroupName(events, k).value == RefValue(events[i].refs, DESCRIPTOR)
  {
    if events != [] {
      var n := |events| - 1;
      GroupNameFrom(events[..n], k);
      assert events == events[..n] + [events[n]];
      assert forall i | 0 <= i < n :: events[..n][i] == events[i];
    }
  }

  /** Merged references that are found under `name`. */
  ghost predicate FoundAs(refs: seq<string>, name: Option<string>) {
    && (HasRef(refs, DESCRIPTOR) <==> name.Some?)
    && RefValue(refs, DESCRIPTOR) == if name.Some? then name.value else ""
  }

  /** One more event adds its references to those of its own group. */
  lemma AbsorbedRefs(groups: map<string, Event>, e: Event, k: string)
    ensures var after, known := Absorb(groups, e), if k in groups then groups[k].refs else [];
      && (k in after <==> k in groups || Slot(Grouping, e) == Some(k))
      && (k in after ==> after[k].refs == if Slot(Grouping, e) == Some(k) then Unique(known + e.refs) else known)
  {
    assert [] + e.refs == e.refs;
  }

  /** Merging references finds the group under what its first reference says. */
  lemma {:induction false} GroupNamed(events: seq<Event>, k: string)
    requires k in Groups(events)
    ensures FoundAs(Groups(events)[k].refs, GroupName(events, k))
  {
    var n := |events| - 1;
    var fewer, e, groups := events[..n], events[n], Groups(events[..n]);
    AbsorbedRefs(groups, e, k);
    if k in groups {
      GroupNamed(fewer, k);
    } else {
      NotYetNamed(fewer, k);
    }
    if Slot(Grouping, e) == Some(k) {
      NameMerged(if k in groups then groups[k].refs else [], e.refs, GroupName(fewer, k));
    }
  }

  lemma NotYetNamed(events: seq<Event>, k: string)
    requires k !in Groups(events)
    ensures GroupName(events, k).None?
  {
    GroupIsLatest(events, k);
    GroupNameFrom(events, k);
  }

  lemma NameMerged(a: seq<string>, b: seq<string>, name: Option<string>)
    requires FoundAs(a, name)
    ensures FoundAs(Unique(a + b), if name.None? && HasRef(b, DESCRIPTOR) then Some(RefValue(b, DESCRIPTOR)) else name)
  {
    UniqueRefValue(a + b, DESCRIPTOR);
    RefValueConcat(a, b, DESCRIPTOR);
    ConcatRefs(a, b, DESCRIPTOR);
    if !HasRef(b, DESCRIPTOR) {
      RefValueNone(b, DESCRIPTOR);
    }
  }

  lemma ConcatRefs(a: seq<string>, b: seq<string>, prefix: string)
    ensures HasRef(a + b, prefix) <==> HasRef(a, prefix) || HasRef(b, prefix)
  {
    var s := a + b;
    assert forall i | 0 <= i < |a| :: s[i] == a[i];
    assert forall i | 0 <= i < |b| :: s[|a| + i] == b[i];
    if i :| 0 <= i < |s| && HasPrefix(s[i], prefix) {
      assert i < |a| || HasPrefix(b[i - |a|], prefix);
    }
  }

  /** Results are kept under descriptors only, never under the empty text. */
  lemma {:induction false} ResultsNamed(events: seq<Event>)
    ensures "" !in LatestResults(events)
  {
    if events != [] {
      ResultsNamed(events[..|events| - 1]);
    }
  }

  /** Whether the group is found by the results of its descriptor. */
  predicate Found(events: seq<Event>, k: string) {
    GroupName(TaskDescriptorEvents(events), k) == Some(k) && k in LatestResults(events)
  }

  lemma EffectiveIs(events: seq<Event>, k: string)
    requires k in Groups(TaskDescriptorEvents(events))
    ensures var g := Groups(TaskDescriptorEvents(events))[k];
      Effective(events, k) == if Found(events, k) then Laid(g, LatestResults(events)[k]) else g
  {
    var some := TaskDescriptorEvents(events);
    GroupNamed(some, k);
    GroupNameFrom(some, k);
    ResultsNamed(events);
  }

  /**
   * The latest result of the descriptor is laid over its group, provided that the group's first reference names the
   * descriptor.
   */
  lemma EffectiveMeaning(events: seq<Event>, k: string, r: string)
    requires k in Groups(TaskDescriptorEvents(events))
    ensures var groups, results, e := Groups(TaskDescriptorEvents(events)), LatestResults(events), Effective(events, k);
      && e.id == groups[k].id && e.at == groups[k].at && e.detail == groups[k].detail
      && e.status == (if Found(events, k) && results[k].status != "" then results[k].status else groups[k].status)
      && e.agentRun == (if Found(events, k) && results[k].agentRun != "" then results[k].agentRun else groups[k].agentRun)
      && (r in e.refs <==> Contributed(TaskDescriptorEvents(events), k, r) || (Found(events, k) && r in results[k].refs))
  {
    var some := TaskDescriptorEvents(events);
    EffectiveIs(events, k);
    GroupRefs(some, k, r);
    if Found(events, k) {
      MergedRefs(Groups(some)[k].refs, LatestResults(events)[k].refs, r);
    }
  }

  // ---------------------------------------------------------------- the newest events, by their fields

  /** The descriptor an event is grouped under: what its first reference says, or its own id. */
  lemma SlotNamed(e: Event, k: string)
    ensures Slot(Grouping, e) == Some(k) <==> RefValue(e.refs, DESCRIPTOR) == k != "" || (RefValue(e.refs, DESCRIPTOR) == "" && e.id == k)
    ensures Slot(Results, e) == Some(k) <==> e.kind == TaskResult && RefValue(e.refs, DESCRIPTOR) == k != ""
  {
  }

  /** A group holds one of its events, up to the references, and none of them has a greater time, or the same and a greater id. */
  lemma GroupNewest(events: seq<Event>, k: string, e: Event)
    requires k in Groups(events) && e in events
    requires RefValue(e.refs, DESCRIPTOR) == k != "" || (RefValue(e.refs, DESCRIPTOR) == "" && e.id == k)
    ensures var g := Groups(events)[k];
      && (e.at < g.at || (e.at == g.at && (e.id == g.id || Less(e.id, g.id))))
      && exists f | f in events ::
           g == f.(refs := g.refs) && (RefValue(f.refs, DESCRIPTOR) == k || (RefValue(f.refs, DESCRIPTOR) == "" && f.id == k))
  {
    GroupIsLatest(events, k);
    SlotNamed(e, k);
    var i :| 0 <= i < |events| && Slot(Grouping, events[i]) == Some(k)
             && Groups(events)[k] == events[i].(refs := Groups(events)[k].refs) && Tops(Grouping, events, k, events[i]);
    SlotNamed(events[i], k);
    LessTotal(e.id, events[i].id);
  }

  /** A result is kept exactly if there is one, and none of its descriptor has a greater time, or the same and a greater id. */
  lemma ResultNewest(events: seq<Event>, k: string, e: Event)
    requires e in events && e.kind == TaskResult && RefValue(e.refs, DESCRIPTOR) == k != ""
    ensures k in LatestResults(events)
    ensures var r := LatestResults(events)[k];
      && r in events && r.kind == TaskResult && RefValue(r.refs, DESCRIPTOR) == k
      && (e.at < r.at || (e.at == r.at && (e.id == r.id || Less(e.id, r.id))))
  {
    ResultIsLatest(events, k);
    SlotNamed(e, k);
    SlotNamed(LatestResults(events)[k], k);
    LessTotal(e.id, LatestResults(events)[k].id);
  }

  /** `d` is the newest descriptor event that names `k`, and no event without a name has `k` for its id. */
  ghost predicate NewestDescriptor(events: seq<Event>, k: string, d: Event) {
    && k != "" && d in events && d.kind == TaskDescriptor && RefValue(d.refs, DESCRIPTOR) == k
    && forall e | e in events && e.kind == TaskDescriptor ::
         && (RefValue(e.refs, DESCRIPTOR) == k ==> e == d || e.at < d.at || (e.at == d.at && Less(e.id, d.id)))
         && (RefValue(e.refs, DESCRIPTOR) == "" ==> e.id != k)
  }

  /** `r` is the newest result of `k`, if it has any. */
  ghost predicate NewestResult(events: seq<Event>, k: string, r: Option<Event>) {
    && (r.Some? ==> r.value in events && r.value.kind == TaskResult && RefValue(r.value.refs, DESCRIPTOR) == k)
    && forall e | e in events && e.kind == TaskResult && RefValue(e.refs, DESCRIPTOR) == k ::
         r.Some? && (e == r.value || e.at < r.value.at || (e.at == r.value.at && Less(e.id, r.value.id)))
  }

  lemma NewestGroup(events: seq<Event>, k: string, d: Event)
    requires NewestDescriptor(events, k, d)
    ensures k in Groups(TaskDescriptorEvents(events)) && GroupName(TaskDescriptorEvents(events), k) == Some(k)
    ensures var g := Groups(TaskDescriptorEvents(events))[k]; g == d.(refs := g.refs)
  {
    var some := TaskDescriptorEvents(events);
    forall e ensures e in some <==> e in events && e.kind == TaskDescriptor {
      DescriptorEvents(events, e);
    }
    forall e | e in some && Slot(Grouping, e) == Some(k) ensures RefValue(e.refs, DESCRIPTOR) == k {
      SlotNamed(e, k);
    }
    assert Slot(Grouping, d) == Some(k);
    GroupIsLatest(some, k);
    var i :| 0 <= i < |some| && Slot(Grouping, some[i]) == Some(k)
             && Groups(some)[k] == some[i].(refs := Groups(some)[k].refs) && Tops(Grouping, some, k, some[i]);
    assert some[i] in some;
    assert !Later(d, some[i]);
    ValuedRef(d.refs, DESCRIPTOR);
    GroupNameFrom(some, k);
  }

  lemma NewestKept(events: seq<Event>, k: string, r: Option<Event>)
    requires NewestResult(events, k, r) && k != ""
    ensures if r.Some? then k in LatestResults(events) && LatestResults(events)[k] == r.value else k !in LatestResults(events)
  {
    ResultIsLatest(events, k);
    if k in LatestResults(events) {
      var kept := LatestResults(events)[k];
      SlotNamed(kept, k);
      ResultNewest(events, k, kept);
    }
    if r.Some? {
      ResultNewest(events, k, r.value);
      LessIrreflexive(r.value.id);
      LessAsymmetric(r.value.id, LatestResults(events)[k].id);
    }
  }

  /**
   * What the folding returns for a descriptor: identity and time of its newest descriptor event, and status and agent
   * of its newest result, each unless that is empty.
   */
  lemma EffectiveNewest(events: seq<Event>, out: seq<Event>, k: string, d: Event, r: Option<Event>)
    requires Enumerates(EffectiveAll(events), out) && NewestDescriptor(events, k, d) && NewestResult(events, k, r)
    ensures exists i | 0 <= i < |out| ::
      && out[i].id == d.id && out[i].at == d.at && out[i].kind == d.kind && out[i].detail == d.detail
      && out[i].status == (if r.Some? && r.value.status != "" then r.value.status else d.status)
      && out[i].agentRun == (if r.Some? && r.value.agentRun != "" then r.value.agentRun else d.agentRun)
  {
    NewestGroup(events, k, d);
    NewestKept(events, k, r);
    EffectiveIs(events, k);
    var all := EffectiveAll(events);
    assert all[k] == Effective(events, k);
    EntryAmong(all, out, k);
  }

  lemma EntryAmong(m: map<string, Event>, out: seq<Event>, k: string)
    requires Enumerates(m, out) && k in m
    ensures exists i :: 0 <= i < |out| && out[i] == m[k]
  {
    var keys: seq<string> :| multiset(keys) == multiset(m.Keys) && Entries(m, keys, out);
    assert k in multiset(keys);
    var i :| 0 <= i < |keys| && keys[i] == k;
  }

  // ---------------------------------------------------------------- the order of the ledger does not show

  ghost predicate SameEvents(a: seq<Event>, b: seq<Event>) {
    forall e :: e in a <==> e in b
  }

  /** No two different events share both time and id. */
  ghost predicate Stamped(events: seq<Event>) {
    forall i, j | 0 <= i < |events| && 0 <= j < |events| && events[i].at == events[j].at && events[i].id == events[j].id ::
      events[i] == events[j]
  }

  lemma TopsSame(p: Purpose, a: seq<Event>, b: seq<Event>, k: string, e: Event, f: Event)
    requires SameEvents(a, b) && Stamped(a)
    requires e in a && Slot(p, e) == Some(k) && Tops(p, a, k, e)
    requires f in b && Slot(p, f) == Some(k) && Tops(p, b, k, f)
    ensures e == f
  {
    assert e in b && f in a;
    LessTotal(e.id, f.id);
  }

  lemma LatestSame(p: Purpose, a: seq<Event>, b: seq<Event>, k: string, g: Event, h: Event)
    requires SameEvents(a, b) && Stamped(a) && Latest(p, a, k, g) && Latest(p, b, k, h)
    ensures g == h.(refs := g.refs)
  {
    var i :| 0 <= i < |a| && Slot(p, a[i]) == Some(k) && g == a[i].(refs := g.refs) && Tops(p, a, k, a[i]);
    var j :| 0 <= j < |b| && Slot(p, b[j]) == Some(k) && h == b[j].(refs := h.refs) && Tops(p, b, k, b[j]);
    TopsSame(p, a, b, k, a[i], b[j]);
  }

  lemma SlotsSame(p: Purpose, a: seq<Event>, b: seq<Event>, k: string)
    requires SameEvents(a, b)
    ensures Occupied(p, a, k) ==> Occupied(p, b, k)
  {
    if i :| 0 <= i < |a| && Slot(p, a[i]) == Some(k) {
      assert a[i] in b;
    }
  }

  lemma ContributedSame(a: seq<Event>, b: seq<Event>, k: string, r: string)
    requires SameEvents(a, b)
    ensures Contributed(a, k, r) ==> Contributed(b, k, r)
  {
    if i :| 0 <= i < |a| && Slot(Grouping, a[i]) == Some(k) && r in a[i].refs {
      assert a[i] in b;
    }
  }

  lemma ResultsSame(a: seq<Event>, b: seq<Event>, k: string)
    requires SameEvents(a, b) && Stamped(a)
    ensures k in LatestResults(a) <==> k in LatestResults(b)
    ensures k in LatestResults(a) ==> LatestResults(a)[k] == LatestResults(b)[k]
  {
    ResultIsLatest(a, k);
    ResultIsLatest(b, k);
    SlotsSame(Results, a, b, k);
    SlotsSame(Results, b, a, k);
    if k in LatestResults(a) {
      TopsSame(Results, a, b, k, LatestResults(a)[k], LatestResults(b)[k]);
    }
  }

  /** Groups of the same events agree, but for the order of their references. */
  lemma GroupsSame(a: seq<Event>, b: seq<Event>, k: string)
    requires SameEvents(a, b) && Stamped(a)
    ensures k in Groups(a) <==> k in Groups(b)
    ensures k in Groups(a) ==> Alike(Groups(a)[k], Groups(b)[k])
  {
    GroupIsLatest(a, k);
    GroupIsLatest(b, k);
    SlotsSame(Grouping, a, b, k);
    SlotsSame(Grouping, b, a, k);
    if k in Groups(a) {
      LatestSame(Grouping, a, b, k, Groups(a)[k], Groups(b)[k]);
      forall r ensures r in Groups(a)[k].refs <==> r in Groups(b)[k].refs {
        GroupRefs(a, k, r);
        GroupRefs(b, k, r);
        ContributedSame(a, b, k, r);
        ContributedSame(b, a, k, r);
      }
    }
  }

  /** Equal but for the order of references. */
  ghost predicate Alike(x: Event, y: Event) {
    x == y.(refs := x.refs) && forall r :: r in x.refs <==> r in y.refs
  }

  lemma DescriptorsSame(a: seq<Event>, b: seq<Event>)
    requires SameEvents(a, b) && Stamped(a)
    ensures SameEvents(TaskDescriptorEvents(a), TaskDescriptorEvents(b)) && Stamped(TaskDescriptorEvents(a))
  {
    var x, y := TaskDescriptorEvents(a), TaskDescriptorEvents(b);
    forall e ensures e in x <==> e in y {
      DescriptorEvents(a, e);
      DescriptorEvents(b, e);
    }
    forall i, j | 0 <= i < |x| && 0 <= j < |x| && x[i].at == x[j].at && x[i].id == x[j].id ensures x[i] == x[j] {
      DescriptorEvents(a, x[i]);
      DescriptorEvents(a, x[j]);
    }
  }

  /** A blank reference in the slot: the first descriptor reference of one of its events has no value. */
  ghost predicate BlankIn(events: seq<Event>, k: string) {
    exists i | 0 <= i < |events| :: Refers(events[i], k) && RefValue(events[i].refs, DESCRIPTOR) == ""
  }

  /** An event of the slot names the descriptor. */
  ghost predicate NamedIn(events: seq<Event>, k: string) {
    exists i | 0 <= i < |events| :: Refers(events[i], k) && RefValue(events[i].refs, DESCRIPTOR) == k != ""
  }

  lemma InSame(a: seq<Event>, b: seq<Event>, k: string)
    requires SameEvents(a, b)
    ensures (BlankIn(a, k) ==> BlankIn(b, k)) && (NamedIn(a, k) ==> NamedIn(b, k))
  {
    if i :| 0 <= i < |a| && Refers(a[i], k) && RefValue(a[i].refs, DESCRIPTOR) == "" {
      assert a[i] in b;
    }
    if i :| 0 <= i < |a| && Refers(a[i], k) && RefValue(a[i].refs, DESCRIPTOR) == k != "" {
      assert a[i] in b;
    }
  }

  /** If a slot does not hold both kinds, what it is found under does not depend on order. */
  lemma NameSettled(events: seq<Event>, k: string)
    requires !(BlankIn(events, k) && NamedIn(events, k)) && k != ""
    ensures GroupName(events, k) == Some(k) <==> NamedIn(events, k)
  {
    GroupNameFrom(events, k);
  }

  lemma FoundSame(a: seq<Event>, b: seq<Event>, k: string)
    requires SameEvents(a, b) && Stamped(a)
    requires !(BlankIn(TaskDescriptorEvents(a), k) && NamedIn(TaskDescriptorEvents(a), k))
    ensures Found(a, k) <==> Found(b, k)
  {
    var x, y := TaskDescriptorEvents(a), TaskDescriptorEvents(b);
    DescriptorsSame(a, b);
    ResultsSame(a, b, k);
    ResultsNamed(a);
    if k != "" {
      InSame(x, y, k);
      InSame(y, x, k);
      NameSettled(x, k);
      NameSettled(y, k);
    }
  }

  /**
   * Any two ledgers with the same events agree on a slot, up to the order of references, if it does not hold both a
   * blank reference and a named one.
   */
  lemma OrderIndependent(a: seq<Event>, b: seq<Event>, k: string)
    requires SameEvents(a, b) && Stamped(a)
    requires !(BlankIn(TaskDescriptorEvents(a), k) && NamedIn(TaskDescriptorEvents(a), k))
    ensures k in Groups(TaskDescriptorEvents(a)) <==> k in Groups(TaskDescriptorEvents(b))
    ensures k in Groups(TaskDescriptorEvents(a)) ==> Alike(Effective(a, k), Effective(b, k))
  {
    var x, y := TaskDescriptorEvents(a), TaskDescriptorEvents(b);
    DescriptorsSame(a, b);
    GroupsSame(x, y, k);
    if k in Groups(x) {
      ResultsSame(a, b, k);
      FoundSame(a, b, k);
      EffectiveIs(a, k);
      EffectiveIs(b, k);
      if Found(a, k) {
        LaidAlike(Groups(x)[k], Groups(y)[k], LatestResults(a)[k]);
      }
    }
  }

  lemma LaidAlike(g: Event, h: Event, r: Event)
    requires Alike(g, h)
    ensures Alike(Laid(g, r), Laid(h, r))
  {
    forall ref ensures ref in Laid(g, r).refs <==> ref in Laid(h, r).refs {
      MergedRefs(g.refs, r.refs, ref);
      MergedRefs(h.refs, r.refs, ref);
    }
  }

  /** A result says something its group does not. */
  ghost predicate Changes(g: Event, r: Event) {
    || (r.status != "" && r.status != g.status)
    || (r.agentRun != "" && r.agentRun != g.agentRun)
    || exists ref :: ref in r.refs && ref !in g.refs
  }

  lemma LaidChanges(g: Event, r: Event)
    ensures Alike(Laid(g, r), g) <==> !Changes(g, r)
  {
    forall ref ensures ref in Laid(g, r).refs <==> ref in g.refs || ref in r.refs {
      MergedRefs(g.refs, r.refs, ref);
    }
  }

  lemma {:induction false} DescriptorsBehind(e: Event, rest: seq<Event>)
    ensures TaskDescriptorEvents([e] + rest) == (if e.kind == TaskDescriptor then [e] else []) + TaskDescriptorEvents(rest)
  {
    var s := [e] + rest;
    if rest == [] {
      assert s[..0] == [] && s[0] == e;
    } else {
      assert s[..|s| - 1] == [e] + rest[..|rest| - 1];
      DescriptorsBehind(e, rest[..|rest| - 1]);
    }
  }

  lemma {:induction false} NameBehind(e: Event, rest: seq<Event>, k: string)
    requires Refers(e, k)
    ensures GroupName([e] + rest, k) == Some(RefValue(e.refs, DESCRIPTOR))
  {
    var s := [e] + rest;
    if rest == [] {
      assert s[..0] == [] && s[0] == e;
    } else {
      assert s[..|s| - 1] == [e] + rest[..|rest| - 1];
      NameBehind(e, rest[..|rest| - 1], k);
    }
  }

  /** The same events with the one at `i` first. */
  function Fronted(events: seq<Event>, i: nat): seq<Event>
    requires i < |events|
  {
    [events[i]] + (events[..i] + events[i + 1..])
  }

  lemma FrontedSame(events: seq<Event>, i: nat)
    requires i < |events|
    ensures multiset(Fronted(events, i)) == multiset(events) && SameEvents(events, Fronted(events, i))
  {
    assert events == events[..i] + [events[i]] + events[i + 1..];
    assert multiset(Fronted(events, i)) == multiset(events);
    forall e ensures e in events <==> e in Fronted(events, i) {
      assert e in events <==> e in multiset(events);
      assert e in Fronted(events, i) <==> e in multiset(Fronted(events, i));
    }
  }

  /** Two orders of a ledger that disagree on a slot. */
  ghost predicate Disagree(a: seq<Event>, b: seq<Event>, k: string) {
    && k in Groups(TaskDescriptorEvents(a)) && k in Groups(TaskDescriptorEvents(b))
    && !Alike(Effective(a, k), Effective(b, k))
  }

  /** Exactly when the order of the ledger shows on a slot: it holds both kinds, and there is a result to miss. */
  ghost predicate OrderSensitive(events: seq<Event>, k: string) {
    var some := TaskDescriptorEvents(events);
    && BlankIn(some, k) && NamedIn(some, k) && k in Groups(some)
    && k in LatestResults(events) && Changes(Groups(some)[k], LatestResults(events)[k])
  }

  lemma Insensitive(a: seq<Event>, b: seq<Event>, k: string)
    requires SameEvents(a, b) && Stamped(a) && !OrderSensitive(a, k)
    ensures !Disagree(a, b, k)
  {
    var x, y := TaskDescriptorEvents(a), TaskDescriptorEvents(b);
    if !(BlankIn(x, k) && NamedIn(x, k)) {
      OrderIndependent(a, b, k);
    } else if k in Groups(x) && k in Groups(y) {
      DescriptorsSame(a, b);
      GroupsSame(x, y, k);
      ResultsSame(a, b, k);
      EffectiveIs(a, k);
      EffectiveIs(b, k);
      if k in LatestResults(a) {
        var r := LatestResults(a)[k];
        LaidChanges(Groups(x)[k], r);
        LaidAlike(Groups(x)[k], Groups(y)[k], r);
      }
    }
  }

  /** Where a result has something to say, finding it or missing it shows. */
  lemma FoundShows(a: seq<Event>, b: seq<Event>, k: string)
    requires SameEvents(a, b) && Stamped(a) && OrderSensitive(a, k) && Found(a, k) != Found(b, k)
    ensures Disagree(a, b, k)
  {
    var x, y, r := TaskDescriptorEvents(a), TaskDescriptorEvents(b), LatestResults(a)[k];
    DescriptorsSame(a, b);
    GroupsSame(x, y, k);
    ResultsSame(a, b, k);
    EffectiveIs(a, k);
    EffectiveIs(b, k);
    LaidChanges(Groups(x)[k], r);
    LaidAlike(Groups(x)[k], Groups(y)[k], r);
  }

  lemma NameOfFronted(a: seq<Event>, i: nat, k: string)
    requires i < |a| && a[i].kind == TaskDescriptor && Refers(a[i], k)
    ensures GroupName(TaskDescriptorEvents(Fronted(a, i)), k) == Some(RefValue(a[i].refs, DESCRIPTOR))
  {
    var rest := a[..i] + a[i + 1..];
    DescriptorsBehind(a[i], rest);
    NameBehind(a[i], TaskDescriptorEvents(rest), k);
  }

  /** Bringing an event of the other kind to the front makes the result found, or missed. */
  lemma Sensitive(a: seq<Event>, k: string) returns (b: seq<Event>)
    requires Stamped(a) && OrderSensitive(a, k)
    ensures multiset(b) == multiset(a) && Disagree(a, b, k)
  {
    var e := OtherKind(TaskDescriptorEvents(a), k);
    DescriptorEvents(a, e);
    var i :| 0 <= i < |a| && a[i] == e;
    b := Fronted(a, i);
    FrontedSame(a, i);
    NameOfFronted(a, i, k);
    ResultsSame(a, b, k);
    FoundShows(a, b, k);
  }

  lemma OtherKind(events: seq<Event>, k: string) returns (e: Event)
    requires BlankIn(events, k) && NamedIn(events, k)
    ensures e in events && Refers(e, k) && k != ""
    ensures RefValue(e.refs, DESCRIPTOR) == k <==> GroupName(events, k) != Some(k)
  {
    var i :| 0 <= i < |events| && Refers(events[i], k) && RefValue(events[i].refs, DESCRIPTOR) == "";
    var j :| 0 <= j < |events| && Refers(events[j], k) && RefValue(events[j].refs, DESCRIPTOR) == k != "";
    e := if GroupName(events, k) == Some(k) then events[i] else events[j];
  }

  /** Some order of the same events disagrees on a slot if and only if the slot is sensitive. */
  lemma OrderShowsIff(a: seq<Event>, k: string)
    requires Stamped(a)
    ensures (exists b :: multiset(b) == multiset(a) && Disagree(a, b, k)) <==> OrderSensitive(a, k)
  {
    if OrderSensitive(a, k) {
      var b := Sensitive(a, k);
    } else {
      forall b | multiset(b) == multiset(a) ensures !Disagree(a, b, k) {
        assert forall e :: e in a <==> e in multiset(a);
        assert forall e :: e in b <==> e in multiset(b);
        Insensitive(a, b, k);
      }
    }
  }

  /** A ledger whose descriptor events all name their descriptor is sensitive nowhere. */
  lemma CarriedInsensitive(events: seq<Event>, k: string)
    requires Carried(TaskDescriptorEvents(events))
    ensures !BlankIn(TaskDescriptorEvents(events), k) && !OrderSensitive(events, k)
  {
  }

  // A slot with both kinds: a blank descriptor reference hides the ones behind it.

  const BLANK := Event(TaskDescriptor, "x", "codex", 1, "open", "", [DESCRIPTOR], "")
  const NAMED := Event(TaskDescriptor, "y", "codex", 2, "open", "", [DESCRIPTOR + "x"], "")
  const DONE := Event(TaskResult, "z", "codex", 3, "done", "", [DESCRIPTOR + "x"], "")

  lemma TwoEvents(first: Event, second: Event, k: string)
    requires Slot(Grouping, first) == Slot(Grouping, second) == Some(k)
    ensures k in Groups([first, second]) && Groups([first, second])[k].refs == Unique(Unique(first.refs) + second.refs)
    ensures Groups([first, second])[k].status in {first.status, second.status}
  {
    assert [first, second][..1] == [first] && [first][..0] == [];
    assert Groups([first]) == map[k := first.(refs := Unique(first.refs))];
  }

  lemma TwoAndResult(first: Event, second: Event, done: Event, k: string)
    requires first.kind == second.kind == TaskDescriptor && done.kind == TaskResult && RefValue(done.refs, DESCRIPTOR) == k != ""
    ensures TaskDescriptorEvents([first, second, done]) == [first, second]
    ensures LatestResults([first, second, done]) == map[k := done]
  {
    var events := [first, second, done];
    assert events[..2] == [first, second] && [first, second][..1] == [first] && [first][..0] == [];
    assert TaskDescriptorEvents([first]) == [] + [first];
    assert LatestResults([first]) == map[] && LatestResults([first, second]) == map[];
  }

  lemma BlankRefs()
    ensures RefValue(BLANK.refs, DESCRIPTOR) == "" && HasRef(BLANK.refs, DESCRIPTOR)
    ensures RefValue(NAMED.refs, DESCRIPTOR) == "x" && HasRef(NAMED.refs, DESCRIPTOR)
  {
    var ref := DESCRIPTOR + "x";
    assert ref[|DESCRIPTOR|..] == "x" && ref[..|DESCRIPTOR|] == DESCRIPTOR;
    assert DESCRIPTOR[|DESCRIPTOR|..] == "" && DESCRIPTOR[..|DESCRIPTOR|] == DESCRIPTOR;
    assert HasPrefix(BLANK.refs[0], DESCRIPTOR) && HasPrefix(NAMED.refs[0], DESCRIPTOR);
  }

  /** The first of two events names their group. */
  lemma FirstNames(first: seq<string>, second: seq<string>)
    requires HasRef(first, DESCRIPTOR)
    ensures RefValue(Unique(Unique(first) + second), DESCRIPTOR) == RefValue(first, DESCRIPTOR)
  {
    UniqueRefValue(first, DESCRIPTOR);
    RefValueConcat(Unique(first), second, DESCRIPTOR);
    UniqueRefValue(Unique(first) + second, DESCRIPTOR);
  }

  lemma ResultOfTwo(first: Event, second: Event, done: Event, k: string)
    requires first.kind == second.kind == TaskDescriptor && done.kind == TaskResult && RefValue(done.refs, DESCRIPTOR) == k != ""
    requires Slot(Grouping, first) == Slot(Grouping, second) == Some(k) && HasRef(first.refs, DESCRIPTOR)
    requires done.status != "" && done.status !in {first.status, second.status}
    ensures var events := [first, second, done];
      k in Groups(TaskDescriptorEvents(events)) && (Effective(events, k).status == done.status <==> RefValue(first.refs, DESCRIPTOR) == k)
  {
    TwoEvents(first, second, k);
    TwoAndResult(first, second, done, k);
    FirstNames(first.refs, second.refs);
  }

  lemma ThreeEvents(a: Event, b: Event, c: Event)
    requires a.id != b.id && a.id != c.id && b.id != c.id
    ensures SameEvents([a, b, c], [b, a, c]) && Stamped([a, b, c])
  {
  }

  /** Two orders of the same three events, one of which misses the result. */
  lemma OrderShows()
    ensures SameEvents([BLANK, NAMED, DONE], [NAMED, BLANK, DONE]) && Stamped([BLANK, NAMED, DONE])
    ensures "x" in Groups(TaskDescriptorEvents([BLANK, NAMED, DONE])) && "x" in Groups(TaskDescriptorEvents([NAMED, BLANK, DONE]))
    ensures !Alike(Effective([BLANK, NAMED, DONE], "x"), Effective([NAMED, BLANK, DONE], "x"))
  {
    assert BLANK.id == "x" && NAMED.id == "y" && DONE.id == "z";
    ThreeEvents(BLANK, NAMED, DONE);
    BlankRefs();
    ResultOfTwo(BLANK, NAMED, DONE, "x");
    ResultOfTwo(NAMED, BLANK, DONE, "x");
  }
}
