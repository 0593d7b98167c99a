/**
 * What the order of a ledger can make of a descriptor, whether or not time and id tell its events apart: exactly
 * which outcomes the folding of `StatusFold` has over all orders of the same events.
 */
module StatusOrders {
  import opened Dispatches
  import opened Order
  import opened StatusFold

  /** The event goes into this entry of the fold. */
  predicate Counts(p: Purpose, e: Event, k: string) {
    Slot(p, e) == Some(k) && (p == Grouping ==> e.kind == TaskDescriptor)
  }

  /** One of the latest events of the entry; there are several where time and id are the same. */
  ghost predicate Best(p: Purpose, events: seq<Event>, k: string, e: Event) {
    e in events && Counts(p, e, k) && forall f | f in events && Counts(p, f, k) :: !Later(f, e)
  }

  /**
   * A choice the order can make: the event `g` that stands for the group, the first event `x` with a descriptor
   * reference, and the result. If `x` is itself one of the latest, nothing but an event without a reference comes
   * before it and stands for the group in its place.
   */
  ghost predicate Choice(events: seq<Event>, k: string, g: Event, x: Option<Event>, r: Option<Event>) {
    && Best(Grouping, events, k, g)
    && (match x
        case None => forall e | e in events && e.kind == TaskDescriptor :: !Refers(e, k)
        case Some(y) => y in events && y.kind == TaskDescriptor && Refers(y, k)
                        && (y == g || !Refers(g, k) || !Best(Grouping, events, k, y)))
    && (match r
        case None => forall e | e in events :: !Counts(Results, e, k)
        case Some(q) => Best(Results, events, k, q))
  }

  /** What the choice makes of the descriptor. */
  function Outcome(refs: seq<string>, k: string, g: Event, x: Option<Event>, r: Option<Event>): Event {
    var group := g.(refs := refs);
    if r.Some? && x.Some? && RefValue(x.value.refs, DESCRIPTOR) == k then Laid(group, r.value) else group
  }

  // ---------------------------------------------------------------- the first of the latest

  lemma LaterThan(a: Event, b: Event, c: Event)
    requires Later(a, b) && !Later(c, b)
    ensures Later(a, c)
  {
    LessTotal(b.id, c.id);
    if Later(b, c) {
      LaterTransitive(a, b, c);
    }
  }

  /** Of the events of a slot, `i` is the place of the first that none is later than. */
  ghost predicate First(p: Purpose, events: seq<Event>, k: string, i: nat) {
    && i < |events| && Slot(p, events[i]) == Some(k)
    && (forall j | 0 <= j < i && Slot(p, events[j]) == Some(k) :: Later(events[i], events[j]))
    && (forall j | i <= j < |events| && Slot(p, events[j]) == Some(k) :: !Later(events[j], events[i]))
  }

  lemma FirstMore(p: Purpose, events: seq<Event>, k: string, i: nat, e: Event)
    requires First(p, events, k, i)
    ensures First(p, events + [e], k, if Slot(p, e) == Some(k) && Later(e, events[i]) then |events| else i)
  {
    var more := events + [e];
    assert forall j | 0 <= j < |events| :: more[j] == events[j];
    if Slot(p, e) == Some(k) && Later(e, events[i]) {
      forall j | 0 <= j < |events| && Slot(p, more[j]) == Some(k) ensures Later(e, more[j]) {
        if j < i {
          LaterTransitive(e, events[i], events[j]);
        } else {
          LaterThan(e, events[i], events[j]);
        }
      }
      LessIrreflexive(e.id);
    }
  }

  lemma FirstOnly(p: Purpose, events: seq<Event>, k: string, e: Event)
    requires Slot(p, e) == Some(k) && forall j | 0 <= j < |events| :: Slot(p, events[j]) != Some(k)
    ensures First(p, events + [e], k, |events|)
  {
    LessIrreflexive(e.id);
  }

  lemma NoneOccupied(p: Purpose, events: seq<Event>, k: string)
    requires !Occupied(p, events, k)
    ensures forall j | 0 <= j < |events| :: Slot(p, events[j]) != Some(k)
  {
  }

  /** That one stands for the group. */
  lemma {:induction false} GroupIsFirst(events: seq<Event>, k: string) returns (i: nat)
    requires k in Groups(events)
    ensures First(Grouping, events, k, i)
    ensures Groups(events)[k] == events[i].(refs := Groups(events)[k].refs)
  {
    var n := |events| - 1;
    var fewer, e := events[..n], events[n];
    assert events == fewer + [e];
    if k in Groups(fewer) {
      i := GroupIsFirst(fewer, k);
      FirstMore(Grouping, fewer, k, i, e);
      if Slot(Grouping, e) == Some(k) && Later(e, fewer[i]) {
        i := n;
      }
    } else {
      GroupIsLatest(fewer, k);
      NoneOccupied(Grouping, fewer, k);
      FirstOnly(Grouping, fewer, k, e);
      i := n;
    }
  }

  lemma {:induction false} ResultIsFirst(events: seq<Event>, k: string) returns (i: nat)
    requires k in LatestResults(events)
    ensures First(Results, events, k, i) && LatestResults(events)[k] == events[i]
  {
    var n := |events| - 1;
    var fewer, e := events[..n], events[n];
    assert events == fewer + [e];
    if k in LatestResults(fewer) {
      i := ResultIsFirst(fewer, k);
      FirstMore(Results, fewer, k, i, e);
      if Slot(Results, e) == Some(k) && Later(e, fewer[i]) {
        i := n;
      }
    } else {
      ResultIsLatest(fewer, k);
      NoneOccupied(Results, fewer, k);
      FirstOnly(Results, fewer, k, e);
      i := n;
    }
  }

  /** The first event with a descriptor reference names the group. */
  lemma {:induction false} NameIsFirst(events: seq<Event>, k: string) returns (i: nat)
    requires GroupName(events, k).Some?
    ensures i < |events| && Refers(events[i], k) && GroupName(events, k) == Some(RefValue(events[i].refs, DESCRIPTOR))
    ensures forall j | 0 <= j < i :: !Refers(events[j], k)
  {
    var n := |events| - 1;
    if GroupName(events[..n], k).Some? {
      i := NameIsFirst(events[..n], k);
      assert forall j | 0 <= j < n :: events[..n][j] == events[j];
    } else {
      GroupNameFrom(events[..n], k);
      assert forall j | 0 <= j < n :: events[..n][j] == events[j];
      i := n;
    }
  }

  // ---------------------------------------------------------------- every order makes a choice

  lemma NotBoth(a: Event, b: Event)
    requires Later(a, b)
    ensures !Later(b, a)
  {
    if Later(b, a) {
      LaterTransitive(a, b, a);
      LessIrreflexive(a.id);
    }
  }

  lemma FirstIsLatest(p: Purpose, events: seq<Event>, k: string, i: nat)
    requires First(p, events, k, i)
    ensures forall j | 0 <= j < |events| && Slot(p, events[j]) == Some(k) :: !Later(events[j], events[i])
  {
    forall j | 0 <= j < i && Slot(p, events[j]) == Some(k) ensures !Later(events[j], events[i]) {
      NotBoth(events[i], events[j]);
    }
  }

  lemma GroupChosen(b: seq<Event>, k: string, i: nat)
    requires First(Grouping, TaskDescriptorEvents(b), k, i)
    ensures Best(Grouping, b, k, TaskDescriptorEvents(b)[i])
  {
    var some := TaskDescriptorEvents(b);
    DescriptorEvents(b, some[i]);
    FirstIsLatest(Grouping, some, k, i);
    forall f | f in b && Counts(Grouping, f, k) ensures !Later(f, some[i]) {
      DescriptorEvents(b, f);
    }
  }

  /** The event that names the group, if any does. */
  lemma NameChosen(b: seq<Event>, k: string, i: nat) returns (x: Option<Event>)
    requires First(Grouping, TaskDescriptorEvents(b), k, i)
    ensures match x
      case None => GroupName(TaskDescriptorEvents(b), k).None? && forall e | e in b && e.kind == TaskDescriptor :: !Refers(e, k)
      case Some(y) =>
        && GroupName(TaskDescriptorEvents(b), k) == Some(RefValue(y.refs, DESCRIPTOR))
        && y in b && y.kind == TaskDescriptor && Refers(y, k)
        && var g := TaskDescriptorEvents(b)[i]; y == g || !Refers(g, k) || !Best(Grouping, b, k, y)
  {
    var some := TaskDescriptorEvents(b);
    if GroupName(some, k).None? {
      x := None;
      GroupNameFrom(some, k);
      forall e | e in b && e.kind == TaskDescriptor ensures !Refers(e, k) {
        DescriptorEvents(b, e);
      }
    } else {
      var j := NameIsFirst(some, k);
      x := Some(some[j]);
      DescriptorEvents(b, some[j]);
      DescriptorEvents(b, some[i]);
      assert j < i ==> Later(some[i], some[j]);
    }
  }

  lemma ResultChosen(b: seq<Event>, k: string) returns (r: Option<Event>)
    ensures r == if k in LatestResults(b) then Some(LatestResults(b)[k]) else None
    ensures match r
      case None => forall e | e in b :: !Counts(Results, e, k)
      case Some(q) => Best(Results, b, k, q)
  {
    ResultIsLatest(b, k);
    if k in LatestResults(b) {
      var i := ResultIsFirst(b, k);
      r := Some(b[i]);
      FirstIsLatest(Results, b, k, i);
    } else {
      r := None;
      NoneOccupied(Results, b, k);
    }
  }

  /** Whatever the order of a ledger, its outcome is that of a choice. */
  lemma ChoiceMade(b: seq<Event>, k: string) returns (g: Event, x: Option<Event>, r: Option<Event>)
    requires k in Groups(TaskDescriptorEvents(b))
    ensures Choice(b, k, g, x, r)
    ensures Effective(b, k) == Outcome(Groups(TaskDescriptorEvents(b))[k].refs, k, g, x, r)
  {
    var some := TaskDescriptorEvents(b);
    var i := GroupIsFirst(some, k);
    g := some[i];
    GroupChosen(b, k, i);
    x := NameChosen(b, k, i);
    r := ResultChosen(b, k);
    EffectiveIs(b, k);
  }

  /** Another order has the same choices. */
  lemma ChoiceSame(a: seq<Event>, b: seq<Event>, k: string, g: Event, x: Option<Event>, r: Option<Event>)
    requires SameEvents(a, b) && Choice(b, k, g, x, r)
    ensures Choice(a, k, g, x, r)
  {
    forall p, e ensures Best(p, a, k, e) <==> Best(p, b, k, e) {
    }
  }

  lemma OutcomesAlike(refs: seq<string>, refs': seq<string>, k: string, g: Event, x: Option<Event>, r: Option<Event>)
    requires forall ref :: ref in refs <==> ref in refs'
    ensures Alike(Outcome(refs, k, g, x, r), Outcome(refs', k, g, x, r))
  {
    if r.Some? {
      LaidAlike(g.(refs := refs), g.(refs := refs'), r.value);
    }
  }

  lemma RefsSame(a: seq<Event>, b: seq<Event>, k: string)
    requires SameEvents(a, b) && k in Groups(TaskDescriptorEvents(a))
    ensures k in Groups(TaskDescriptorEvents(b))
    ensures forall ref :: ref in Groups(TaskDescriptorEvents(a))[k].refs <==> ref in Groups(TaskDescriptorEvents(b))[k].refs
  {
    var x, y := TaskDescriptorEvents(a), TaskDescriptorEvents(b);
    forall e ensures e in x <==> e in y {
      DescriptorEvents(a, e);
      DescriptorEvents(b, e);
    }
    GroupIsLatest(x, k);
    GroupIsLatest(y, k);
    SlotsSame(Grouping, x, y, k);
    forall ref ensures ref in Groups(x)[k].refs <==> ref in Groups(y)[k].refs {
      GroupRefs(x, k, ref);
      GroupRefs(y, k, ref);
      ContributedSame(x, y, k, ref);
      ContributedSame(y, x, k, ref);
    }
  }

  // ---------------------------------------------------------------- every choice is made by an order

  /** At place `m` stands the result `q`, and no other of its descriptor before it. */
  ghost predicate Leads(events: seq<Event>, k: string, q: Event, m: int) {
    && 0 <= m < |events| && events[m] == q && Slot(Results, q) == Some(k)
    && forall j | 0 <= j < m :: Slot(Results, events[j]) != Some(k)
  }

  /** The result, if one is chosen, comes before any other of the descriptor. */
  ghost predicate Ahead(events: seq<Event>, k: string, r: Option<Event>) {
    r.Some? ==> exists m :: Leads(events, k, r.value, m)
  }

  lemma FirstLeads(events: seq<Event>, k: string, q: Event, i: nat, m: int)
    requires First(Results, events, k, i) && Leads(events, k, q, m) && !Later(events[i], q)
    ensures i == m
  {
  }

  lemma NoResult(b: seq<Event>, k: string)
    requires forall e | e in b :: !Counts(Results, e, k)
    ensures k !in LatestResults(b)
  {
    ResultIsLatest(b, k);
    forall i | 0 <= i < |b| ensures Slot(Results, b[i]) != Some(k) {
      assert !Counts(Results, b[i], k);
    }
  }

  lemma ResultAhead(b: seq<Event>, k: string, r: Option<Event>)
    requires Ahead(b, k, r)
    requires if r.Some? then Best(Results, b, k, r.value) else forall e | e in b :: !Counts(Results, e, k)
    ensures r == if k in LatestResults(b) then Some(LatestResults(b)[k]) else None
  {
    if r.None? {
      NoResult(b, k);
    } else {
      var m :| Leads(b, k, r.value, m);
      ResultIsLatest(b, k);
      assert Slot(Results, b[m]) == Some(k);
      var i := ResultIsFirst(b, k);
      assert b[i] in b && Counts(Results, b[i], k);
      FirstLeads(b, k, r.value, i, m);
    }
  }

  /** An event brought to the front; what was there comes second. */
  lemma Brought(c: seq<Event>, e: Event, k: string, r: Option<Event>) returns (d: seq<Event>, rest: seq<Event>)
    requires e in c && Slot(Results, e) != Some(k) && Ahead(c, k, r)
    ensures multiset(d) == multiset(c) && SameEvents(c, d) && Ahead(d, k, r)
    ensures d == [e] + rest && (c[0] != e ==> rest != [] && rest[0] == c[0])
  {
    var i :| 0 <= i < |c| && c[i] == e;
    d, rest := Fronted(c, i), c[..i] + c[i + 1..];
    FrontedSame(c, i);
    if r.Some? {
      var m :| Leads(c, k, r.value, m);
      LeadsBehind(c, d, k, r.value, m, i);
    }
  }

  lemma LeadsBehind(c: seq<Event>, d: seq<Event>, k: string, q: Event, m: int, i: nat)
    requires i < |c| && d == Fronted(c, i) && Leads(c, k, q, m) && Slot(Results, c[i]) != Some(k)
    ensures Leads(d, k, q, if i < m then m else m + 1)
  {
    assert d[0] == c[i];
    assert forall j | 0 <= j < i :: d[j + 1] == c[j];
    assert forall j | i < j < |c| :: d[j] == c[j];
    forall j | 0 < j < (if i < m then m else m + 1) ensures Slot(Results, d[j]) != Some(k) {
      if j <= i {
        assert d[j] == c[j - 1];
      }
    }
  }

  /** The chosen result in front, whatever else follows. */
  lemma ResultBrought(a: seq<Event>, k: string, r: Option<Event>) returns (b: seq<Event>)
    requires r.Some? ==> r.value in a && Slot(Results, r.value) == Some(k)
    ensures multiset(b) == multiset(a) && SameEvents(a, b) && Ahead(b, k, r)
  {
    if r.None? {
      b := a;
    } else {
      var i :| 0 <= i < |a| && a[i] == r.value;
      b := Fronted(a, i);
      FrontedSame(a, i);
      assert Leads(b, k, r.value, 0);
    }
  }

  /** What stands at the front of a ledger's descriptor events. */
  predicate Heads(events: seq<Event>, first: Event, second: Option<Event>) {
    var some := TaskDescriptorEvents(events);
    |some| > 0 && some[0] == first && (second.Some? ==> |some| > 1 && some[1] == second.value)
  }

  lemma HeadsOne(d: seq<Event>, e: Event, rest: seq<Event>)
    requires d == [e] + rest && e.kind == TaskDescriptor
    ensures Heads(d, e, None)
  {
    DescriptorsBehind(e, rest);
  }

  lemma HeadsTwo(d: seq<Event>, e: Event, rest: seq<Event>, f: Event)
    requires d == [e] + rest && e.kind == f.kind == TaskDescriptor && rest != [] && rest[0] == f
    ensures Heads(d, e, Some(f))
  {
    DescriptorsBehind(e, rest);
    DescriptorsBehind(f, rest[1..]);
    assert rest == [f] + rest[1..];
  }

  /** An order with these two descriptor events in front, and the result ahead of the others. */
  lemma Arranged(a: seq<Event>, k: string, first: Event, second: Option<Event>, r: Option<Event>) returns (b: seq<Event>)
    requires r.Some? ==> r.value in a && Slot(Results, r.value) == Some(k)
    requires first in a && first.kind == TaskDescriptor
    requires second.Some? ==> second.value in a && second.value.kind == TaskDescriptor && second.value != first
    ensures multiset(b) == multiset(a) && SameEvents(a, b) && Ahead(b, k, r) && Heads(b, first, second)
  {
    var c := ResultBrought(a, k, r);
    if second.Some? {
      var d, _ := Brought(c, second.value, k, r);
      var rest;
      b, rest := Brought(d, first, k, r);
      HeadsTwo(b, first, rest, second.value);
    } else {
      var rest;
      b, rest := Brought(c, first, k, r);
      HeadsOne(b, first, rest);
    }
  }

  /** In such an order the front event stands for the group, or the second if the first is not one of the latest. */
  lemma GroupHeaded(b: seq<Event>, k: string, first: Event, second: Option<Event>, g: Event)
    requires Heads(b, first, second) && Best(Grouping, b, k, g)
    requires first == g || (second == Some(g) && !Best(Grouping, b, k, first))
    ensures k in Groups(TaskDescriptorEvents(b))
    ensures Groups(TaskDescriptorEvents(b))[k] == g.(refs := Groups(TaskDescriptorEvents(b))[k].refs)
  {
    var some := TaskDescriptorEvents(b);
    var m := if first == g then 0 else 1;
    assert some[m] == g && Slot(Grouping, some[m]) == Some(k);
    GroupIsLatest(some, k);
    var i := GroupIsFirst(some, k);
    DescriptorEvents(b, some[i]);
    assert i > m ==> Later(some[i], some[m]);
    GroupChosen(b, k, i);
  }

  /** And the first of the two with a reference names it. */
  lemma NameHeaded(b: seq<Event>, k: string, first: Event, second: Option<Event>, y: Event)
    requires Heads(b, first, second) && Refers(y, k)
    requires first == y || (second == Some(y) && !Refers(first, k))
    ensures GroupName(TaskDescriptorEvents(b), k) == Some(RefValue(y.refs, DESCRIPTOR))
  {
    var some := TaskDescriptorEvents(b);
    var m := if first == y then 0 else 1;
    assert Refers(some[m], k);
    GroupNameFrom(some, k);
    var i := NameIsFirst(some, k);
    assert i == m;
  }

  lemma NeverNamed(b: seq<Event>, k: string)
    requires forall e | e in b && e.kind == TaskDescriptor :: !Refers(e, k)
    ensures GroupName(TaskDescriptorEvents(b), k).None?
  {
    var some := TaskDescriptorEvents(b);
    GroupNameFrom(some, k);
    forall i | 0 <= i < |some| ensures !Refers(some[i], k) {
      DescriptorEvents(b, some[i]);
    }
  }

  /** A choice names its two front events. */
  function Front(k: string, g: Event, x: Option<Event>): (Event, Option<Event>) {
    if x.None? || x.value == g then (g, None)
    else if Refers(g, k) then (x.value, Some(g))
    else (g, x)
  }

  lemma FrontChosen(b: seq<Event>, k: string, g: Event, x: Option<Event>, r: Option<Event>)
    requires Choice(b, k, g, x, r) && Heads(b, Front(k, g, x).0, Front(k, g, x).1) && Ahead(b, k, r)
    ensures k in Groups(TaskDescriptorEvents(b))
    ensures Effective(b, k) == Outcome(Groups(TaskDescriptorEvents(b))[k].refs, k, g, x, r)
  {
    var (first, second) := Front(k, g, x);
    GroupHeaded(b, k, first, second, g);
    if x.Some? {
      NameHeaded(b, k, first, second, x.value);
    } else {
      NeverNamed(b, k);
    }
    ResultAhead(b, k, r);
    EffectiveIs(b, k);
  }

  /** For every choice there is an order of the same events that makes it. */
  lemma ChoiceOrdered(a: seq<Event>, k: string, g: Event, x: Option<Event>, r: Option<Event>) returns (b: seq<Event>)
    requires Choice(a, k, g, x, r)
    ensures multiset(b) == multiset(a) && k in Groups(TaskDescriptorEvents(b))
    ensures Effective(b, k) == Outcome(Groups(TaskDescriptorEvents(b))[k].refs, k, g, x, r)
  {
    var (first, second) := Front(k, g, x);
    b := Arranged(a, k, first, second, r);
    ChoiceSame(b, a, k, g, x, r);
    FrontChosen(b, k, g, x, r);
  }

  // ---------------------------------------------------------------- exactly when order shows

  ghost predicate SameChoices(a: seq<Event>, k: string, refs: seq<string>) {
    forall g, x, r, g', x', r' | Choice(a, k, g, x, r) && Choice(a, k, g', x', r') ::
      Alike(Outcome(refs, k, g, x, r), Outcome(refs, k, g', x', r'))
  }

  ghost predicate OrderNeverShows(a: seq<Event>, k: string) {
    forall b | multiset(b) == multiset(a) :: !Disagree(a, b, k)
  }

  lemma SameFromMultiset(a: seq<Event>, b: seq<Event>)
    requires multiset(a) == multiset(b)
    ensures SameEvents(a, b)
  {
    forall e ensures e in a <==> e in b {
      assert e in a <==> e in multiset(a);
      assert e in b <==> e in multiset(b);
    }
  }

  lemma AlikeSame(x: Event, y: Event, z: Event)
    requires Alike(x, y) && Alike(x, z)
    ensures Alike(y, z) && Alike(y, x)
  {
  }

  /** The outcome of any order, compared over the references of `a`. */
  lemma OrderOutcome(a: seq<Event>, b: seq<Event>, k: string, refs: seq<string>)
    returns (g: Event, x: Option<Event>, r: Option<Event>)
    requires multiset(b) == multiset(a) && k in Groups(TaskDescriptorEvents(a))
    requires refs == Groups(TaskDescriptorEvents(a))[k].refs
    ensures k in Groups(TaskDescriptorEvents(b)) && Choice(a, k, g, x, r)
    ensures Alike(Effective(b, k), Outcome(refs, k, g, x, r))
  {
    SameFromMultiset(a, b);
    RefsSame(a, b, k);
    g, x, r := ChoiceMade(b, k);
    ChoiceSame(a, b, k, g, x, r);
    OutcomesAlike(Groups(TaskDescriptorEvents(b))[k].refs, refs, k, g, x, r);
  }

  /**
   * With ties or without: no order of the same events changes what becomes of a descriptor exactly if all choices
   * come out alike.
   */
  lemma OrderShowsExactly(a: seq<Event>, k: string, refs: seq<string>)
    requires k in Groups(TaskDescriptorEvents(a)) && refs == Groups(TaskDescriptorEvents(a))[k].refs
    ensures OrderNeverShows(a, k) <==> SameChoices(a, k, refs)
  {
    if SameChoices(a, k, refs) {
      var g, x, r := OrderOutcome(a, a, k, refs);
      forall b | multiset(b) == multiset(a) ensures !Disagree(a, b, k) {
        var g', x', r' := OrderOutcome(a, b, k, refs);
        AlikeThrough(Effective(a, k), Outcome(refs, k, g, x, r), Outcome(refs, k, g', x', r'), Effective(b, k));
      }
    }
    if OrderNeverShows(a, k) {
      forall g, x, r, g', x', r' | Choice(a, k, g, x, r) && Choice(a, k, g', x', r')
        ensures Alike(Outcome(refs, k, g, x, r), Outcome(refs, k, g', x', r'))
      {
        OutcomeMade(a, k, refs, g, x, r);
        OutcomeMade(a, k, refs, g', x', r');
        AlikeSame(Effective(a, k), Outcome(refs, k, g, x, r), Outcome(refs, k, g', x', r'));
      }
    }
  }

  lemma AlikeThrough(x: Event, y: Event, z: Event, w: Event)
    requires Alike(x, y) && Alike(y, z) && Alike(w, z)
    ensures Alike(x, w)
  {
  }

  lemma OutcomeMade(a: seq<Event>, k: string, refs: seq<string>, g: Event, x: Option<Event>, r: Option<Event>)
    requires k in Groups(TaskDescriptorEvents(a)) && refs == Groups(TaskDescriptorEvents(a))[k].refs
    requires OrderNeverShows(a, k) && Choice(a, k, g, x, r)
    ensures Alike(Effective(a, k), Outcome(refs, k, g, x, r))
  {
    var b := ChoiceOrdered(a, k, g, x, r);
    SameFromMultiset(a, b);
    RefsSame(a, b, k);
    assert !Disagree(a, b, k);
    OutcomesAlike(Groups(TaskDescriptorEvents(b))[k].refs, refs, k, g, x, r);
  }

  /** Any of the latest events can stand for the group. */
  lemma CanStand(a: seq<Event>, k: string, g: Event, r: Option<Event>) returns (x: Option<Event>)
    requires Best(Grouping, a, k, g)
    requires if r.Some? then Best(Results, a, k, r.value) else forall e | e in a :: !Counts(Results, e, k)
    ensures Choice(a, k, g, x, r)
  {
    if Refers(g, k) {
      x := Some(g);
    } else if y :| y in a && y.kind == TaskDescriptor && Refers(y, k) {
      x := Some(y);
    } else {
      x := None;
    }
  }

  /** Without a result, order shows exactly if two of the latest events differ in more than their references. */
  lemma TiesShow(a: seq<Event>, k: string)
    requires k in Groups(TaskDescriptorEvents(a)) && forall e | e in a :: !Counts(Results, e, k)
    ensures OrderNeverShows(a, k) <==>
      forall g, h | Best(Grouping, a, k, g) && Best(Grouping, a, k, h) :: g == h.(refs := g.refs)
  {
    var refs := Groups(TaskDescriptorEvents(a))[k].refs;
    OrderShowsExactly(a, k, refs);
    if SameChoices(a, k, refs) {
      forall g, h | Best(Grouping, a, k, g) && Best(Grouping, a, k, h) ensures g == h.(refs := g.refs) {
        var x := CanStand(a, k, g, None);
        var y := CanStand(a, k, h, None);
        assert Alike(Outcome(refs, k, g, x, None), Outcome(refs, k, h, y, None));
      }
    }
  }
}
