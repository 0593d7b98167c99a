/** The dispatch tree of a run, built from a flat list of dispatches. */
module DispatchTree {
  import opened Dispatches
  import opened Order

  /** What tree building reads of a dispatch record. */
  datatype Link = Link(id: Id, parent: Id)

  // ---------------------------------------------------------------- sorting siblings

  /** No element after another is smaller. */
  ghost predicate InOrder(s: seq<Id>) {
    forall a, b | 0 <= a < b < |s| :: !Less(s[b], s[a])
  }

  lemma NotLessTransitive(a: Id, b: Id, c: Id)
    requires !Less(b, a) && !Less(c, b)
    ensures !Less(c, a)
  {
    LessTotal(a, b);
    if Less(c, a) && a != b {
      LessTransitive(c, a, b);
    }
  }

  /** In order up to `i`, but for the element at `j`, which is not after any of those behind it. */
  ghost predicate Sinking(s: seq<Id>, j: nat, i: nat) {
    && j <= i < |s|
    && (forall a, b | 0 <= a < b <= i && a != j && b != j :: !Less(s[b], s[a]))
    && (forall b | j < b <= i :: !Less(s[b], s[j]))
  }

  lemma Sunk(s: seq<Id>, j: nat, i: nat)
    requires Sinking(s, j, i) && (j > 0 ==> !Less(s[j], s[j - 1]))
    ensures InOrder(s[..i + 1])
  {
    forall a, b | 0 <= a < b <= i ensures !Less(s[b], s[a]) {
      if b == j && a < j - 1 {
        NotLessTransitive(s[a], s[j - 1], s[j]);
      }
    }
  }

  lemma SinkStep(s: seq<Id>, j: nat, i: nat)
    requires Sinking(s, j, i) && j > 0 && Less(s[j], s[j - 1])
    ensures Sinking(s[j := s[j - 1]][j - 1 := s[j]], j - 1, i)
  {
    if Less(s[j - 1], s[j]) {
      LessTransitive(s[j], s[j - 1], s[j]);
      LessIrreflexive(s[j]);
    }
  }

  method SinkNode(nodes: seq<Id>, i: nat) returns (s: seq<Id>)
    requires 0 < i < |nodes| && InOrder(nodes[..i])
    ensures |s| == |nodes| && multiset(s) == multiset(nodes) && InOrder(s[..i + 1])
  {
    s := nodes;
    var j := i;
    while j > 0 && Less(s[j], s[j - 1])
      invariant |s| == |nodes| && multiset(s) == multiset(nodes)
      invariant Sinking(s, j, i)
    {
      SinkStep(s, j, i);
      s, j := s[j := s[j - 1]][j - 1 := s[j]], j - 1;
    }
    Sunk(s, j, i);
  }

  method SortNodes(nodes: seq<Id>) returns (s: seq<Id>)
    ensures multiset(s) == multiset(nodes) && InOrder(s)
  {
    s := nodes;
    var i := 1;
    while i < |s|
      invariant |s| == |nodes| && multiset(s) == multiset(nodes)
      invariant 1 <= i && InOrder(s[..if i <= |s| then i else |s|])
    {
      s := SinkNode(s, i);
      i := i + 1;
    }
    assert s[..|s|] == s;
  }

  /** A list with exactly these elements, each once. */
  ghost predicate Collects(s: seq<Id>, ids: set<Id>) {
    multiset(s) == multiset(ids)
  }

  /** Sorting such a list lists them in ascending order. */
  lemma SortedLists(s: seq<Id>, ids: set<Id>)
    requires Collects(s, ids) && InOrder(s)
    ensures Lists(s, ids)
  {
    forall a, b | 0 <= a < b < |s| ensures Less(s[a], s[b]) {
      if s[a] == s[b] {
        Twice(s, a, b);
        assert false;
      }
      LessTotal(s[a], s[b]);
    }
    forall x ensures x in Elements(s) <==> x in ids {
      assert x in s <==> x in multiset(s);
    }
  }

  lemma Twice(s: seq<Id>, a: nat, b: nat)
    requires a < b < |s| && s[a] == s[b]
    ensures multiset(s)[s[a]] >= 2
  {
    assert s == s[..b] + [s[b]] + s[b + 1..];
    assert s[..b][a] == s[a];
    assert s[a] in multiset(s[..b]);
  }

  // ---------------------------------------------------------------- who belongs where

  /** The parent recorded for each id; a repeated id keeps its last record. */
  function Parents(links: seq<Link>): map<Id, Id> {
    if links == [] then map[]
    else Parents(links[..|links| - 1])[links[|links| - 1].id := links[|links| - 1].parent]
  }

  /** With distinct ids the parents are the recorded ones, in whatever order they are listed. */
  lemma {:induction false} ParentsOfDistinct(links: seq<Link>, id: Id, parent: Id)
    requires forall i, j | 0 <= i < j < |links| :: links[i].id != links[j].id
    ensures id in Parents(links) && Parents(links)[id] == parent <==> Link(id, parent) in links
  {
    if links != [] {
      var n := |links| - 1;
      ParentsOfDistinct(links[..n], id, parent);
      assert links == links[..n] + [links[n]];
      assert forall i | 0 <= i < n :: links[..n][i].id != links[n].id;
    }
  }

  /** No parent, or a parent that is not in the run. */
  predicate IsRoot(parents: map<Id, Id>, id: Id) {
    id in parents && (parents[id] == "" || parents[id] !in parents)
  }

  function RootsAmong(parents: map<Id, Id>, ids: set<Id>): set<Id> {
    set id | id in ids && IsRoot(parents, id)
  }

  function ChildrenAmong(parents: map<Id, Id>, ids: set<Id>, p: Id): set<Id> {
    set id | id in ids && id in parents && !IsRoot(parents, id) && parents[id] == p
  }

  class Forest {
    /** The parent of every node, by id. */
    var parents: map<Id, Id>
    /** The child list of every node, by id. */
    var children: map<Id, seq<Id>>
    var roots: seq<Id>

    /** Indexes the nodes, hangs each on its parent in whatever order the map yields them, and sorts. */
    constructor (links: seq<Link>)
      ensures parents == Parents(links) && Shaped(parents, roots, children)
    {
      parents, children, roots := map[], map[], [];
      new;
      Index(links);
      Wire();
      SortAll();
    }

    method Index(links: seq<Link>)
      requires parents == map[] && children == map[]
      modifies this
      ensures parents == Parents(links) && roots == old(roots)
      ensures Bare(parents, children)
    {
      for i := 0 to |links|
        invariant parents == Parents(links[..i]) && roots == old(roots)
        invariant Bare(parents, children)
      {
        assert links[..i + 1][..i] == links[..i];
        parents, children := parents[links[i].id := links[i].parent], children[links[i].id := []];
      }
      assert links[..|links|] == links;
    }

    method Wire()
      requires roots == [] && Bare(parents, children)
      modifies this`children, this`roots
      ensures Wired(parents, roots, children, parents.Keys)
    {
      var todo := parents.Keys;
      ghost var done: set<Id> := {};
      NothingHung(parents, children);
      while todo != {}
        invariant Parted(parents, done, todo)
        invariant Wired(parents, roots, children, done)
      {
        var id :| id in todo;
        Hang(id, done);
        PartMore(parents, done, todo, id);
        todo, done := todo - {id}, done + {id};
      }
      assert done == parents.Keys;
    }

    method Hang(id: Id, ghost done: set<Id>)
      requires id in parents && id !in done && Wired(parents, roots, children, done)
      modifies this`children, this`roots
      ensures Wired(parents, roots, children, done + {id})
    {
      HangRoot(parents, roots, done, id);
      HangChild(parents, children, done, id);
      if IsRoot(parents, id) {
        roots := roots + [id];
      } else {
        var parent := parents[id];
        children := children[parent := children[parent] + [id]];
      }
    }

    method SortAll()
      requires Wired(parents, roots, children, parents.Keys)
      modifies this`children, this`roots
      ensures Shaped(parents, roots, children)
    {
      roots := SortNodes(roots);
      SortedLists(roots, RootsAmong(parents, parents.Keys));
      SortChildren();
    }

    method SortChildren()
      requires Wired(parents, roots, children, parents.Keys)
      modifies this`children
      ensures children.Keys == parents.Keys
      ensures AllListed(parents, children, parents.Keys)
    {
      var todo := parents.Keys;
      ghost var done: set<Id> := {};
      while todo != {}
        invariant done + todo == parents.Keys
        invariant children.Keys == parents.Keys && AllHung(parents, children, parents.Keys)
        invariant AllListed(parents, children, done)
      {
        var p :| p in todo;
        SortAt(p, done);
        todo, done := todo - {p}, done + {p};
      }
    }

    method SortAt(p: Id, ghost done: set<Id>)
      requires p in parents && done <= parents.Keys
      requires children.Keys == parents.Keys && AllHung(parents, children, parents.Keys) && AllListed(parents, children, done)
      modifies this`children
      ensures children.Keys == parents.Keys && AllHung(parents, children, parents.Keys)
      ensures AllListed(parents, children, done + {p})
    {
      assert Hung(parents, children, parents.Keys, p);
      var sorted := SortNodes(children[p]);
      SortOne(parents, children, p, sorted, done);
      children := children[p := sorted];
    }
  }

  /** Fresh nodes, without children. */
  ghost predicate Bare(parents: map<Id, Id>, children: map<Id, seq<Id>>) {
    children.Keys == parents.Keys && forall p | p in parents :: children[p] == []
  }

  ghost predicate Parted(parents: map<Id, Id>, done: set<Id>, todo: set<Id>) {
    done + todo == parents.Keys && done !! todo
  }

  lemma PartMore(parents: map<Id, Id>, done: set<Id>, todo: set<Id>, id: Id)
    requires Parted(parents, done, todo) && id in todo
    ensures Parted(parents, done + {id}, todo - {id})
  {
  }

  /** Of the nodes, those in `ids` have been hung on their parents or among the roots. */
  ghost predicate Wired(parents: map<Id, Id>, roots: seq<Id>, children: map<Id, seq<Id>>, ids: set<Id>) {
    children.Keys == parents.Keys && Collects(roots, RootsAmong(parents, ids)) && AllHung(parents, children, ids)
  }

  /** The child list of `p` holds those of `ids` that belong to it, each once. */
  ghost predicate Hung(parents: map<Id, Id>, children: map<Id, seq<Id>>, ids: set<Id>, p: Id) {
    p in children && Collects(children[p], ChildrenAmong(parents, ids, p))
  }

  /** The child list of `p` is complete and ascending. */
  ghost predicate Listed(parents: map<Id, Id>, children: map<Id, seq<Id>>, p: Id) {
    p in children && Lists(children[p], ChildrenAmong(parents, parents.Keys, p))
  }

  ghost predicate AllHung(parents: map<Id, Id>, children: map<Id, seq<Id>>, ids: set<Id>) {
    forall p | p in parents :: Hung(parents, children, ids, p)
  }

  ghost predicate AllListed(parents: map<Id, Id>, children: map<Id, seq<Id>>, done: set<Id>) {
    forall p | p in done :: Listed(parents, children, p)
  }

  lemma NothingHung(parents: map<Id, Id>, children: map<Id, seq<Id>>)
    requires Bare(parents, children)
    ensures Wired(parents, [], children, {})
  {
    assert RootsAmong(parents, {}) == {};
    forall p | p in parents ensures Hung(parents, children, {}, p) {
      assert ChildrenAmong(parents, {}, p) == {};
    }
  }

  lemma CollectOne(s: seq<Id>, ids: set<Id>, id: Id)
    requires Collects(s, ids) && id !in ids
    ensures Collects(s + [id], ids + {id})
  {
  }

  lemma HangRoot(parents: map<Id, Id>, roots: seq<Id>, done: set<Id>, id: Id)
    requires id in parents && id !in done && Collects(roots, RootsAmong(parents, done))
    ensures Collects(if IsRoot(parents, id) then roots + [id] else roots, RootsAmong(parents, done + {id}))
  {
    var now := RootsAmong(parents, done + {id});
    if IsRoot(parents, id) {
      assert now == RootsAmong(parents, done) + {id};
      CollectOne(roots, RootsAmong(parents, done), id);
    } else {
      assert now == RootsAmong(parents, done);
    }
  }

  lemma HangChild(parents: map<Id, Id>, children: map<Id, seq<Id>>, done: set<Id>, id: Id)
    requires id in parents && id !in done && children.Keys == parents.Keys && AllHung(parents, children, done)
    ensures var now := if IsRoot(parents, id) then children else children[parents[id] := children[parents[id]] + [id]];
      AllHung(parents, now, done + {id})
  {
    var now := if IsRoot(parents, id) then children else children[parents[id] := children[parents[id]] + [id]];
    forall p | p in parents ensures Hung(parents, now, done + {id}, p) {
      assert Hung(parents, children, done, p);
      if !IsRoot(parents, id) && parents[id] == p {
        assert ChildrenAmong(parents, done + {id}, p) == ChildrenAmong(parents, done, p) + {id};
        CollectOne(children[p], ChildrenAmong(parents, done, p), id);
      } else {
        assert ChildrenAmong(parents, done + {id}, p) == ChildrenAmong(parents, done, p);
      }
    }
  }

  lemma SortOne(parents: map<Id, Id>, children: map<Id, seq<Id>>, p: Id, sorted: seq<Id>, done: set<Id>)
    requires p in parents && done <= parents.Keys && AllHung(parents, children, parents.Keys) && AllListed(parents, children, done)
    requires Hung(parents, children, parents.Keys, p) && multiset(sorted) == multiset(children[p]) && InOrder(sorted)
    ensures AllHung(parents, children[p := sorted], parents.Keys) && AllListed(parents, children[p := sorted], done + {p})
  {
    var now := children[p := sorted];
    SortedLists(sorted, ChildrenAmong(parents, parents.Keys, p));
    forall q | q in parents ensures Hung(parents, now, parents.Keys, q) {
      assert Hung(parents, children, parents.Keys, q);
    }
    forall q | q in done + {p} ensures Listed(parents, now, q) {
      assert q != p ==> Listed(parents, children, q);
    }
  }

  /** Root and child lists hold exactly who belongs there, ascending. */
  ghost predicate Shaped(parents: map<Id, Id>, roots: seq<Id>, children: map<Id, seq<Id>>) {
    && Lists(roots, RootsAmong(parents, parents.Keys))
    && children.Keys == parents.Keys
    && forall p | p in parents :: Listed(parents, children, p)
  }

  /** The lists are determined by the recorded parents: neither input order nor map order shows. */
  lemma ShapeUnique(parents: map<Id, Id>, roots: seq<Id>, children: map<Id, seq<Id>>, roots': seq<Id>, children': map<Id, seq<Id>>)
    requires Shaped(parents, roots, children) && Shaped(parents, roots', children')
    ensures roots == roots' && children == children'
  {
    ListingUnique(roots, roots');
    forall p | p in parents ensures children[p] == children'[p] {
      assert Listed(parents, children, p) && Listed(parents, children', p);
      ListingUnique(children[p], children'[p]);
    }
  }

  // ---------------------------------------------------------------- the tree as a value

  /** A node without an id is the container for several roots, or for none. */
  datatype Tree = Tree(id: Option<Id>, kids: seq<Tree>)

  /** The structure below a node, followed at most once through each of `left`. */
  function Unroll(children: map<Id, seq<Id>>, id: Id, left: set<Id>): Tree
    decreases left, 0
  {
    Tree(Some(id), if id in left && id in children then UnrollAll(children, children[id], left - {id}) else [])
  }

  function UnrollAll(children: map<Id, seq<Id>>, ids: seq<Id>, left: set<Id>): (trees: seq<Tree>)
    ensures |trees| == |ids|
    ensures forall i | 0 <= i < |ids| :: trees[i] == Unroll(children, ids[i], left)
    decreases left, |ids| + 1
  {
    if ids == [] then [] else [Unroll(children, ids[0], left)] + UnrollAll(children, ids[1..], left)
  }

  function Whole(roots: seq<Id>, children: map<Id, seq<Id>>): Tree {
    if |roots| == 1 then Unroll(children, roots[0], children.Keys)
    else Tree(None, UnrollAll(children, roots, children.Keys))
  }

  /** How often an id occurs in a tree. */
  function Occurrences(t: Tree, x: Id): nat {
    (if t.id == Some(x) then 1 else 0) + OccurrencesIn(t.kids, x)
  }

  function OccurrencesIn(trees: seq<Tree>, x: Id): nat {
    if trees == [] then 0 else Occurrences(trees[0], x) + OccurrencesIn(trees[1..], x)
  }

  // ---------------------------------------------------------------- parent chains

  /** From `id`, following recorded parents reaches a root after exactly `n` steps. */
  predicate Chain(parents: map<Id, Id>, id: Id, n: nat)
    decreases n
  {
    && id in parents
    && if n == 0 then IsRoot(parents, id) else !IsRoot(parents, id) && Chain(parents, parents[id], n - 1)
  }

  ghost predicate Reaches(parents: map<Id, Id>, id: Id) {
    exists n: nat :: Chain(parents, id, n)
  }

  lemma {:induction false} DepthUnique(parents: map<Id, Id>, id: Id, n: nat, m: nat)
    requires Chain(parents, id, n) && Chain(parents, id, m)
    ensures n == m
    decreases n
  {
    if n > 0 && m > 0 {
      DepthUnique(parents, parents[id], n - 1, m - 1);
    }
  }

  /** The ancestor `k` steps up; a root has none, so the walk stays there. */
  function Up(parents: map<Id, Id>, id: Id, k: nat): Id
    decreases k
  {
    if k == 0 || id !in parents || IsRoot(parents, id) then id else Up(parents, parents[id], k - 1)
  }

  lemma {:induction false} UpChain(parents: map<Id, Id>, id: Id, n: nat, k: nat)
    requires Chain(parents, id, n) && k <= n
    ensures Chain(parents, Up(parents, id, k), n - k)
    ensures k < n ==> Up(parents, id, k + 1) == parents[Up(parents, id, k)]
    decreases k
  {
    if k > 0 {
      UpChain(parents, parents[id], n - 1, k - 1);
    }
  }

  // ---------------------------------------------------------------- every reachable dispatch, once

  /** All nodes at depth `d` or below are still left. */
  ghost predicate FreshBelow(parents: map<Id, Id>, left: set<Id>, d: nat) {
    forall y, m: nat | m >= d && Chain(parents, y, m) :: y in left
  }

  lemma FreshKids(parents: map<Id, Id>, left: set<Id>, d: nat, a: Id)
    requires FreshBelow(parents, left, d) && Chain(parents, a, d)
    ensures FreshBelow(parents, left - {a}, d + 1)
  {
    forall y, m: nat | m >= d + 1 && Chain(parents, y, m) ensures y in left - {a} {
      if y == a {
        DepthUnique(parents, a, d, m);
      }
    }
  }

  lemma KidChain(parents: map<Id, Id>, children: map<Id, seq<Id>>, a: Id, d: nat, c: Id)
    requires Chain(parents, a, d) && Listed(parents, children, a)
    ensures c in children[a] <==> Chain(parents, c, d + 1) && parents[c] == a
  {
    assert c in children[a] <==> c in Elements(children[a]);
  }

  lemma KidsChain(parents: map<Id, Id>, children: map<Id, seq<Id>>, a: Id, d: nat)
    requires Chain(parents, a, d) && Listed(parents, children, a)
    ensures forall i | 0 <= i < |children[a]| :: Chain(parents, children[a][i], d + 1)
  {
    forall i | 0 <= i < |children[a]| ensures Chain(parents, children[a][i], d + 1) {
      KidChain(parents, children, a, d, children[a][i]);
    }
  }

  lemma UnrollCount(children: map<Id, seq<Id>>, a: Id, left: set<Id>, x: Id)
    requires a in children
    ensures Occurrences(Unroll(children, a, left), x) ==
      (if x == a then 1 else 0) + if a in left then OccurrencesIn(UnrollAll(children, children[a], left - {a}), x) else 0
  {
  }

  /** The chain of `x` comes to `a` exactly if it comes to a child of `a` one step earlier. */
  lemma ThroughKid(parents: map<Id, Id>, children: map<Id, seq<Id>>, a: Id, d: nat, x: Id, n: nat)
    requires Chain(parents, a, d) && Listed(parents, children, a) && Chain(parents, x, n) && n > d
    ensures Up(parents, x, n - d - 1) in children[a] <==> Up(parents, x, n - d) == a
  {
    UpChain(parents, x, n, n - d - 1);
    KidChain(parents, children, a, d, Up(parents, x, n - d - 1));
  }

  /** Below `a`, `x` occurs once if `a` is on its chain, and else not at all. */
  lemma {:induction false} OnceBelow(parents: map<Id, Id>, roots: seq<Id>, children: map<Id, seq<Id>>,
                                     a: Id, d: nat, left: set<Id>, x: Id, n: nat)
    requires Shaped(parents, roots, children) && FreshBelow(parents, left, d)
    requires Chain(parents, a, d) && Chain(parents, x, n)
    ensures Occurrences(Unroll(children, a, left), x) == if n >= d && Up(parents, x, n - d) == a then 1 else 0
    decreases left, 0
  {
    var kids := children[a];
    assert Listed(parents, children, a);
    FreshKids(parents, left, d, a);
    KidsChain(parents, children, a, d);
    OnceAmong(parents, roots, children, kids, d + 1, left - {a}, x, n);
    UnrollCount(children, a, left, x);
    if x == a {
      DepthUnique(parents, x, n, d);
    } else if n > d {
      ThroughKid(parents, children, a, d, x, n);
    }
  }

  lemma {:induction false} OnceAmong(parents: map<Id, Id>, roots: seq<Id>, children: map<Id, seq<Id>>,
                                     ids: seq<Id>, d: nat, left: set<Id>, x: Id, n: nat)
    requires Shaped(parents, roots, children) && FreshBelow(parents, left, d) && Ascending(ids)
    requires Chain(parents, x, n) && forall i | 0 <= i < |ids| :: Chain(parents, ids[i], d)
    ensures OccurrencesIn(UnrollAll(children, ids, left), x) == if n >= d && Up(parents, x, n - d) in ids then 1 else 0
    decreases left, |ids| + 1
  {
    if ids != [] {
      OnceBelow(parents, roots, children, ids[0], d, left, x, n);
      OnceAmong(parents, roots, children, ids[1..], d, left, x, n);
      assert ids == [ids[0]] + ids[1..];
      if ids[0] in ids[1..] {
        var j :| 0 <= j < |ids[1..]| && ids[1..][j] == ids[0];
        assert Less(ids[0], ids[j + 1]);
        LessIrreflexive(ids[0]);
      }
    }
  }

  /** Only dispatches that reach a root are found below one. */
  lemma {:induction false} OnlyReached(parents: map<Id, Id>, roots: seq<Id>, children: map<Id, seq<Id>>,
                                       a: Id, d: nat, left: set<Id>, x: Id)
    requires Shaped(parents, roots, children) && Chain(parents, a, d) && Occurrences(Unroll(children, a, left), x) > 0
    ensures Reaches(parents, x)
    decreases left, 0
  {
    if x != a {
      assert Listed(parents, children, a);
      KidsChain(parents, children, a, d);
      UnrollCount(children, a, left, x);
      OnlyReachedAmong(parents, roots, children, children[a], d + 1, left - {a}, x);
    }
  }

  lemma {:induction false} OnlyReachedAmong(parents: map<Id, Id>, roots: seq<Id>, children: map<Id, seq<Id>>,
                                            ids: seq<Id>, d: nat, left: set<Id>, x: Id)
    requires Shaped(parents, roots, children) && OccurrencesIn(UnrollAll(children, ids, left), x) > 0
    requires forall i | 0 <= i < |ids| :: Chain(parents, ids[i], d)
    ensures Reaches(parents, x)
    decreases left, |ids| + 1
  {
    if Occurrences(Unroll(children, ids[0], left), x) > 0 {
      OnlyReached(parents, roots, children, ids[0], d, left, x);
    } else {
      OnlyReachedAmong(parents, roots, children, ids[1..], d, left, x);
    }
  }

  lemma RootChain(parents: map<Id, Id>, roots: seq<Id>, x: Id)
    requires Lists(roots, RootsAmong(parents, parents.Keys))
    ensures x in roots <==> Chain(parents, x, 0)
  {
    assert x in roots <==> x in Elements(roots);
  }

  /** The finished tree holds exactly the dispatches whose parent chain reaches a root, each of them once. */
  lemma Conserved(parents: map<Id, Id>, roots: seq<Id>, children: map<Id, seq<Id>>, x: Id)
    requires Shaped(parents, roots, children)
    ensures Occurrences(Whole(roots, children), x) == if Reaches(parents, x) then 1 else 0
  {
    var trees := UnrollAll(children, roots, children.Keys);
    assert |roots| == 1 ==> OccurrencesIn(trees, x) == Occurrences(trees[0], x) by {
      assert |trees| == 1 ==> trees[1..] == [];
    }
    forall i | 0 <= i < |roots| ensures Chain(parents, roots[i], 0) {
      RootChain(parents, roots, roots[i]);
    }
    if Reaches(parents, x) {
      var n: nat :| Chain(parents, x, n);
      assert FreshBelow(parents, children.Keys, 0);
      OnceAmong(parents, roots, children, roots, 0, children.Keys, x, n);
      UpChain(parents, x, n, n);
      RootChain(parents, roots, Up(parents, x, n));
    } else if OccurrencesIn(trees, x) > 0 {
      OnlyReachedAmong(parents, roots, children, roots, 0, children.Keys, x);
    }
  }

  /** Following recorded parents from a dispatch that is no root comes back to it after `n` steps. */
  predicate Cycle(parents: map<Id, Id>, id: Id, n: nat) {
    id in parents && !IsRoot(parents, id) && n > 0 && Up(parents, id, n) == id
  }

  ghost predicate Acyclic(parents: map<Id, Id>) {
    forall id, n: nat :: !Cycle(parents, id, n)
  }

  lemma {:induction false} UpMore(parents: map<Id, Id>, id: Id, i: nat, j: nat)
    ensures Up(parents, id, i + j) == Up(parents, Up(parents, id, i), j)
    decreases i
  {
    if i > 0 {
      if id in parents && !IsRoot(parents, id) {
        UpMore(parents, parents[id], i - 1, j);
      } else {
        UpStays(parents, id, j);
        UpStays(parents, id, i + j);
      }
    }
  }

  lemma UpStays(parents: map<Id, Id>, id: Id, k: nat)
    requires id !in parents || IsRoot(parents, id)
    ensures Up(parents, id, k) == id
  {
  }

  /** An id whose walk is at a root after `n` steps, or earlier, has a chain. */
  lemma {:induction false} UpReaches(parents: map<Id, Id>, id: Id, n: nat)
    requires id in parents && IsRoot(parents, Up(parents, id, n))
    ensures Reaches(parents, id)
    decreases n
  {
    if IsRoot(parents, id) {
      assert Chain(parents, id, 0);
    } else {
      UpReaches(parents, parents[id], n - 1);
      var m: nat :| Chain(parents, parents[id], m);
      assert Chain(parents, id, m + 1);
    }
  }

  /** A walk that reaches no root stays among the dispatches of the run. */
  lemma {:induction false} UpStaysInside(parents: map<Id, Id>, id: Id, n: nat)
    requires id in parents && !Reaches(parents, id)
    ensures Up(parents, id, n) in parents && !IsRoot(parents, Up(parents, id, n))
  {
    if n == 0 {
      if IsRoot(parents, id) {
        UpReaches(parents, id, 0);
      }
    } else {
      UpStaysInside(parents, id, n - 1);
      UpMore(parents, id, n - 1, 1);
      if IsRoot(parents, Up(parents, id, n)) {
        UpReaches(parents, id, n);
      }
    }
  }

  /** The ids met in the first `n` places of a walk. */
  function Met(parents: map<Id, Id>, id: Id, n: nat): set<Id> {
    if n == 0 then {} else Met(parents, id, n - 1) + {Up(parents, id, n - 1)}
  }

  lemma {:induction false} MetAt(parents: map<Id, Id>, id: Id, n: nat, x: Id) returns (i: nat)
    requires x in Met(parents, id, n)
    ensures i < n && Up(parents, id, i) == x
  {
    if x == Up(parents, id, n - 1) {
      i := n - 1;
    } else {
      i := MetAt(parents, id, n - 1, x);
    }
  }

  /** Without a cycle a walk that reaches no root never meets an id twice, so it meets as many as it takes steps. */
  lemma {:induction false} MetAll(parents: map<Id, Id>, id: Id, n: nat)
    requires id in parents && !Reaches(parents, id) && Acyclic(parents)
    ensures |Met(parents, id, n)| == n && Met(parents, id, n) <= parents.Keys
  {
    if n > 0 {
      MetAll(parents, id, n - 1);
      UpStaysInside(parents, id, n - 1);
      var x := Up(parents, id, n - 1);
      if x in Met(parents, id, n - 1) {
        var i := MetAt(parents, id, n - 1, x);
        UpMore(parents, id, i, n - 1 - i);
        assert Cycle(parents, x, n - 1 - i);
      }
    }
  }

  lemma AcyclicReaches(parents: map<Id, Id>, id: Id)
    requires Acyclic(parents) && id in parents
    ensures Reaches(parents, id)
  {
    if !Reaches(parents, id) {
      var n := |parents.Keys| + 1;
      MetAll(parents, id, n);
      NoMoreThan(Met(parents, id, n), parents.Keys);
    }
  }

  /** A walk that has reached a root stays there. */
  lemma UpSettles(parents: map<Id, Id>, id: Id, d: nat, n: nat)
    requires Chain(parents, id, d) && d <= n
    ensures IsRoot(parents, Up(parents, id, n))
  {
    UpChain(parents, id, d, d);
    UpMore(parents, id, d, n - d);
    UpStays(parents, Up(parents, id, d), n - d);
  }

  /** On a cycle no chain ends: going round once would shorten it. */
  lemma CycleUnreached(parents: map<Id, Id>, id: Id, n: nat)
    requires Cycle(parents, id, n)
    ensures !Reaches(parents, id)
  {
    if d: nat :| Chain(parents, id, d) {
      if n <= d {
        UpChain(parents, id, d, n);
        DepthUnique(parents, id, d, d - n);
      } else {
        UpSettles(parents, id, d, n);
      }
    }
  }

  /** Nothing is lost exactly when the parents have no cycle. */
  lemma NothingLost(parents: map<Id, Id>)
    ensures (forall id | id in parents :: Reaches(parents, id)) <==> Acyclic(parents)
  {
    if Acyclic(parents) {
      forall id | id in parents ensures Reaches(parents, id) {
        AcyclicReaches(parents, id);
      }
    } else {
      var id, n: nat :| Cycle(parents, id, n);
      CycleUnreached(parents, id, n);
    }
  }

  /** Every node hangs under its recorded parent, after the siblings with smaller ids. */
  ghost predicate Recorded(parents: map<Id, Id>, t: Tree) {
    forall i | 0 <= i < |t.kids| ::
      && Recorded(parents, t.kids[i])
      && t.kids[i].id.Some? && t.kids[i].id.value in parents
      && (t.id.Some? ==> parents[t.kids[i].id.value] == t.id.value)
      && (t.id.None? ==> IsRoot(parents, t.kids[i].id.value))
      && forall j | 0 <= j < i :: t.kids[j].id.Some? && Less(t.kids[j].id.value, t.kids[i].id.value)
  }

  lemma {:induction false} UnrollRecorded(parents: map<Id, Id>, roots: seq<Id>, children: map<Id, seq<Id>>, a: Id, left: set<Id>)
    requires Shaped(parents, roots, children)
    ensures Recorded(parents, Unroll(children, a, left))
    decreases left
  {
    if a in left && a in children {
      var kids := children[a];
      assert Listed(parents, children, a);
      forall i | 0 <= i < |kids| ensures Recorded(parents, Unroll(children, kids[i], left - {a})) {
        UnrollRecorded(parents, roots, children, kids[i], left - {a});
      }
      assert forall i | 0 <= i < |kids| :: kids[i] in Elements(kids);
    }
  }

  lemma WholeRecorded(parents: map<Id, Id>, roots: seq<Id>, children: map<Id, seq<Id>>)
    requires Shaped(parents, roots, children)
    ensures Recorded(parents, Whole(roots, children))
  {
    forall i | 0 <= i < |roots| ensures Recorded(parents, Unroll(children, roots[i], children.Keys)) {
      UnrollRecorded(parents, roots, children, roots[i], children.Keys);
    }
    assert forall i | 0 <= i < |roots| :: roots[i] in Elements(roots);
  }

  /** The dispatches without a recorded parent in the run, in order: the one there is, or all of them under a nameless top. */
  lemma WholeTop(parents: map<Id, Id>, roots: seq<Id>, children: map<Id, seq<Id>>)
    requires Shaped(parents, roots, children)
    ensures Lists(roots, set id | id in parents && (parents[id] == "" || parents[id] !in parents))
    ensures var tree := Whole(roots, children);
      if |roots| == 1 then tree.id == Some(roots[0])
      else tree.id == None && |tree.kids| == |roots| && forall i | 0 <= i < |roots| :: tree.kids[i].id == Some(roots[i])
  {
    assert (set id | id in parents && (parents[id] == "" || parents[id] !in parents)) == RootsAmong(parents, parents.Keys);
  }

  method BuildDispatchTree(links: seq<Link>) returns (tree: Tree)
    ensures forall x :: Occurrences(tree, x) == if Reaches(Parents(links), x) then 1 else 0
    ensures Recorded(Parents(links), tree)
    ensures exists roots: seq<Id> ::
      && Lists(roots, set id | id in Parents(links) && (Parents(links)[id] == "" || Parents(links)[id] !in Parents(links)))
      && if |roots| == 1 then tree.id == Some(roots[0])
         else tree.id == None && |tree.kids| == |roots| && forall i | 0 <= i < |roots| :: tree.kids[i].id == Some(roots[i])
  {
    var forest := new Forest(links);
    tree := Whole(forest.roots, forest.children);
    WholeRecorded(forest.parents, forest.roots, forest.children);
    WholeTop(forest.parents, forest.roots, forest.children);
    forall x ensures Occurrences(tree, x) == if Reaches(Parents(links), x) then 1 else 0 {
      Conserved(forest.parents, forest.roots, forest.children, x);
    }
  }
}
