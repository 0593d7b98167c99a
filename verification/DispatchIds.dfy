/** Allocation of dispatch ids: by counting directories, and by a counter row. */
module DispatchIds {
  import opened Decimals
  import opened Dispatches
  import opened Order

  /** `d%02d` of an ordinal that starts at one; `NewDispatchID` takes the ordinal less one. */
  function DispatchId(n: nat): string {
    "d" + (if n < 10 then "0" + Decimal(n) else Decimal(n))
  }

  lemma DispatchIdValue(n: nat)
    ensures Value(DispatchId(n)[1..]) == n
  {
    ValueOfDecimal(n);
    LeadingZero(Decimal(n));
    assert DispatchId(n)[1..] == if n < 10 then "0" + Decimal(n) else Decimal(n);
  }

  /** Different ordinals print as different ids, whatever their width. */
  lemma DispatchIdInjective(m: nat, n: nat)
    ensures DispatchId(m) == DispatchId(n) <==> m == n
  {
    DispatchIdValue(m);
    DispatchIdValue(n);
  }

  // ---------------------------------------------------------------- counting directories

  predicate NumericId(id: string) {
    |id| >= 2 && id[0] == 'd' && forall k | 1 <= k < |id| :: IsDigit(id[k])
  }

  method IsNumericDispatchId(id: string) returns (numeric: bool)
    ensures numeric == NumericId(id)
  {
    if |id| < 2 || id[0] != 'd' {
      return false;
    }
    for k := 1 to |id|
      invariant forall i | 1 <= i < k :: IsDigit(id[i])
    {
      if id[k] < '0' || id[k] > '9' {
        return false;
      }
    }
    return true;
  }

  lemma DispatchIdNumeric(n: nat)
    ensures NumericId(DispatchId(n))
  {
  }

  datatype Entry = Entry(name: string, dir: bool)

  predicate Counted(e: Entry) {
    e.dir && NumericId(e.name)
  }

  function Count(entries: seq<Entry>): nat {
    if entries == [] then 0 else Count(entries[..|entries| - 1]) + if Counted(entries[|entries| - 1]) then 1 else 0
  }

  predicate Named(entries: seq<Entry>, name: string) {
    exists i | 0 <= i < |entries| :: entries[i].name == name
  }

  /** The directory names `AllocDispatch` hands out, in order. */
  function Allocated(n: nat): (ids: seq<string>)
    ensures |ids| == n
  {
    seq(n, i requires 0 <= i => DispatchId(i + 1))
  }

  /** A run's dispatch directory; `None` before it is created. */
  class DispatchDir {
    var entries: Option<seq<Entry>>

    constructor ()
      ensures entries == Some([])
    {
      entries := Some([]);
    }

    method NextDispatchIdFromDirs() returns (id: string)
      ensures id == DispatchId(if entries.None? then 1 else Count(entries.value) + 1)
    {
      if entries.None? {
        return DispatchId(1);
      }
      var all := entries.value;
      var count := 0;
      for i := 0 to |all|
        invariant count == Count(all[..i])
      {
        assert all[..i + 1][..i] == all[..i];
        if all[i].dir {
          var numeric := IsNumericDispatchId(all[i].name);
          if numeric {
            count := count + 1;
          }
        }
      }
      assert all[..|all|] == all;
      return DispatchId(count + 1);
    }

    /** Counts, then makes the directory; fails if the parent is missing or the name is taken. */
    method AllocDispatch() returns (id: Option<string>)
      modifies this
      ensures old(entries).None? ==> id == None && entries == None
      ensures old(entries).Some? ==> (entries, id) == AllocSpec(old(entries).value)
    {
      var next := NextDispatchIdFromDirs();
      if entries.None? || exists i | 0 <= i < |entries.value| :: entries.value[i].name == next {
        return None;
      }
      entries := Some(entries.value + [Entry(next, true)]);
      return Some(next);
    }
  }

  function AllocSpec(entries: seq<Entry>): (Option<seq<Entry>>, Option<string>) {
    var next := DispatchId(Count(entries) + 1);
    if Named(entries, next) then (Some(entries), None) else (Some(entries + [Entry(next, true)]), Some(next))
  }

  // ---------------------------------------------------------------- the counter row

  class DispatchSeq {
    /** `next_n` of the run's row; no row before the first allocation. */
    var nextN: Option<int>
    var rows: set<string>

    constructor ()
      ensures nextN == None && rows == {}
    {
      nextN, rows := None, {};
    }

    /** One upsert, then a placeholder row unless there is one. */
    method AllocDispatch() returns (id: string)
      requires nextN.Some? ==> nextN.value >= 1
      modifies this
      ensures nextN == Some((if old(nextN).None? then 1 else old(nextN).value) + 1)
      ensures id == DispatchId(nextN.value - 1) && rows == old(rows) + {id}
    {
      nextN := Some(if nextN.None? then 2 else nextN.value + 1);
      id := DispatchId(nextN.value - 1);
      rows := rows + {id};
    }
  }

  // ---------------------------------------------------------------- both count the same

  /**
   * The directory holds exactly the first `n` ids as counted directories. What else is there is not
   * counted, and does not have the form of an id.
   */
  ghost predicate Dense(entries: seq<Entry>, n: nat) {
    && Count(entries) == n
    && forall i | 0 <= i < |entries| :: NumericId(entries[i].name) ==> exists k | 1 <= k <= n :: entries[i].name == DispatchId(k)
  }

  /** From a dense directory the next allocation succeeds with the next id, and leaves it dense. */
  lemma AllocDense(entries: seq<Entry>, n: nat)
    requires Dense(entries, n)
    ensures AllocSpec(entries) == (Some(entries + [Entry(DispatchId(n + 1), true)]), Some(DispatchId(n + 1)))
    ensures Dense(entries + [Entry(DispatchId(n + 1), true)], n + 1)
  {
    var next := DispatchId(n + 1);
    DispatchIdNumeric(n + 1);
    forall i | 0 <= i < |entries| ensures entries[i].name != next {
      if entries[i].name == next {
        var k :| 1 <= k <= n && entries[i].name == DispatchId(k);
        DispatchIdInjective(k, n + 1);
      }
    }
    var after := entries + [Entry(next, true)];
    assert after[..|after| - 1] == entries;
    forall i | 0 <= i < |after| && NumericId(after[i].name)
      ensures exists k | 1 <= k <= n + 1 :: after[i].name == DispatchId(k)
    {
      if i < |entries| {
        assert after[i] == entries[i];
        var k :| 1 <= k <= n && entries[i].name == DispatchId(k);
      } else {
        assert after[i].name == DispatchId(n + 1);
      }
    }
  }

  /** Any number of allocations from an empty run: both stores hand out d01, d02, and so on, without a gap. */
  method AllocateBoth(count: nat) returns (dirIds: seq<string>, rowIds: seq<string>)
    ensures dirIds == rowIds == Allocated(count)
    ensures forall i, j | 0 <= i < j < count :: dirIds[i] != dirIds[j]
  {
    var dir := new DispatchDir();
    var row := new DispatchSeq();
    dirIds, rowIds := [], [];
    for i := 0 to count
      invariant dir.entries.Some? && Dense(dir.entries.value, i)
      invariant row.nextN == (if i == 0 then None else Some(i + 1))
      invariant dirIds == rowIds == Allocated(i)
    {
      AllocDense(dir.entries.value, i);
      var a := dir.AllocDispatch();
      var b := row.AllocDispatch();
      dirIds, rowIds := dirIds + [a.value], rowIds + [b];
      assert Allocated(i + 1) == Allocated(i) + [DispatchId(i + 1)];
    }
    forall i, j | 0 <= i < j < count ensures dirIds[i] != dirIds[j] {
      DispatchIdInjective(i + 1, j + 1);
    }
  }

  // ---------------------------------------------------------------- counting needs every directory

  function Dirs(ids: seq<string>): seq<Entry> {
    seq(|ids|, i requires 0 <= i < |ids| => Entry(ids[i], true))
  }

  lemma {:induction false} CountDirs(ids: seq<string>)
    requires forall i | 0 <= i < |ids| :: NumericId(ids[i])
    ensures Count(Dirs(ids)) == |ids|
  {
    if ids != [] {
      CountDirs(ids[..|ids| - 1]);
      assert Dirs(ids)[..|ids| - 1] == Dirs(ids[..|ids| - 1]);
    }
  }

  function IdsOf(ks: seq<nat>): seq<string> {
    seq(|ks|, i requires 0 <= i < |ks| => DispatchId(ks[i]))
  }

  /** Which of the first `n` allocations still have their directory, in the order of the listing. */
  predicate Surviving(ks: seq<nat>, n: nat) {
    && (forall i | 0 <= i < |ks| :: 1 <= ks[i] <= n)
    && forall i, j | 0 <= i < j < |ks| :: ks[i] != ks[j]
  }

  function Ordinals(n: nat): (s: set<nat>)
    ensures |s| == n
    ensures forall k: nat :: k in s <==> 1 <= k <= n
  {
    if n == 0 then {} else Ordinals(n - 1) + {n}
  }

  lemma {:induction false} DistinctCount(ks: seq<nat>) returns (s: set<nat>)
    requires forall i, j | 0 <= i < j < |ks| :: ks[i] != ks[j]
    ensures |s| == |ks| && forall k :: k in s <==> k in ks
  {
    if ks == [] {
      s := {};
    } else {
      var rest := DistinctCount(ks[1..]);
      s := rest + {ks[0]};
      assert ks == [ks[0]] + ks[1..];
    }
  }

  /** All of the first `n` survive exactly when `n` do. */
  lemma AllSurvive(ks: seq<nat>, n: nat)
    requires Surviving(ks, n)
    ensures |ks| <= n
    ensures |ks| == n <==> forall k | 1 <= k <= n :: k in ks
  {
    var s := DistinctCount(ks);
    NoMoreThan(s, Ordinals(n));
    if |ks| == n {
      EqualSize(s, Ordinals(n));
    }
    if forall k | 1 <= k <= n :: k in ks {
      NoMoreThan(Ordinals(n), s);
    }
  }

  lemma AllocAmong(ks: seq<nat>)
    ensures AllocSpec(Dirs(IdsOf(ks))).1 == if |ks| + 1 in ks then None else Some(DispatchId(|ks| + 1))
  {
    var ids := IdsOf(ks);
    forall i | 0 <= i < |ids| ensures NumericId(ids[i]) {
      DispatchIdNumeric(ks[i]);
    }
    CountDirs(ids);
    var next := DispatchId(|ks| + 1);
    forall i | 0 <= i < |ks| ensures Dirs(ids)[i].name == next <==> ks[i] == |ks| + 1 {
      DispatchIdInjective(ks[i], |ks| + 1);
    }
    assert Named(Dirs(ids), next) <==> |ks| + 1 in ks;
  }

  lemma AllocatedHolds(n: nat, k: nat)
    requires k >= 1
    ensures DispatchId(k) in Allocated(n) <==> k <= n
  {
    forall i: nat | i < n ensures Allocated(n)[i] == DispatchId(k) <==> i + 1 == k {
      DispatchIdInjective(i + 1, k);
    }
    if k <= n {
      assert Allocated(n)[k - 1] == DispatchId(k);
    }
  }

  /**
   * `n` ids were handed out and the directories of `ks` are left. Allocation fails exactly when the
   * ordinal after their number is among them; when it succeeds the id is an old one, unless nothing
   * was removed.
   */
  lemma AllocAfterRemovals(ks: seq<nat>, n: nat)
    requires Surviving(ks, n)
    ensures AllocSpec(Dirs(IdsOf(ks))).1.None? <==> |ks| + 1 in ks
    ensures var id := AllocSpec(Dirs(IdsOf(ks))).1;
            (id.Some? && id.value !in Allocated(n)) <==> forall k | 1 <= k <= n :: k in ks
  {
    AllocAmong(ks);
    AllSurvive(ks, n);
    AllocatedHolds(n, |ks| + 1);
  }

  function Without(ids: seq<string>, k: nat): seq<string>
    requires k < |ids|
  {
    ids[..k] + ids[k + 1..]
  }

  /** Once one of `n` directories is gone, allocation works again only if it was the last. */
  lemma RemovedDirectory(n: nat, k: nat)
    requires k < n
    ensures AllocSpec(Dirs(Without(Allocated(n), k))).1.Some? <==> k == n - 1
  {
    var ks := seq(n - 1, i requires 0 <= i => if i < k then i + 1 else i + 2);
    assert IdsOf(ks) == Without(Allocated(n), k);
    AllocAmong(ks);
    assert k < n - 1 ==> ks[n - 2] == n;
  }

  // ---------------------------------------------------------------- listing order

  lemma TwoDigits(n: nat)
    requires 1 <= n <= 99
    ensures DispatchId(n) == ['d', Digit(n / 10), Digit(n % 10)]
  {
    if n < 10 {
      assert n / 10 == 0 && "0" + Decimal(n) == [Digit(0), Digit(n)];
    } else {
      assert n / 10 < 10 && Decimal(n) == [Digit(n / 10)] + [Digit(n % 10)];
    }
  }

  lemma TwoDigitsAscend(m: nat, n: nat)
    requires 1 <= m < n <= 99
    ensures Less(DispatchId(m), DispatchId(n))
  {
    TwoDigits(m);
    TwoDigits(n);
    var a, b := DispatchId(m), DispatchId(n);
    assert a[1..] == [Digit(m / 10), Digit(m % 10)] && b[1..] == [Digit(n / 10), Digit(n % 10)];
    assert a[1..][1..] == [Digit(m % 10)] && b[1..][1..] == [Digit(n % 10)];
    assert m / 10 <= n / 10;
    assert Less(a[1..], b[1..]);
  }

  /** The hundredth id sorts before the ninety-ninth. */
  lemma HundredthFirst()
    ensures !Less(DispatchId(99), DispatchId(100))
  {
    TwoDigits(99);
    assert Decimal(100) == Decimal(10) + "0" && Decimal(10) == Decimal(1) + "0";
    assert DispatchId(99)[1..] == "99" && DispatchId(100)[1..] == "100";
  }

  /** A listing sorted by name is in allocation order exactly up to 99 dispatches. */
  lemma ListedInOrder(n: nat)
    ensures Sorted(Allocated(n)) == Allocated(n) <==> n <= 99
  {
    var ids := Allocated(n);
    SortedAscending(ids);
    if n <= 99 {
      forall i, j | 0 <= i < j < n ensures Less(ids[i], ids[j]) {
        TwoDigitsAscend(i + 1, j + 1);
      }
      ListingUnique(Sorted(ids), ids);
    } else {
      HundredthFirst();
      assert !Less(ids[98], ids[99]);
    }
  }
}
