/** The slot table of a classifier, and the forwarder that goes round it. */
module Classifier {
  class NsObject {
    constructor () {}
  }

  // ---------- the table, on values ----------

  /** The size after doubling until `slot` fits. */
  function Grown(n: nat, slot: nat): (r: nat)
    requires n > 0
    ensures r > slot && r >= n && (n > slot ==> r == n) && (n <= slot ==> r <= 2 * slot)
    decreases slot - n
  {
    if n > slot then n else Grown(2 * n, slot)
  }

  /** `max` is the last occupied slot, or -1. */
  ghost predicate LastOccupied(slots: seq<NsObject?>, max: int) {
    && -1 <= max < |slots|
    && (max >= 0 ==> slots[max] != null)
    && forall i :: max < i < |slots| ==> slots[i] == null
  }

  class Table {
    var slot: array<NsObject?>
    var maxslot: int
    const nsize: nat

    constructor (nsize: nat)
      ensures Valid() && slot.Length == 0 && this.nsize == nsize && fresh(slot)
    {
      slot := new NsObject?[0];
      maxslot := -1;
      this.nsize := nsize;
    }

    ghost predicate Valid()
      reads this, slot
    {
      LastOccupied(slot[..], maxslot)
    }

    /** alloc */
    method Alloc(s: nat)
      requires s >= slot.Length
      modifies this`slot
      ensures fresh(slot) && slot.Length == Grown(StartSize(old(slot.Length)), s)
      ensures slot[..old(slot.Length)] == old(slot[..])
      ensures forall i :: old(slot.Length) <= i < slot.Length ==> slot[i] == null
    {
      var before, n := slot, slot.Length;
      var size := n;
      if n == 0 {
        size := if nsize != 0 then nsize else 32;
      }
      while size <= s
        invariant size > 0 && Grown(size, s) == Grown(StartSize(n), s)
        decreases s - size
      {
        size := size * 2;
      }
      var larger := new NsObject?[size](_ => null);
      var i := 0;
      while i < n
        invariant 0 <= i <= n <= size && larger[..i] == before[..i]
        invariant forall k :: i <= k < size ==> larger[k] == null
        modifies larger
      {
        larger[i] := before[i];
        i := i + 1;
      }
      slot := larger;
      assert before[..n] == before[..];
    }

    function StartSize(n: nat): (r: nat)
      ensures r > 0
    {
      if n > 0 then n else if nsize != 0 then nsize else 32
    }

    /** install. Only an empty object in the last slot or beyond spoils the table. */
    method Install(s: nat, p: NsObject?)
      requires Valid()
      modifies this, slot
      ensures slot == old(slot) || fresh(slot)
      ensures s < slot.Length && old(slot.Length) <= slot.Length && slot[s] == p
      ensures forall i :: 0 <= i < slot.Length && i != s ==>
                slot[i] == if i < old(slot.Length) then old(slot[..])[i] else null
      ensures maxslot == if s >= old(maxslot) then s else old(maxslot)
      ensures Valid() <==> p != null || s < old(maxslot)
    {
      ghost var was := slot[..];
      if s >= slot.Length {
        Alloc(s);
        assert forall i :: 0 <= i < |was| ==> slot[..|was|][i] == was[i];
      }
      slot[s] := p;
      if s >= maxslot {
        maxslot := s;
      }
    }

    /** An empty object put into a new table is taken for its last occupied slot. */
    static method EmptyInstallSpoils() returns (t: Table)
      ensures fresh(t) && t.maxslot == 0 && t.slot.Length > 0 && t.slot[0] == null && !t.Valid()
    {
      t := new Table(32);
      t.Install(0, null);
    }

    /** clear */
    method Clear(s: nat)
      requires Valid() && s < slot.Length
      modifies this`maxslot, slot
      ensures Valid() && slot[..] == old(slot[..])[s := null]
    {
      slot[s] := null;
      if s == maxslot {
        maxslot := maxslot - 1;
        while maxslot >= 0 && slot[maxslot] == null
          invariant slot[..] == old(slot[..])[s := null]
          invariant -1 <= maxslot < slot.Length
          invariant forall i :: maxslot < i < slot.Length ==> slot[i] == null
          decreases maxslot
        {
          maxslot := maxslot - 1;
        }
      }
    }

    /** getnxt: the first slot that is empty or holds the null agent, in a larger table if there is none. */
    method GetNxt(nullagent: NsObject?) returns (i: nat)
      requires Valid()
      modifies this`slot
      ensures Valid() && i < slot.Length && old(slot.Length) <= slot.Length
      ensures slot[i] == null || slot[i] == nullagent
      ensures forall k :: 0 <= k < i ==> slot[k] != null && slot[k] != nullagent
      ensures slot[..old(slot.Length)] == old(slot[..])
      ensures forall k :: old(slot.Length) <= k < slot.Length ==> slot[k] == null
    {
      i := 0;
      while i < slot.Length
        invariant i <= slot.Length && forall k :: 0 <= k < i ==> slot[k] != null && slot[k] != nullagent
      {
        if slot[i] == null || slot[i] == nullagent {
          return;
        }
        i := i + 1;
      }
      ghost var was := slot[..];
      Alloc(i);
      assert forall k :: 0 <= k < |was| ==> slot[..|was|][k] == was[k];
    }

    method InstallNext(p: NsObject) returns (s: nat)
      requires Valid()
      modifies this, slot
      ensures Valid() && s == old(maxslot) + 1 && maxslot == s && slot[s] == p
    {
      s := maxslot + 1;
      Install(s, p);
    }
  }

  // ---------- going round, on values ----------

  /** Which slots, up to the last occupied one, are occupied. */
  function Occupancy(slots: seq<NsObject?>, max: int): (o: seq<bool>)
    requires -1 <= max < |slots|
    ensures |o| == max + 1
  {
    seq(max + 1, i requires 0 <= i <= max => slots[i] != null)
  }

  ghost predicate Round(o: seq<bool>) {
    o != [] && o[|o| - 1]
  }

  /** The first occupied slot from `ns` on. */
  function From(o: seq<bool>, ns: nat): (cl: nat)
    requires Round(o) && ns < |o|
    ensures ns <= cl < |o| && o[cl] && forall i :: ns <= i < cl ==> !o[i]
    decreases |o| - ns
  {
    if o[ns] then ns else From(o, ns + 1)
  }

  /** The next of `m` slots, the first after the last. */
  function Next(i: nat, m: nat): (r: nat)
    requires m > 0
    ensures r < m && (i < m ==> r == if i + 1 < m then i + 1 else 0)
  {
    (i + 1) % m
  }

  function After(o: seq<bool>, cl: nat): (ns: nat)
    requires cl < |o|
    ensures ns < |o|
  {
    Next(cl, |o|)
  }

  /** Where the search starts; a shrunken table may have left `ns` behind its end. */
  function Entry(o: seq<bool>, ns: nat): (r: nat)
    requires o != []
    ensures r < |o|
  {
    if ns < |o| then ns else Next(ns, |o|)
  }

  /** The slots that `n` calls in a row return. */
  function Calls(o: seq<bool>, ns: nat, n: nat): (r: seq<nat>)
    requires Round(o) && ns < |o|
    ensures |r| == n
    decreases n
  {
    if n == 0 then [] else [From(o, ns)] + Calls(o, After(o, From(o, ns)), n - 1)
  }

  function Occupied(o: seq<bool>): (r: seq<nat>)
    ensures forall i :: 0 <= i < |r| ==> r[i] < |o| && o[r[i]]
    ensures forall i, j :: 0 <= i < j < |r| ==> r[i] < r[j]
  {
    if o == [] then []
    else Occupied(o[..|o| - 1]) + if o[|o| - 1] then [|o| - 1] else []
  }

  /** The number of occupied slots before `i`. */
  function Rank(o: seq<bool>, i: nat): nat
    requires i <= |o|
  {
    |Occupied(o[..i])|
  }

  /** Occupied slot `i` is at its rank in the list. */
  lemma {:induction false} AtRank(o: seq<bool>, i: nat)
    requires i < |o|
    ensures Rank(o, i) <= |Occupied(o)|
    ensures o[i] ==> Rank(o, i) < |Occupied(o)| && Occupied(o)[Rank(o, i)] == i
  {
    var n := |o| - 1;
    if i < n {
      AtRank(o[..n], i);
      assert o[..n][..i] == o[..i];
    }
  }

  lemma RankStep(o: seq<bool>, i: nat)
    requires i < |o|
    ensures Rank(o, i + 1) == Rank(o, i) + if o[i] then 1 else 0
  {
    assert o[..i + 1][..i] == o[..i];
  }

  /** Empty slots do not count: the rank where the search starts is the rank where it ends. */
  lemma {:induction false} RankFrom(o: seq<bool>, ns: nat)
    requires Round(o) && ns < |o|
    ensures Rank(o, From(o, ns)) == Rank(o, ns)
    decreases |o| - ns
  {
    if !o[ns] {
      RankStep(o, ns);
      RankFrom(o, ns + 1);
    }
  }

  /** A call returns the slot at the current rank, and moves to the next rank, the first after the last. */
  lemma CallAdvances(o: seq<bool>, ns: nat)
    requires Round(o) && ns < |o|
    ensures var k := |Occupied(o)|; var cl := From(o, ns);
      && Rank(o, ns) < k && cl == Occupied(o)[Rank(o, ns)]
      && Rank(o, After(o, cl)) == if Rank(o, ns) + 1 == k then 0 else Rank(o, ns) + 1
  {
    hide Rank, Occupied, From;
    var cl := From(o, ns);
    RankFrom(o, ns);
    AtRank(o, cl);
    RankStep(o, cl);
    RankEnds(o);
    if cl < |o| - 1 {
      AtRank(o, |o| - 1);
      RankGrows(o, cl + 1, |o| - 1);
    }
  }

  lemma RankEnds(o: seq<bool>)
    ensures Rank(o, 0) == 0 && Rank(o, |o|) == |Occupied(o)|
  {
    assert o[..|o|] == o;
  }

  lemma {:induction false} RankGrows(o: seq<bool>, i: nat, j: nat)
    requires i <= j <= |o|
    ensures Rank(o, i) <= Rank(o, j)
    decreases j
  {
    if i < j {
      RankStep(o, j - 1);
      RankGrows(o, i, j - 1);
    }
  }

  /** The calls run through the list of occupied slots, from the current rank on and round. */
  lemma {:induction false} CallsGoRound(o: seq<bool>, ns: nat, n: nat, j: nat)
    requires Round(o) && ns < |o| && j < n <= |Occupied(o)|
    ensures var k := |Occupied(o)|; var at := Rank(o, ns) + j;
      Rank(o, ns) < k && Calls(o, ns, n)[j] == Occupied(o)[if at < k then at else at - k]
    decreases n
  {
    hide Rank, Occupied, From, After;
    CallAdvances(o, ns);
    if j > 0 {
      CallsGoRound(o, After(o, From(o, ns)), n - 1, j - 1);
    }
  }

  /** As many calls in a row as there are occupied slots return each of them exactly once. */
  lemma RoundRobin(o: seq<bool>, ns: nat, s: nat)
    requires Round(o) && ns < |o| && s < |o| && o[s]
    ensures var calls := Calls(o, ns, |Occupied(o)|);
      exists j: nat :: j < |calls| && calls[j] == s && forall i: nat :: i < |calls| && calls[i] == s ==> i == j
  {
    var k, r := |Occupied(o)|, Rank(o, ns);
    var calls := Calls(o, ns, k);
    CallAdvances(o, ns);
    AtRank(o, s);
    var at := Rank(o, s);
    var j: nat := if at >= r then at - r else at + k - r;
    CallsGoRound(o, ns, k, j);
    forall i: nat | i < |calls| && calls[i] == s
      ensures i == j
    {
      CallsGoRound(o, ns, k, i);
    }
  }

  /** Nor do they return any other. */
  lemma OnlyOccupied(o: seq<bool>, ns: nat, j: nat)
    requires Round(o) && ns < |o| && j < |Occupied(o)|
    ensures var cl := Calls(o, ns, |Occupied(o)|)[j]; cl < |o| && o[cl]
  {
    CallsGoRound(o, ns, |Occupied(o)|, j);
  }

  class MultiPathForwarder {
    const table: Table
    var ns: nat

    constructor (table: Table)
      ensures this.table == table && ns == 0
    {
      this.table, ns := table, 0;
    }

    /** classify. On an empty table the original divides by zero. */
    method Classify() returns (cl: nat)
      requires table.Valid() && table.maxslot >= 0 && ns < table.slot.Length
      modifies this
      ensures var o := Occupancy(table.slot[..], table.maxslot);
        && Round(o) && cl == From(o, Entry(o, old(ns))) && ns == After(o, cl)
      ensures cl <= table.maxslot && table.slot[cl] != null && ns <= table.maxslot
    {
      hide Next;
      ghost var o := Occupancy(table.slot[..], table.maxslot);
      assert forall i :: 0 <= i < |o| ==> (o[i] <==> table.slot[i] != null);
      var m := table.maxslot + 1;
      var fail := ns;
      ghost var start := Entry(o, fail);
      cl := ns;
      ns := Next(ns, m);
      hide Occupancy, Entry;
      while table.slot[cl] == null && ns != fail
        invariant cl < table.slot.Length && ns < m
        invariant table.slot[cl] != null ==> cl == From(o, start) && ns == After(o, cl)
        invariant table.slot[cl] == null ==> From(o, ns) == From(o, start) && start <= ns && ns != fail
        invariant fail < ns || m <= fail || table.slot[cl] != null
        decreases table.slot[cl] == null, m - ns
      {
        cl := ns;
        ns := Next(ns, m);
      }
    }
  }
}
