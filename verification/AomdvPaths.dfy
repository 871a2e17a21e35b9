/** The list of alternate paths an AOMDV route keeps, and the operations on it. */
module AomdvPaths {
  import opened Routing

  datatype Path = Path(nexthop: Addr, hopcount: nat, expire: real, lasthop: Addr)

  const INFINITY2: nat := 0xff

  /** Position of the first path whose next hop is `id`, or the length of the list. */
  function Via(paths: seq<Path>, id: Addr): (i: nat)
    ensures i <= |paths|
    ensures i < |paths| ==> paths[i].nexthop == id
    ensures forall j :: 0 <= j < i ==> paths[j].nexthop != id
  {
    if paths == [] || paths[0].nexthop == id then 0 else 1 + Via(paths[1..], id)
  }

  /** Position of the first path between exactly these ends, or the length of the list. */
  function Between(paths: seq<Path>, nexthop: Addr, lasthop: Addr): (i: nat)
    ensures i <= |paths|
    ensures i < |paths| ==> paths[i].nexthop == nexthop && paths[i].lasthop == lasthop
    ensures forall j :: 0 <= j < i ==> !(paths[j].nexthop == nexthop && paths[j].lasthop == lasthop)
  {
    if paths == [] || (paths[0].nexthop == nexthop && paths[0].lasthop == lasthop) then 0
    else 1 + Between(paths[1..], nexthop, lasthop)
  }

  /** Position of the first path whose last hop is `id`, or the length of the list. */
  function EndingAt(paths: seq<Path>, id: Addr): (i: nat)
    ensures i <= |paths|
    ensures i < |paths| ==> paths[i].lasthop == id
    ensures forall j :: 0 <= j < i ==> paths[j].lasthop != id
  {
    if paths == [] || paths[0].lasthop == id then 0 else 1 + EndingAt(paths[1..], id)
  }

  predicate NewDisjoint(paths: seq<Path>, nexthop: Addr, lasthop: Addr) {
    forall p :: p in paths ==> p.nexthop != nexthop && p.lasthop != lasthop
  }

  /** The list without its first path through `id`. */
  function Without(paths: seq<Path>, id: Addr): seq<Path> {
    var i := Via(paths, id);
    if i < |paths| then paths[..i] + paths[i + 1..] else paths
  }

  function LivePaths(paths: seq<Path>, now: real): seq<Path> {
    if paths == [] then []
    else (if paths[0].expire < now then [] else [paths[0]]) + LivePaths(paths[1..], now)
  }

  function Longest(paths: seq<Path>): nat {
    if paths == [] then 0 else Max(Longest(paths[..|paths| - 1]), paths[|paths| - 1].hopcount)
  }

  /** path_get_max_hopcount */
  function MaxHops(paths: seq<Path>): Hops {
    if Longest(paths) == 0 then Infinity else Finite(Longest(paths))
  }

  /** path_get_min_hopcount */
  function MinHops(paths: seq<Path>): nat {
    if paths == [] then INFINITY2
    else var rest := MinHops(paths[..|paths| - 1]);
         if paths[|paths| - 1].hopcount < rest then paths[|paths| - 1].hopcount else rest
  }

  /** No two paths share a next hop or a last hop. */
  ghost predicate Disjoint(paths: seq<Path>) {
    forall i, j :: 0 <= i < j < |paths| ==>
      paths[i].nexthop != paths[j].nexthop && paths[i].lasthop != paths[j].lasthop
  }

  lemma {:induction false} LongestBounds(paths: seq<Path>)
    ensures forall p :: p in paths ==> p.hopcount <= Longest(paths)
    ensures Longest(paths) > 0 ==> exists p :: p in paths && p.hopcount == Longest(paths)
  {
    if paths != [] {
      var last := paths[|paths| - 1];
      LongestBounds(paths[..|paths| - 1]);
      assert forall p :: p in paths ==> p in paths[..|paths| - 1] || p == last;
      if last.hopcount < Longest(paths) {
        var p :| p in paths[..|paths| - 1] && p.hopcount == Longest(paths);
      }
    }
  }

  lemma {:induction false} MinHopsBounds(paths: seq<Path>)
    ensures forall p :: p in paths ==> MinHops(paths) <= p.hopcount
    ensures MinHops(paths) <= INFINITY2
  {
    if paths != [] {
      MinHopsBounds(paths[..|paths| - 1]);
      assert forall p :: p in paths ==> p in paths[..|paths| - 1] || p == paths[|paths| - 1];
    }
  }

  lemma {:induction false} LivePathsAre(paths: seq<Path>, now: real)
    ensures forall p :: p in LivePaths(paths, now) <==> p in paths && p.expire >= now
    ensures |LivePaths(paths, now)| <= |paths|
    ensures Disjoint(paths) ==> Disjoint(LivePaths(paths, now))
  {
    if paths != [] {
      var rest := LivePaths(paths[1..], now);
      LivePathsAre(paths[1..], now);
      if Disjoint(paths) {
        assert Disjoint(paths[1..]);
        forall p | p in rest
          ensures p.nexthop != paths[0].nexthop && p.lasthop != paths[0].lasthop
        {
          var k :| 0 <= k < |paths[1..]| && paths[1..][k] == p;
          assert paths[k + 1] == p;
        }
      }
    }
  }

  lemma {:induction false} LivePathsConcat(a: seq<Path>, b: seq<Path>, now: real)
    ensures LivePaths(a + b, now) == LivePaths(a, now) + LivePaths(b, now)
  {
    if a == [] {
      assert a + b == b;
    } else {
      hide LivePaths;
      HeadOf(a, b);
      LivePathsConcat(a[1..], b, now);
      LivePathsStep(a + b, now);
      LivePathsStep(a, now);
      Regroup(if a[0].expire < now then [] else [a[0]], LivePaths(a[1..], now), LivePaths(b, now));
    }
  }

  lemma LivePathsStep(paths: seq<Path>, now: real)
    requires paths != []
    ensures LivePaths(paths, now) == (if paths[0].expire < now then [] else [paths[0]]) + LivePaths(paths[1..], now)
  {
  }

  lemma HeadOf(a: seq<Path>, b: seq<Path>)
    requires a != []
    ensures (a + b)[0] == a[0] && (a + b)[1..] == a[1..] + b
  {
  }

  lemma Regroup(a: seq<Path>, b: seq<Path>, c: seq<Path>)
    ensures a + (b + c) == (a + b) + c
  {
  }

  /** `left` is `paths` less every path through `id`. */
  ghost predicate AllGone(paths: seq<Path>, id: Addr, left: seq<Path>) {
    forall p :: p in left <==> p in paths && p.nexthop != id
  }

  /** On disjoint paths, stopping at the first match removes every path through a neighbour and nothing else. */
  lemma WithoutRemovesAll(paths: seq<Path>, id: Addr)
    requires Disjoint(paths)
    ensures Disjoint(Without(paths, id))
    ensures AllGone(paths, id, Without(paths, id))
    ensures |Without(paths, id)| <= |paths|
  {
    var i := Via(paths, id);
    if i < |paths| {
      CutRemovesAll(paths, i);
    }
  }

  lemma CutRemovesAll(paths: seq<Path>, i: nat)
    requires Disjoint(paths) && i < |paths|
    ensures var left := paths[..i] + paths[i + 1..];
      Disjoint(left) && forall p :: p in left <==> p in paths && p.nexthop != paths[i].nexthop
  {
    var left := paths[..i] + paths[i + 1..];
    assert forall k :: 0 <= k < i ==> left[k] == paths[k];
    assert forall k :: i <= k < |left| ==> left[k] == paths[k + 1];
    forall p
      ensures p in left <==> p in paths && p.nexthop != paths[i].nexthop
    {
      if p in left {
        var k :| 0 <= k < |left| && left[k] == p;
        assert p == paths[if k < i then k else k + 1];
      }
      if p in paths && p.nexthop != paths[i].nexthop {
        var k :| 0 <= k < |paths| && paths[k] == p;
        assert left[if k < i then k else k - 1] == p;
      }
    }
  }

  lemma AppendKeepsDisjoint(paths: seq<Path>, p: Path)
    requires Disjoint(paths) && NewDisjoint(paths, p.nexthop, p.lasthop)
    ensures Disjoint(paths + [p])
  {
  }

  /** The list inside a route entry, with the count the entry keeps beside it. */
  class PathList {
    var paths: seq<Path>
    var num: int

    ghost predicate Valid()
      reads this
    {
      num == |paths|
    }

    /** The list of an entry, at the start an empty one. */
    constructor (paths: seq<Path>)
      ensures Valid() && this.paths == paths
    {
      this.paths, num := paths, |paths|;
    }

    method Insert(p: Path)
      requires Valid()
      modifies this
      ensures Valid() && paths == old(paths) + [p]
      ensures old(Disjoint(paths) && NewDisjoint(paths, p.nexthop, p.lasthop)) ==> Disjoint(paths)
    {
      paths := paths + [p];
      num := num + 1;
    }

    /** A path heard of again lives longer. */
    method Prolong(i: nat, t: real)
      requires Valid() && i < |paths|
      modifies this`paths
      ensures Valid() && paths == old(paths)[i := old(paths)[i].(expire := MaxReal(old(paths)[i].expire, t))]
      ensures old(Disjoint(paths)) ==> Disjoint(paths)
    {
      paths := paths[i := paths[i].(expire := MaxReal(paths[i].expire, t))];
    }

    method Lookup(id: Addr) returns (i: int)
      requires Valid()
      ensures if Via(paths, id) == |paths| then i == -1 else i == Via(paths, id)
    {
      i := 0;
      while i < |paths|
        invariant 0 <= i <= |paths| && forall j :: 0 <= j < i ==> paths[j].nexthop != id
      {
        if paths[i].nexthop == id {
          return;
        }
        i := i + 1;
      }
      i := -1;
    }

    method DisjointPathLookup(nexthop: Addr, lasthop: Addr) returns (i: int)
      requires Valid()
      ensures if Between(paths, nexthop, lasthop) == |paths| then i == -1 else i == Between(paths, nexthop, lasthop)
    {
      i := 0;
      while i < |paths|
        invariant 0 <= i <= |paths|
        invariant forall j :: 0 <= j < i ==> !(paths[j].nexthop == nexthop && paths[j].lasthop == lasthop)
      {
        if paths[i].nexthop == nexthop && paths[i].lasthop == lasthop {
          return;
        }
        i := i + 1;
      }
      i := -1;
    }

    /** path_lookup_lasthop */
    method LookupLasthop(id: Addr) returns (i: int)
      requires Valid()
      ensures if EndingAt(paths, id) == |paths| then i == -1 else i == EndingAt(paths, id)
    {
      i := 0;
      while i < |paths|
        invariant 0 <= i <= |paths| && forall j :: 0 <= j < i ==> paths[j].lasthop != id
      {
        if paths[i].lasthop == id {
          return;
        }
        i := i + 1;
      }
      i := -1;
    }

    method NewDisjointPath(nexthop: Addr, lasthop: Addr) returns (free: bool)
      requires Valid()
      ensures free == NewDisjoint(paths, nexthop, lasthop)
    {
      for i := 0 to |paths|
        invariant forall j :: 0 <= j < i ==> paths[j].nexthop != nexthop && paths[j].lasthop != lasthop
      {
        if paths[i].nexthop == nexthop || paths[i].lasthop == lasthop {
          return false;
        }
      }
      return true;
    }

    /** path_delete(id): stops at its first match, which on disjoint paths is all there is. */
    method Delete(id: Addr)
      requires Valid()
      modifies this
      ensures Valid() && paths == Without(old(paths), id)
      ensures old(Disjoint(paths)) ==> Disjoint(paths) && AllGone(old(paths), id, paths)
    {
      hide Disjoint, AllGone, Via, Without;
      var i := Lookup(id);
      CutIsWithout(paths, id, i);
      if i < 0 {
        return;
      }
      paths := paths[..i] + paths[i + 1..];
      num := num - 1;
    }

    static lemma CutIsWithout(paths: seq<Path>, id: Addr, i: int)
      requires if Via(paths, id) == |paths| then i == -1 else i == Via(paths, id)
      ensures Without(paths, id) == if i >= 0 then paths[..i] + paths[i + 1..] else paths
      ensures Disjoint(paths) ==> Disjoint(Without(paths, id)) && AllGone(paths, id, Without(paths, id))
    {
      hide Disjoint, AllGone;
      if Disjoint(paths) {
        WithoutRemovesAll(paths, id);
      }
    }

    method DeleteAll()
      requires Valid()
      modifies this
      ensures Valid() && paths == []
    {
      while paths != []
        decreases |paths|
      {
        paths := paths[1..];
      }
      num := 0;
    }

    /** path_empty, with the two assertions on the count that it makes. */
    method Empty() returns (empty: bool)
      requires Valid()
      ensures empty <==> paths == []
    {
      if paths != [] {
        assert num > 0;
        return false;
      } else {
        assert num == 0;
        return true;
      }
    }

    method GetMaxHopcount() returns (m: Hops)
      requires Valid()
      ensures m == MaxHops(paths)
    {
      var longest := 0;
      for i := 0 to |paths|
        invariant longest == Longest(paths[..i])
      {
        assert paths[..i + 1][..i] == paths[..i];
        if paths[i].hopcount > longest {
          longest := paths[i].hopcount;
        }
      }
      assert paths[..|paths|] == paths;
      m := if longest == 0 then Infinity else Finite(longest);
    }

    method GetMinHopcount() returns (m: nat)
      requires Valid()
      ensures m == MinHops(paths)
    {
      m := INFINITY2;
      for i := 0 to |paths|
        invariant m == MinHops(paths[..i])
      {
        assert paths[..i + 1][..i] == paths[..i];
        if paths[i].hopcount < m {
          m := paths[i].hopcount;
        }
      }
      assert paths[..|paths|] == paths;
    }

    /** path_purge: remove one expired path and start over, until a pass finds none. */
    method Purge(now: real)
      requires Valid()
      modifies this
      ensures Valid() && paths == LivePaths(old(paths), now)
      ensures old(Disjoint(paths)) ==> Disjoint(paths)
    {
      LivePathsAre(paths, now);
      var more := true;
      while more
        invariant num == |paths|
        invariant LivePaths(paths, now) == LivePaths(old(paths), now)
        invariant !more ==> forall p :: p in paths ==> p.expire >= now
        decreases |paths|, more
      {
        more := false;
        var i := 0;
        while i < |paths| && paths[i].expire >= now
          invariant 0 <= i <= |paths|
          invariant forall j :: 0 <= j < i ==> paths[j].expire >= now
        {
          i := i + 1;
        }
        if i < |paths| {
          more := true;
          RemoveExpired(paths, i, now);
          paths := paths[..i] + paths[i + 1..];
          num := num - 1;
        }
      }
      AllLive(paths, now);
    }
  }

  lemma RemoveExpired(paths: seq<Path>, i: nat, now: real)
    requires i < |paths| && paths[i].expire < now
    ensures LivePaths(paths[..i] + paths[i + 1..], now) == LivePaths(paths, now)
  {
    assert paths == paths[..i] + ([paths[i]] + paths[i + 1..]);
    LivePathsConcat(paths[..i], [paths[i]] + paths[i + 1..], now);
    LivePathsConcat(paths[..i], paths[i + 1..], now);
    assert ([paths[i]] + paths[i + 1..])[1..] == paths[i + 1..];
  }

  lemma {:induction false} AllLive(paths: seq<Path>, now: real)
    requires forall p :: p in paths ==> p.expire >= now
    ensures LivePaths(paths, now) == paths
  {
    if paths != [] {
      AllLive(paths[1..], now);
    }
  }
}
