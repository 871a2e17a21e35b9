/** Addresses, hop counts and the freshness order shared by the two distance-vector protocols.

A route is ranked by its destination sequence number and, between equal numbers, by its hop count.
Both protocols keep loops out by making this rank rise strictly along every next hop; the walk
lemmas at the end turn that into statements about paths through the network.
*/
module Routing {

  type Addr = nat

  /** A hop count; `Infinity` is the sentinel INFINITY2 (0xff) of an entry without a route. */
  datatype Hops = Finite(n: nat) | Infinity {

    predicate Below(other: Hops) {
      Finite? && (other.Infinity? || n < other.n)
    }

    predicate AtMost(other: Hops) {
      this == other || Below(other)
    }
  }

  datatype Rank = Rank(seqno: nat, hops: Hops) {

    /** Strictly fresher: a later sequence number, or the same one at fewer hops. */
    predicate Fresher(other: Rank) {
      seqno > other.seqno || (seqno == other.seqno && hops.Below(other.hops))
    }

    predicate NotStaler(other: Rank) {
      this == other || Fresher(other)
    }
  }

  /** Numbers of live routes are even and positive. */
  predicate LiveSeqno(q: nat) {
    q % 2 == 0 && q > 0
  }

  /** Numbers of dead routes are odd, or zero when nothing was ever learned. */
  predicate DeadSeqno(q: nat) {
    q % 2 == 1 || q == 0
  }

  function Max(a: int, b: int): int {
    if a > b then a else b
  }

  function MaxReal(a: real, b: real): real {
    if a > b then a else b
  }

  /** Ranks that rise at every step rise between any two positions. */
  lemma {:induction false} RanksRise(ranks: seq<Rank>, i: nat, j: nat)
    requires i < j < |ranks|
    requires forall k :: i <= k < j ==> ranks[k + 1].Fresher(ranks[k])
    ensures ranks[j].Fresher(ranks[i])
    decreases j - i
  {
    if i + 1 < j {
      RanksRise(ranks, i + 1, j);
      assert ranks[i + 1].Fresher(ranks[i]);
    }
  }

  ghost predicate Distinct<T(!new)>(s: seq<T>) {
    forall i, j :: 0 <= i < j < |s| ==> s[i] != s[j]
  }

  /** A sequence without repetition inside a finite set is no longer than the set is large. */
  lemma {:induction false} DistinctBound<T(!new)>(s: seq<T>, universe: set<T>)
    requires Distinct(s)
    requires forall i :: 0 <= i < |s| ==> s[i] in universe
    ensures |s| <= |universe|
    decreases |s|
  {
    if |s| > 0 {
      var last := s[|s| - 1];
      DistinctBound(s[..|s| - 1], universe - {last});
    }
  }

  /** A walk towards `dst` whose rank rises at every hop short of the destination never repeats a node. */
  lemma RisingWalkIsDistinct(walk: seq<Addr>, dst: Addr, rank: map<Addr, Rank>)
    requires forall i :: 0 <= i < |walk| - 1 ==> walk[i] != dst
    requires forall i :: 0 <= i < |walk| && walk[i] != dst ==> walk[i] in rank
    requires forall i :: 0 <= i < |walk| - 1 && walk[i + 1] != dst ==> rank[walk[i + 1]].Fresher(rank[walk[i]])
    ensures Distinct(walk)
  {
    forall i, j | 0 <= i < j < |walk|
      ensures walk[i] != walk[j]
    {
      if walk[j] != dst {
        var ranks := seq(j + 1, k requires 0 <= k <= j => rank[walk[k]]);
        forall k | i <= k < j
          ensures ranks[k + 1].Fresher(ranks[k])
        {
          assert walk[k + 1] != dst;
        }
        RanksRise(ranks, i, j);
      }
    }
  }
}
