/** Route tables as the agents keep them: lists of entries keyed by destination, scanned from the front. */
module RouteList {
  import opened Routing

  /** A list of entries, newest first, read as a table. */
  function TableOf<E>(list: seq<(Addr, E)>): map<Addr, E> {
    if list == [] then map[] else TableOf(list[1..])[list[0].0 := list[0].1]
  }

  ghost predicate DistinctKeys<E>(list: seq<(Addr, E)>) {
    forall i, j :: 0 <= i < j < |list| ==> list[i].0 != list[j].0
  }

  lemma {:induction false} TableKeys<E>(list: seq<(Addr, E)>, d: Addr)
    ensures d in TableOf(list) <==> exists i :: 0 <= i < |list| && list[i].0 == d
  {
    if list != [] {
      TableKeys(list[1..], d);
      if d in TableOf(list[1..]) {
        var i :| 0 <= i < |list[1..]| && list[1..][i].0 == d;
        assert list[i + 1].0 == d;
      }
      if exists i :: 0 <= i < |list| && list[i].0 == d {
        var i :| 0 <= i < |list| && list[i].0 == d;
        if i > 0 {
          assert list[1..][i - 1].0 == d;
        }
      }
    }
  }

  lemma {:induction false} TableAt<E>(list: seq<(Addr, E)>, i: nat)
    requires DistinctKeys(list) && i < |list|
    ensures list[i].0 in TableOf(list) && TableOf(list)[list[i].0] == list[i].1
  {
    if i > 0 {
      TableAt(list[1..], i - 1);
    }
  }

  lemma {:induction false} TableUpdate<E>(list: seq<(Addr, E)>, i: nat, e: E)
    requires DistinctKeys(list) && i < |list|
    ensures TableOf(list[i := (list[i].0, e)]) == TableOf(list)[list[i].0 := e]
    ensures DistinctKeys(list[i := (list[i].0, e)])
  {
    var list' := list[i := (list[i].0, e)];
    if i > 0 {
      TableUpdate(list[1..], i - 1, e);
      assert list'[1..] == list[1..][i - 1 := (list[i].0, e)];
    } else {
      assert list'[1..] == list[1..];
    }
  }

  /** Lists with the same keys in the same places are as tables what they are place by place. */
  lemma TableByPlace<E>(list: seq<(Addr, E)>, table: map<Addr, E>)
    requires DistinctKeys(list)
    requires forall i :: 0 <= i < |list| ==> list[i].0 in table && table[list[i].0] == list[i].1
    requires forall d :: d in table ==> exists i :: 0 <= i < |list| && list[i].0 == d
    ensures TableOf(list) == table
  {
    forall d: Addr
      ensures d in TableOf(list) <==> d in table
      ensures d in table ==> TableOf(list)[d] == table[d]
    {
      TableKeys(list, d);
      if d in table {
        var i :| 0 <= i < |list| && list[i].0 == d;
        TableAt(list, i);
      }
    }
  }

  function Dsts<E>(list: seq<(Addr, E)>): seq<Addr> {
    seq(|list|, i requires 0 <= i < |list| => list[i].0)
  }

  /** The destinations of an error message as pairs, read as a map. */
  function ErrorsOf(errors: seq<(Addr, nat)>): map<Addr, nat> {
    if errors == [] then map[] else ErrorsOf(errors[..|errors| - 1])[errors[|errors| - 1].0 := errors[|errors| - 1].1]
  }

  lemma {:induction false} ErrorsKeys(errors: seq<(Addr, nat)>, d: Addr)
    requires forall i :: 0 <= i < |errors| ==> errors[i].0 != d
    ensures d !in ErrorsOf(errors)
  {
    if errors != [] {
      ErrorsKeys(errors[..|errors| - 1], d);
    }
  }

  /** The route table: rt_lookup and rt_add over the list. */
  class RouteTable<E> {
    var list: seq<(Addr, E)>

    ghost predicate Valid()
      reads this
    {
      DistinctKeys(list)
    }

    ghost function Table(): map<Addr, E>
      reads this
    {
      TableOf(list)
    }

    constructor ()
      ensures Valid() && list == []
    {
      list := [];
    }

    /** rt_lookup: the position of the entry for `id`, or -1. */
    method Lookup(id: Addr) returns (i: int)
      requires Valid()
      ensures -1 <= i < |list|
      ensures i == -1 <==> id !in Table()
      ensures i >= 0 ==> list[i].0 == id && id in Table() && list[i].1 == Table()[id]
    {
      i := 0;
      while i < |list|
        invariant 0 <= i <= |list|
        invariant forall j :: 0 <= j < i ==> list[j].0 != id
      {
        if list[i].0 == id {
          TableAt(list, i);
          return;
        }
        i := i + 1;
      }
      TableKeys(list, id);
      i := -1;
    }

    /** rt_lookup followed by rt_add of `blank` when there is nothing yet. */
    method LookupOrAdd(id: Addr, blank: E) returns (i: nat)
      requires Valid()
      modifies this
      ensures Valid() && i < |list|
      ensures list[i] == (id, if id in old(Table()) then old(Table())[id] else blank)
      ensures id in Table() && list[i].1 == Table()[id]
      ensures Table() == old(Table())[id := list[i].1]
    {
      var k := Lookup(id);
      if k >= 0 {
        i := k;
      } else {
        TableKeys(list, id);
        list := [(id, blank)] + list;
        i := 0;
        TableAt(list, 0);
      }
    }

    method Set(i: nat, e: E)
      requires Valid() && i < |list|
      modifies this
      ensures Valid() && list == old(list)[i := (old(list)[i].0, e)]
      ensures Table() == old(Table())[old(list)[i].0 := e]
      ensures old(list)[i].0 in Table() && Table()[old(list)[i].0] == e
      ensures Dsts(list) == old(Dsts(list))
    {
      TableUpdate(list, i, e);
      list := list[i := (list[i].0, e)];
      TableAt(list, i);
    }
  }
}
