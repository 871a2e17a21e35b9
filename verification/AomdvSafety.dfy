/** What one AOMDV handler keeps: disjoint paths no longer than the advertised hop count, numbers and
advertised hop counts that never go back, and messages that say exactly what the table says. */
module AomdvSafety {
  import opened Routing
  import opened BufferSpec
  import opened RingSearch
  import opened AomdvPaths
  import opened AomdvSpec

  /** `sender` vouches for a route to `dst` with this number, of at most `hop` hops. */
  datatype Advert = Advert(dst: Addr, sender: Addr, seqno: nat, hop: nat)

  function Adverts(m: Msg): set<Advert> {
    match m
    case Rreq(rq) => {Advert(rq.src, rq.sender, rq.srcSeqno, rq.hopCount)}
    case Rrep(rp) => {Advert(rp.dst, rp.sender, rp.dstSeqno, rp.hopCount)}
    case Hello(sender, seqno) => {Advert(sender, sender, seqno, 0)}
    case _ => {}
  }

  /** The path-set discipline of a table entry. */
  ghost predicate EntryOk(e: Entry, maxPaths: int) {
    && (e.flags == Up ==> LiveSeqno(e.seqno) && e.paths != [])
    && (e.flags == Down ==> DeadSeqno(e.seqno) && e.paths == [] && e.advertised == Infinity)
    && Disjoint(e.paths)
    && (forall p :: p in e.paths ==> p.hopcount >= 1 && Finite(p.hopcount).AtMost(e.advertised))
    && |e.paths| <= Max(1, maxPaths)
    && DeadSeqno(e.highestHeard)
  }

  ghost predicate NodeOk(n: Node) {
    && LiveSeqno(n.seqno)
    && forall d :: d in n.table ==> EntryOk(n.table[d], n.maxPaths)
  }

  /** A number never goes back, and under one number the advertised hop count, once fixed, stays. */
  predicate Evolves(e: Entry, e': Entry) {
    e'.seqno > e.seqno || (e'.seqno == e.seqno && (e.advertised.Finite? ==> e'.advertised == e.advertised))
  }

  /** The next hops of an entry with the lengths of the paths through them. */
  ghost function Links(e: Entry): set<(Addr, nat)> {
    set p | p in e.paths :: (p.nexthop, p.hopcount)
  }

  /** Every path of `e'` was there before under the same number, or was just heard of. */
  ghost predicate LinksKnown(earlier: set<(Addr, nat)>, sameNumber: bool, d: Addr, e': Entry, known: set<Advert>) {
    forall p :: p in e'.paths ==>
      (sameNumber && (p.nexthop, p.hopcount) in earlier)
      || (p.hopcount >= 1 && Advert(d, p.nexthop, e'.seqno, p.hopcount - 1) in known)
  }

  ghost predicate EntryStep(n: Node, d: Addr, e': Entry, known: set<Advert>) {
    && EntryOk(e', n.maxPaths)
    && Evolves(EntryOf(n, d), e')
    && LinksKnown(Links(EntryOf(n, d)), EntryOf(n, d).seqno == e'.seqno, d, e', known)
  }

  /** The sender's own table says exactly what the advertisement says. */
  predicate Exact(n: Node, a: Advert) {
    a.sender == n.index
    && if a.dst == n.index then a.hop == 0
       else a.dst in n.table && n.table[a.dst].seqno == a.seqno && n.table[a.dst].advertised == Finite(a.hop)
  }

  ghost predicate Sound(n: Node, m: Msg) {
    && (forall a :: a in Adverts(m) ==> Exact(n, a) && LiveSeqno(a.seqno))
    && (m.Rerr? ==> forall d :: d in m.unreachable ==> DeadSeqno(m.unreachable[d]))
  }

  /** The common shape of every handler. */
  ghost predicate Advances(n: Node, n': Node, known: set<Advert>, sent: seq<Msg>) {
    && n'.index == n.index && n'.maxPaths == n.maxPaths && LiveSeqno(n'.seqno)
    && n.table.Keys <= n'.table.Keys
    && (forall d :: d in n'.table ==> EntryStep(n, d, n'.table[d], known))
    && (forall m :: m in sent ==> Sound(n', m))
  }

  /** Data, errors, and requests and hellos about the sender itself: nothing that depends on the table. */
  predicate AboutSelf(index: Addr, m: Msg) {
    forall a :: a in Adverts(m) ==> a.dst == index
  }

  lemma EntryStepRefl(n: Node, d: Addr, known: set<Advert>)
    requires d in n.table && EntryOk(n.table[d], n.maxPaths)
    ensures EntryStep(n, d, n.table[d], known)
  {
  }

  lemma AdvancesRefl(n: Node, known: set<Advert>)
    requires NodeOk(n)
    ensures Advances(n, n, known, [])
  {
  }

  lemma EntryStepTrans(n: Node, n1: Node, d: Addr, e2: Entry, known: set<Advert>)
    requires n1.maxPaths == n.maxPaths
    requires d in n1.table ==> EntryStep(n, d, n1.table[d], known)
    requires d in n.table ==> d in n1.table
    requires EntryStep(n1, d, e2, known)
    ensures EntryStep(n, d, e2, known)
  {
    var e, e1 := EntryOf(n, d), EntryOf(n1, d);
    forall p | p in e2.paths
      ensures (e.seqno == e2.seqno && (p.nexthop, p.hopcount) in Links(e))
              || (p.hopcount >= 1 && Advert(d, p.nexthop, e2.seqno, p.hopcount - 1) in known)
    {
      if e1.seqno == e2.seqno && (p.nexthop, p.hopcount) in Links(e1) {
        var p1 :| p1 in e1.paths && p1.nexthop == p.nexthop && p1.hopcount == p.hopcount;
        assert d in n1.table;
      }
    }
  }

  lemma AdvancesTrans(n: Node, n1: Node, n2: Node, known: set<Advert>, sent1: seq<Msg>, sent2: seq<Msg>)
    requires Advances(n, n1, known, sent1) && Advances(n1, n2, known, sent2)
    requires forall m :: m in sent1 ==> AboutSelf(n.index, m)
    ensures Advances(n, n2, known, sent1 + sent2)
  {
    forall d | d in n2.table
      ensures EntryStep(n, d, n2.table[d], known)
    {
      EntryStepTrans(n, n1, d, n2.table[d], known);
    }
    forall m | m in sent1 + sent2
      ensures Sound(n2, m)
    {
      if m in sent1 {
        assert Sound(n1, m) && AboutSelf(n.index, m);
      }
    }
  }

  lemma OneEntryAdvances(n: Node, n': Node, d: Addr, e: Entry, known: set<Advert>)
    requires NodeOk(n) && LiveSeqno(n'.seqno) && EntryStep(n, d, e, known)
    requires n'.index == n.index && n'.maxPaths == n.maxPaths && n'.table == n.table[d := e]
    ensures Advances(n, n', known, [])
  {
    forall x | x in n'.table
      ensures EntryStep(n, x, n'.table[x], known)
    {
      if x != d {
        EntryStepRefl(n, x, known);
      }
    }
  }

  lemma SentAdvances(n: Node, n': Node, known: set<Advert>, sent: seq<Msg>)
    requires Advances(n, n', known, [])
    requires forall m :: m in sent ==> Sound(n', m)
    ensures Advances(n, n', known, sent)
  {
  }

  // ---------- operations on one entry ----------

  /** The same paths but for their expiry times. */
  ghost predicate SamePaths(e: Entry, e': Entry) {
    && |e'.paths| == |e.paths|
    && forall i :: 0 <= i < |e.paths| ==>
         e'.paths[i].nexthop == e.paths[i].nexthop && e'.paths[i].hopcount == e.paths[i].hopcount
         && e'.paths[i].lasthop == e.paths[i].lasthop
  }

  /** Fields a route decision does not look at may change freely. */
  ghost predicate SameRoute(e: Entry, e': Entry) {
    e'.seqno == e.seqno && e'.advertised == e.advertised && e'.flags == e.flags && e'.highestHeard == e.highestHeard
    && SamePaths(e, e')
  }

  lemma SameRouteSteps(n: Node, d: Addr, e': Entry, known: set<Advert>)
    requires EntryOk(EntryOf(n, d), n.maxPaths) && SameRoute(EntryOf(n, d), e')
    ensures EntryStep(n, d, e', known)
  {
    var e := EntryOf(n, d);
    forall p | p in e'.paths
      ensures (p.nexthop, p.hopcount) in Links(e) && p.hopcount >= 1 && Finite(p.hopcount).AtMost(e.advertised)
    {
      var i :| 0 <= i < |e'.paths| && e'.paths[i] == p;
      assert e.paths[i] in e.paths;
    }
  }

  lemma {:induction false} ReleasedSameRoute(e: Entry, index: Addr, pkts: seq<Packet>, now: real)
    ensures SameRoute(e, Released(e, index, pkts, now).0)
    decreases |pkts|
  {
    if pkts != [] {
      if pkts[0].ttl == 0 || pkts[0].dst == index {
        ReleasedSameRoute(e, index, pkts[1..], now);
      } else {
        var e1 := FirstExpires(e, now + ACTIVE_ROUTE_TIMEOUT);
        var e2 := if pkts[0].src != index then e1.(error := true) else e1;
        ReleasedSameRoute(e2, index, pkts[1..], now);
      }
    }
  }

  /** The first advertisement fixes the hop count at the length of the longest path. */
  lemma AdvertisedSteps(n: Node, d: Addr, known: set<Advert>)
    requires d in n.table && EntryOk(n.table[d], n.maxPaths)
    ensures EntryStep(n, d, Advertised(n.table[d]), known)
    ensures n.table[d].flags == Up ==> Advertised(n.table[d]).advertised.Finite?
  {
    var e := n.table[d];
    LongestBounds(e.paths);
    if e.flags == Up {
      assert e.paths[0] in e.paths;
    }
    forall p | p in e.paths
      ensures (p.nexthop, p.hopcount) in Links(e)
    {
    }
  }

  lemma RestartedSteps(n: Node, d: Addr, seqno: nat, p: Path, known: set<Advert>)
    requires EntryOk(EntryOf(n, d), n.maxPaths) && LiveSeqno(seqno) && EntryOf(n, d).seqno < seqno
    requires p.hopcount >= 1 && Advert(d, p.nexthop, seqno, p.hopcount - 1) in known
    ensures EntryStep(n, d, Restarted(EntryOf(n, d), seqno, p), known)
  {
  }

  lemma ExtendedSteps(n: Node, d: Addr, p: Path, known: set<Advert>)
    requires EntryOk(EntryOf(n, d), n.maxPaths) && EntryOf(n, d).flags == Up
    requires NewDisjoint(EntryOf(n, d).paths, p.nexthop, p.lasthop)
    requires |EntryOf(n, d).paths| < n.maxPaths
    requires p.hopcount >= 1 && Finite(p.hopcount - 1).Below(EntryOf(n, d).advertised)
    requires Advert(d, p.nexthop, EntryOf(n, d).seqno, p.hopcount - 1) in known
    ensures EntryStep(n, d, Extended(EntryOf(n, d), p), known)
  {
    var e := EntryOf(n, d);
    AppendKeepsDisjoint(e.paths, p);
    hide Disjoint;
    forall q | q in e.paths + [p]
      ensures q == p || (q in e.paths && (q.nexthop, q.hopcount) in Links(e))
    {
    }
  }

  lemma ProlongedSteps(n: Node, d: Addr, i: nat, t: real, known: set<Advert>)
    requires EntryOk(EntryOf(n, d), n.maxPaths) && i < |EntryOf(n, d).paths|
    ensures EntryStep(n, d, Prolonged(EntryOf(n, d), i, t), known)
  {
    SameRouteSteps(n, d, Prolonged(EntryOf(n, d), i, t), known);
  }

  /** Under the parity discipline an entry with a live number is up. */
  lemma LiveIsUp(e: Entry, maxPaths: int)
    requires EntryOk(e, maxPaths) && LiveSeqno(e.seqno)
    ensures e.flags == Up
  {
  }

  lemma ReverseRouteSteps(n: Node, rq: Request, now: real)
    requires EntryOk(EntryOf(n, rq.src), n.maxPaths) && LiveSeqno(rq.srcSeqno)
    ensures var r := ReverseRoute(n, EntryOf(n, rq.src), rq, now);
            && EntryStep(n, rq.src, r.0, Adverts(Rreq(rq)))
            && (r.1.Go? ==> r.0.flags == Up && r.0.seqno == rq.srcSeqno)
  {
    var e := EntryOf(n, rq.src);
    var known := Adverts(Rreq(rq));
    var p := Path(rq.sender, rq.hopCount + 1, now + REV_ROUTE_LIFE, rq.firstHop);
    SameRouteSteps(n, rq.src, e, known);
    hide EntryStep, EntryOk;
    if e.seqno < rq.srcSeqno {
      RestartedSteps(n, rq.src, rq.srcSeqno, p, known);
    } else if e.seqno == rq.srcSeqno && Finite(rq.hopCount).Below(e.advertised) {
      LiveIsUp(e, n.maxPaths);
      var i := Between(e.paths, rq.sender, rq.firstHop);
      if i < |e.paths| {
        ProlongedSteps(n, rq.src, i, now + REV_ROUTE_LIFE, known);
      } else if NewDisjoint(e.paths, rq.sender, rq.firstHop) && |e.paths| < n.maxPaths {
        ExtendedSteps(n, rq.src, p, known);
      }
    }
  }

  lemma ForwardRouteSteps(n: Node, rp: Reply, now: real)
    requires EntryOk(EntryOf(n, rp.dst), n.maxPaths) && LiveSeqno(rp.dstSeqno)
    ensures var r := ForwardRoute(n, EntryOf(n, rp.dst), rp, now);
            && EntryStep(n, rp.dst, r.0, Adverts(Rrep(rp)))
            && (r.1.Go? ==> r.0.flags == Up && r.0.seqno == rp.dstSeqno)
  {
    var e := EntryOf(n, rp.dst);
    var known := Adverts(Rrep(rp));
    var p := Path(rp.sender, rp.hopCount + 1, now + rp.lifetime, rp.firstHop);
    SameRouteSteps(n, rp.dst, e, known);
    hide EntryStep, EntryOk;
    if e.seqno < rp.dstSeqno {
      RestartedSteps(n, rp.dst, rp.dstSeqno, p, known);
    } else if e.seqno == rp.dstSeqno && Finite(rp.hopCount).Below(e.advertised) {
      ForwardPathSteps(n, rp, now);
    }
  }

  /** The case of one more path under the number that the entry has. */
  lemma ForwardPathSteps(n: Node, rp: Reply, now: real)
    requires EntryOk(EntryOf(n, rp.dst), n.maxPaths) && LiveSeqno(rp.dstSeqno)
    requires var e := EntryOf(n, rp.dst); e.seqno == rp.dstSeqno && Finite(rp.hopCount).Below(e.advertised)
    requires EntryStep(n, rp.dst, EntryOf(n, rp.dst), Adverts(Rrep(rp)))
    ensures var r := ForwardRoute(n, EntryOf(n, rp.dst), rp, now);
            && EntryStep(n, rp.dst, r.0, Adverts(Rrep(rp)))
            && (r.1.Go? ==> r.0.flags == Up && r.0.seqno == rp.dstSeqno)
  {
    hide EntryStep, MinHops, MaxHops;
    var e := EntryOf(n, rp.dst);
    var known := Adverts(Rrep(rp));
    var p := Path(rp.sender, rp.hopCount + 1, now + rp.lifetime, rp.firstHop);
    LiveIsUp(e, n.maxPaths);
    hide EntryOk;
    var i := Between(e.paths, rp.sender, rp.firstHop);
    if i < |e.paths| {
      ProlongedSteps(n, rp.dst, i, now + rp.lifetime, known);
    } else if NewDisjoint(e.paths, rp.sender, rp.firstHop) && |e.paths| < n.maxPaths {
      ExtendedSteps(n, rp.dst, p, known);
    }
  }

  /** Some paths taken out of an entry that stays up. */
  lemma FewerPathsStep(n: Node, d: Addr, left: seq<Path>, highest: nat, known: set<Advert>)
    requires d in n.table && EntryOk(n.table[d], n.maxPaths) && n.table[d].flags == Up && left != []
    requires Disjoint(left) && |left| <= |n.table[d].paths| && DeadSeqno(highest)
    requires forall p :: p in left ==> p in n.table[d].paths
    ensures EntryStep(n, d, n.table[d].(paths := left, highestHeard := highest), known)
  {
    hide Disjoint;
    forall p | p in left
      ensures (p.nexthop, p.hopcount) in Links(n.table[d])
    {
    }
  }

  /** An entry that is taken down takes a dead number past its live one. */
  lemma DownStep(n: Node, d: Addr, e': Entry, known: set<Advert>)
    requires d in n.table && EntryOk(n.table[d], n.maxPaths)
    requires e'.flags == Down && e'.paths == [] && e'.advertised == Infinity
    requires DeadSeqno(e'.seqno) && DeadSeqno(e'.highestHeard) && e'.seqno > n.table[d].seqno
    ensures EntryStep(n, d, e', known)
  {
  }

  lemma LostSteps(n: Node, d: Addr, id: Addr, known: set<Advert>)
    requires d in n.table && EntryOk(n.table[d], n.maxPaths)
    ensures EntryStep(n, d, Lost(n.table[d], id), known)
    ensures ReportsLoss(n.table[d], id) ==> DeadSeqno(Lost(n.table[d], id).seqno)
  {
    var e := n.table[d];
    EntryStepRefl(n, d, known);
    if Uses(e, id) {
      WithoutRemovesAll(e.paths, id);
      var left := Without(e.paths, id);
      if left != [] {
        FewerPathsStep(n, d, left, e.highestHeard, known);
      } else {
        DownStep(n, d, Lost(e, id), known);
      }
    }
  }

  lemma ErroredSteps(n: Node, d: Addr, from: Addr, q: nat, known: set<Advert>)
    requires d in n.table && EntryOk(n.table[d], n.maxPaths) && DeadSeqno(q)
    ensures EntryStep(n, d, Errored(n.table[d], from, q), known)
    ensures ReportsError(n.table[d], from, q) ==> DeadSeqno(Errored(n.table[d], from, q).seqno)
  {
    var e := n.table[d];
    EntryStepRefl(n, d, known);
    if Hit(e, from, q) {
      WithoutRemovesAll(e.paths, from);
      var left := Without(e.paths, from);
      if left != [] {
        FewerPathsStep(n, d, left, Max(e.highestHeard, q), known);
      } else {
        DownStep(n, d, Errored(e, from, q), known);
      }
    }
  }

  // ---------- handlers ----------

  lemma EmptyTwice()
    ensures var none: seq<Msg> := []; none + none == none
  {
  }

  lemma ReleaseAdvances(n: Node, d: Addr, now: real, known: set<Advert>)
    requires NodeOk(n) && d in n.table
    ensures Advances(n, Release(n, d, now).node, known, Release(n, d, now).sent)
    ensures forall m :: m in Release(n, d, now).sent ==> m.Data?
    ensures SameRoute(n.table[d], Release(n, d, now).node.table[d])
  {
    var r := Release(n, d, now);
    var pkts := Held(Purged(n.buffer, now), d);
    var e := Released(n.table[d], n.index, pkts, now).0;
    ReleasedSameRoute(n.table[d], n.index, pkts, now);
    SameRouteSteps(n, d, e, known);
    hide EntryStep, EntryOk, Released;
    OneEntryAdvances(n, r.node, d, e, known);
    hide Advances, NodeOk;
    DataIsSound(r.node, r.sent);
    SentAdvances(n, r.node, known, r.sent);
  }

  lemma DataIsSound(n: Node, sent: seq<Msg>)
    requires forall m :: m in sent ==> m.Data?
    ensures forall m :: m in sent ==> Sound(n, m)
  {
  }

  lemma EntryOkOf(n: Node, d: Addr)
    requires NodeOk(n)
    ensures EntryOk(EntryOf(n, d), n.maxPaths) && LiveSeqno(n.seqno)
  {
  }

  lemma SameRouteTrans(e: Entry, e1: Entry, e2: Entry)
    requires SameRoute(e, e1) && SameRoute(e1, e2)
    ensures SameRoute(e, e2)
  {
  }

  /** A change of one entry that leaves its route alone. */
  lemma SameRouteAdvances(n: Node, n': Node, d: Addr, e: Entry, known: set<Advert>)
    requires NodeOk(n) && LiveSeqno(n'.seqno) && SameRoute(EntryOf(n, d), e)
    requires n'.index == n.index && n'.maxPaths == n.maxPaths && n'.table == n.table[d := e]
    ensures Advances(n, n', known, []) && NodeOk(n')
  {
    hide EntryStep, Advances, SameRoute;
    EntryOkOf(n, d);
    SameRouteSteps(n, d, e, known);
    OneEntryAdvances(n, n', d, e, known);
    NodeOkAfter(n, n', known, []);
  }

  lemma RefreshAdvances(n: Node, d: Addr, now: real, known: set<Advert>)
    requires NodeOk(n) && d in n.table
    ensures Advances(n, Refresh(n, d, now).node, known, Refresh(n, d, now).sent)
    ensures forall m :: m in Refresh(n, d, now).sent ==> m.Data?
    ensures d in Refresh(n, d, now).node.table && SameRoute(n.table[d], Refresh(n, d, now).node.table[d])
  {
    hide EntryStep, EntryOk, Release, Advances, NodeOk;
    if n.table[d].flags == Up {
      var n1 := SetEntry(n, d, Settled(n.table[d]));
      assert SameRoute(n.table[d], n1.table[d]);
      hide SameRoute;
      EntryOkOf(n, d);
      DataIsAboutSelf(n.index, []);
      SameRouteAdvances(n, n1, d, n1.table[d], known);
      ReleaseAdvances(n1, d, now, known);
      var r := Release(n1, d, now);
      AdvancesTrans(n, n1, r.node, known, [], r.sent);
      assert [] + r.sent == r.sent;
      AdvancesKeepsKey(n1, r.node, d, known, r.sent);
      SameRouteTrans(n.table[d], n1.table[d], r.node.table[d]);
    } else {
      AdvancesRefl(n, known);
    }
  }

  lemma NodeOkAfter(n: Node, n': Node, known: set<Advert>, sent: seq<Msg>)
    requires Advances(n, n', known, sent)
    ensures NodeOk(n')
  {
    forall d | d in n'.table
      ensures EntryOk(n'.table[d], n'.maxPaths)
    {
      assert EntryStep(n, d, n'.table[d], known);
    }
  }

  lemma AdvancesKeepsKey(n: Node, n': Node, d: Addr, known: set<Advert>, sent: seq<Msg>)
    requires Advances(n, n', known, sent) && d in n.table
    ensures d in n'.table && n'.index == n.index
  {
  }

  /** A reply about `d` says exactly what the entry, once advertised, says. */
  lemma TableAdvertIsSound(n: Node, d: Addr, m: Msg)
    requires NodeOk(n) && d in n.table && d != n.index && n.table[d].flags == Up && n.table[d].advertised.Finite?
    requires Adverts(m) == {Advert(d, n.index, n.table[d].seqno, n.table[d].advertised.n)} && !m.Rerr?
    ensures Sound(n, m)
  {
  }

  /** Advertising the route to `d`, with a message that repeats what the entry then says. */
  lemma AdvertiseAdvances(n: Node, n': Node, d: Addr, m: Msg, known: set<Advert>)
    requires NodeOk(n) && d in n.table && d != n.index && n.table[d].flags == Up
    requires n'.index == n.index && n'.maxPaths == n.maxPaths && n'.seqno == n.seqno
    requires var e := Advertised(n.table[d]);
             n'.table == n.table[d := e] || n'.table == n.table[d := e.(error := true)]
    requires Adverts(m) == {Advert(d, n.index, n.table[d].seqno, HopNumber(Advertised(n.table[d]).advertised))} && !m.Rerr?
    ensures Advances(n, n', known, [m]) && Advances(n, n', known, []) && NodeOk(n')
  {
    var e := Advertised(n.table[d]);
    EntryOkOf(n, d);
    EntryOkOf(n, n.index);
    AdvertisedSteps(n, d, known);
    hide EntryOk, EntryStep, NodeOk, Advances, Sound, Adverts;
    var n1 := SetEntry(n, d, e);
    OneEntryAdvances(n, n1, d, e, known);
    NodeOkAfter(n, n1, known, []);
    assert SameRoute(e, n'.table[d]);
    hide SameRoute;
    SameRouteAdvances(n1, n', d, n'.table[d], known);
    AdvancesTrans(n, n1, n', known, [], []);
    EmptyTwice();
    TableAdvertIsSound(n', d, m);
    SentAdvances(n, n', known, [m]);
  }

  lemma AnswerAdvances(n: Node, rq: Request, reversePath: bool, seen: bool, now: real, known: set<Advert>)
    requires NodeOk(n) && rq.src in n.table && rq.src != n.index
    requires n.table[rq.src].flags == Up && n.table[rq.src].seqno == rq.srcSeqno
    ensures Advances(n, Answer(n, rq, reversePath, seen, now).node, known, Answer(n, rq, reversePath, seen, now).sent)
  {
    hide Advances, NodeOk, Advertised;
    var r := Answer(n, rq, reversePath, seen, now);
    EntryOkOf(n, n.index);
    AdvancesRefl(n, known);
    if rq.dst == n.index {
      SameTableAdvances(n, r.node, known);
      SentAdvances(n, r.node, known, r.sent);
    } else if rq.dst in n.table && n.table[rq.dst].flags == Up && n.table[rq.dst].seqno >= rq.dstSeqno {
      if reversePath && !Replied(n, rq.src, rq.bcastId) {
        AdvertisedKeeps(n.table[rq.dst]);
        AdvertiseAdvances(n, r.node, rq.dst, r.sent[0], known);
        assert r.sent == [r.sent[0]];
      }
    } else if !seen {
      AdvertisedKeeps(n.table[rq.src]);
      var m := Rreq(rq.(sender := n.index, hopCount := HopNumber(Advertised(n.table[rq.src]).advertised)));
      AdvertiseAdvances(n, r.node, rq.src, if r.sent == [] then m else r.sent[0], known);
      assert r.sent == [] || r.sent == [r.sent[0]];
    }
  }

  lemma AdvertisedKeeps(e: Entry)
    ensures Advertised(e).seqno == e.seqno && Advertised(e).paths == e.paths && Advertised(e).flags == e.flags
  {
  }

  lemma SameTableAdvances(n: Node, n': Node, known: set<Advert>)
    requires NodeOk(n) && LiveSeqno(n'.seqno)
    requires n'.index == n.index && n'.maxPaths == n.maxPaths && n'.table == n.table
    ensures Advances(n, n', known, [])
  {
    AdvancesRefl(n, known);
  }

  lemma TakeRequestAdvances(n: Node, rq0: Request, now: real)
    requires NodeOk(n) && LiveSeqno(rq0.srcSeqno) && rq0.src != n.index
    ensures var (r, go) := TakeRequest(n, rq0, now);
      && Advances(n, r.node, Adverts(Rreq(rq0)), r.sent) && NodeOk(r.node)
      && (forall m :: m in r.sent ==> AboutSelf(n.index, m))
      && (go.Go? ==> r.node.table[rq0.src].flags == Up && r.node.table[rq0.src].seqno == rq0.srcSeqno)
  {
    hide Advances, NodeOk, EntryOk, EntryStep, ReverseRoute, Refresh, SameRoute, Adverts;
    var known := Adverts(Rreq(rq0));
    var rq := Stamped(n, rq0);
    StampedAdverts(n, rq0);
    var n1 := CacheRequest(n, rq, now);
    EntryOkOf(n, rq.src);
    SameTableAdvances(n, n1, known);
    NodeOkAfter(n, n1, known, []);
    var rr := ReverseRoute(n1, EntryOf(n1, rq.src), rq, now);
    EntryOkOf(n1, rq.src);
    ReverseRouteSteps(n1, rq, now);
    var n2 := SetEntry(n1, rq.src, rr.0);
    OneEntryAdvances(n1, n2, rq.src, rr.0, known);
    NodeOkAfter(n1, n2, known, []);
    AdvancesTrans(n, n1, n2, known, [], []);
    EmptyTwice();
    if rr.1.Go? {
      var r1 := Refresh(n2, rq.src, now);
      RefreshAdvances(n2, rq.src, now, known);
      NodeOkAfter(n2, r1.node, known, r1.sent);
      AdvancesKeepsKey(n2, r1.node, rq.src, known, r1.sent);
      SameRouteKeeps(n2.table[rq.src], r1.node.table[rq.src]);
      DataIsAboutSelf(n.index, r1.sent);
      AdvancesTrans(n, n2, r1.node, known, [], r1.sent);
      assert [] + r1.sent == r1.sent;
    }
  }

  lemma RecvRequestAdvances(n: Node, rq: Request, now: real)
    requires NodeOk(n) && LiveSeqno(rq.srcSeqno)
    ensures Advances(n, RecvRequest(n, rq, now).node, Adverts(Rreq(rq)), RecvRequest(n, rq, now).sent)
  {
    hide Advances, NodeOk, TakeRequest, Answer, Adverts;
    var known := Adverts(Rreq(rq));
    if rq.src == n.index {
      AdvancesRefl(n, known);
    } else {
      TakeRequestAdvances(n, rq, now);
      var (r1, go) := TakeRequest(n, rq, now);
      if go.Go? {
        StampedAdverts(n, rq);
        AdvancesKeepsIndex(n, r1.node, known, r1.sent);
        var seen := Cached(n, rq.src, rq.bcastId);
        AnswerAdvances(r1.node, Stamped(n, rq), go.reversePath, seen, now, known);
        var r2 := Answer(r1.node, Stamped(n, rq), go.reversePath, seen, now);
        AdvancesTrans(n, r1.node, r2.node, known, r1.sent, r2.sent);
      }
    }
  }

  lemma AdvancesKeepsIndex(n: Node, n': Node, known: set<Advert>, sent: seq<Msg>)
    requires Advances(n, n', known, sent)
    ensures n'.index == n.index
  {
  }

  lemma StampedAdverts(n: Node, rq: Request)
    ensures Adverts(Rreq(Stamped(n, rq))) == Adverts(Rreq(rq))
    ensures Stamped(n, rq).src == rq.src && Stamped(n, rq).srcSeqno == rq.srcSeqno
  {
  }

  lemma SameRouteKeeps(e: Entry, e': Entry)
    requires SameRoute(e, e')
    ensures e'.seqno == e.seqno && e'.flags == e.flags && e'.advertised == e.advertised
  {
  }

  lemma DataIsAboutSelf(index: Addr, sent: seq<Msg>)
    requires forall m :: m in sent ==> m.Data?
    ensures forall m :: m in sent ==> AboutSelf(index, m)
  {
  }

  lemma PassReplyAdvances(n: Node, rp: Reply, now: real, known: set<Advert>)
    requires NodeOk(n) && rp.dst in n.table && rp.dst != n.index
    requires n.table[rp.dst].flags == Up && n.table[rp.dst].seqno == rp.dstSeqno
    ensures Advances(n, PassReply(n, rp, now).node, known, PassReply(n, rp, now).sent)
  {
    hide Advances, NodeOk, Advertised;
    var r := PassReply(n, rp, now);
    AdvancesRefl(n, known);
    if !(rp.to !in n.table || n.table[rp.to].flags != Up || !Cached(n, rp.to, rp.bcastId)
         || Replied(n, rp.to, rp.bcastId)) {
      var e := Advertised(n.table[rp.dst]);
      AdvertisedKeeps(n.table[rp.dst]);
      EntryOkOf(n, n.index);
      var n1 := SetEntry(MarkReplied(n, rp.to, rp.bcastId), rp.dst, e);
      var m := Rrep(rp.(sender := n.index, hopCount := HopNumber(e.advertised)));
      AdvertiseAdvances(n, n1, rp.dst, m, known);
      var e2 := FirstExpires(n1.table[rp.to], now + ACTIVE_ROUTE_TIMEOUT);
      var n2 := SetEntry(n1, rp.to, e2);
      assert SameRoute(n1.table[rp.to], e2);
      SameRouteAdvances(n1, n2, rp.to, e2, known);
      var e3 := n2.table[rp.dst].(error := true);
      assert SameRoute(n2.table[rp.dst], e3) && SameRoute(n1.table[rp.dst], n2.table[rp.dst]);
      hide SameRoute;
      SameRouteAdvances(n2, r.node, rp.dst, e3, known);
      SameRouteKeeps(n1.table[rp.dst], n2.table[rp.dst]);
      AdvancesTrans(n, n1, n2, known, [], []);
      EmptyTwice();
      AdvancesTrans(n, n2, r.node, known, [], []);
      EntryOkOf(n, rp.dst);
      AdvertisedSteps(n, rp.dst, known);
      forall m | m in r.sent
        ensures Sound(r.node, m)
      {
        TableAdvertIsSound(r.node, rp.dst, m);
      }
      SentAdvances(n, r.node, known, r.sent);
    }
  }

  lemma RecvReplyAdvances(n: Node, rp: Reply, now: real)
    requires NodeOk(n) && LiveSeqno(rp.dstSeqno)
    ensures Advances(n, RecvReply(n, rp, now).node, Adverts(Rrep(rp)), RecvReply(n, rp, now).sent)
  {
    hide Advances, NodeOk, EntryOk, EntryStep, ForwardRoute, Refresh, PassReply, SameRoute, Adverts;
    var known := Adverts(Rrep(rp));
    if rp.dst == n.index {
      AdvancesRefl(n, known);
    } else {
      var fr := ForwardRoute(n, EntryOf(n, rp.dst), rp, now);
      EntryOkOf(n, rp.dst);
      ForwardRouteSteps(n, rp, now);
      var n1 := SetEntry(n, rp.dst, fr.0);
      OneEntryAdvances(n, n1, rp.dst, fr.0, known);
      NodeOkAfter(n, n1, known, []);
      if fr.1.Go? {
        var r1 := Refresh(n1, rp.dst, now);
        RefreshAdvances(n1, rp.dst, now, known);
        NodeOkAfter(n1, r1.node, known, r1.sent);
        AdvancesKeepsKey(n1, r1.node, rp.dst, known, r1.sent);
        SameRouteKeeps(n1.table[rp.dst], r1.node.table[rp.dst]);
        DataIsAboutSelf(n.index, r1.sent);
        AdvancesTrans(n, n1, r1.node, known, [], r1.sent);
        assert [] + r1.sent == r1.sent;
        if rp.to != n.index {
          PassReplyAdvances(r1.node, rp, now, known);
          var r2 := PassReply(r1.node, rp, now);
          AdvancesTrans(n, r1.node, r2.node, known, r1.sent, r2.sent);
        }
      }
    }
  }

  lemma RecvHelloAdvances(n: Node, sender: Addr, seqno: nat, now: real)
    requires NodeOk(n) && LiveSeqno(seqno)
    ensures Advances(n, RecvHello(n, sender, seqno, now).node, Adverts(Hello(sender, seqno)),
                     RecvHello(n, sender, seqno, now).sent)
  {
    var n1 := HeardNeighbour(n, sender, now);
    var rp := HelloReply(n, sender, seqno);
    assert Adverts(Rrep(rp)) == Adverts(Hello(sender, seqno));
    RecvReplyAdvances(n1, rp, now);
    SameTableAdvances(n, n1, Adverts(Rrep(rp)));
    hide RecvReply, Advances;
    var r := RecvReply(n1, rp, now);
    AdvancesTrans(n, n1, r.node, Adverts(Rrep(rp)), [], r.sent);
    assert [] + r.sent == r.sent;
  }

  /** Every entry stepping on its own. */
  lemma EveryEntryAdvances(n: Node, n': Node, known: set<Advert>)
    requires LiveSeqno(n'.seqno) && n'.index == n.index && n'.maxPaths == n.maxPaths && n'.table.Keys == n.table.Keys
    requires forall d :: d in n.table ==> EntryStep(n, d, n'.table[d], known)
    ensures Advances(n, n', known, [])
  {
    hide EntryStep;
  }

  lemma ErrorIsSound(n: Node, report: map<Addr, nat>)
    requires forall d :: d in report ==> DeadSeqno(report[d])
    ensures forall m :: m in SendError(n.index, report) ==> Sound(n, m) && m.Rerr? && AboutSelf(n.index, m)
  {
  }

  lemma RecvErrorAdvances(n: Node, from: Addr, unreachable: map<Addr, nat>)
    requires NodeOk(n) && forall d :: d in unreachable ==> DeadSeqno(unreachable[d])
    ensures Advances(n, RecvError(n, from, unreachable).node, {}, RecvError(n, from, unreachable).sent)
  {
    hide EntryStep, Errored, ReportsError, EntryOk, NodeOk, Advances;
    var r := RecvError(n, from, unreachable);
    var report := ErrorReport(n.table, from, unreachable);
    EntryOkOf(n, n.index);
    forall d | d in n.table
      ensures EntryStep(n, d, r.node.table[d], {})
      ensures d in report ==> DeadSeqno(report[d])
    {
      EntryOkOf(n, d);
      if d in unreachable {
        ErroredSteps(n, d, from, unreachable[d], {});
      } else {
        EntryStepRefl(n, d, {});
      }
    }
    EveryEntryAdvances(n, r.node, {});
    ErrorIsSound(r.node, report);
    hide SendError;
    SentAdvances(n, r.node, {}, r.sent);
  }

  lemma HandleLinkFailureAdvances(n: Node, id: Addr)
    requires NodeOk(n)
    ensures Advances(n, HandleLinkFailure(n, id).node, {}, HandleLinkFailure(n, id).sent)
    ensures forall m :: m in HandleLinkFailure(n, id).sent ==> AboutSelf(n.index, m)
  {
    hide EntryStep, Lost, ReportsLoss, EntryOk, NodeOk, Advances;
    var r := HandleLinkFailure(n, id);
    var report := LossReport(n.table, id);
    EntryOkOf(n, n.index);
    forall d | d in n.table
      ensures EntryStep(n, d, r.node.table[d], {})
      ensures d in report ==> DeadSeqno(report[d])
    {
      EntryOkOf(n, d);
      LostSteps(n, d, id, {});
    }
    EveryEntryAdvances(n, r.node, {});
    ErrorIsSound(r.node, report);
    hide SendError;
    SentAdvances(n, r.node, {}, r.sent);
  }

  lemma SalvageOneAdvances(n: Node, s: Stuck, now: real)
    requires NodeOk(n)
    ensures var r := SalvageOne(n, s, now);
      Advances(n, r.node, {}, r.sent) && NodeOk(r.node) && forall m :: m in r.sent ==> m.Data?
  {
    hide Advances, NodeOk, EntryStep, Released;
    var r := SalvageOne(n, s, now);
    if Salvageable(n, s) {
      var d := s.packet.dst;
      ReleasedSameRoute(n.table[d], n.index, [s.packet], now);
      EntryOkOf(n, d);
      hide SameRoute;
      SameRouteAdvances(n, r.node, d, Released(n.table[d], n.index, [s.packet], now).0, {});
      DataIsSound(r.node, r.sent);
      SentAdvances(n, r.node, {}, r.sent);
    } else {
      AdvancesRefl(n, {});
    }
    NodeOkAfter(n, r.node, {}, r.sent);
  }

  lemma {:induction false} SalvageAdvances(n: Node, stuck: seq<Stuck>, now: real)
    requires NodeOk(n)
    ensures var r := Salvage(n, stuck, now);
      Advances(n, r.node, {}, r.sent) && NodeOk(r.node) && forall m :: m in r.sent ==> m.Data?
    decreases |stuck|
  {
    hide Advances, NodeOk, SalvageOne;
    if stuck == [] {
      AdvancesRefl(n, {});
    } else {
      SalvageOneAdvances(n, stuck[0], now);
      var r1 := SalvageOne(n, stuck[0], now);
      SalvageAdvances(r1.node, stuck[1..], now);
      var r2 := Salvage(r1.node, stuck[1..], now);
      DataIsAboutSelf(n.index, r1.sent);
      AdvancesTrans(n, r1.node, r2.node, {}, r1.sent, r2.sent);
    }
  }

  lemma NeighbourRemovedAdvances(n: Node, id: Addr)
    requires NodeOk(n)
    ensures Advances(n, NeighbourRemoved(n, id), {}, []) && NodeOk(NeighbourRemoved(n, id))
    ensures NeighbourRemoved(n, id).index == n.index
  {
    hide Advances, NodeOk;
    EntryOkOf(n, n.index);
    SameTableAdvances(n, NeighbourRemoved(n, id), {});
    NodeOkAfter(n, NeighbourRemoved(n, id), {}, []);
  }

  lemma NeighbourLostAdvances(n: Node, id: Addr, stuck: seq<Stuck>, now: real)
    requires NodeOk(n)
    ensures var r := NeighbourLost(n, id, stuck, now);
      Advances(n, r.node, {}, r.sent) && NodeOk(r.node) && forall m :: m in r.sent ==> AboutSelf(n.index, m)
  {
    hide HandleLinkFailure, Advances, NodeOk, NeighbourRemoved, Salvage;
    var n1 := NeighbourRemoved(n, id);
    NeighbourRemovedAdvances(n, id);
    HandleLinkFailureAdvances(n1, id);
    var r1 := HandleLinkFailure(n1, id);
    AdvancesTrans(n, n1, r1.node, {}, [], r1.sent);
    assert [] + r1.sent == r1.sent;
    NodeOkAfter(n, r1.node, {}, r1.sent);
    SalvageAdvances(r1.node, stuck, now);
    var r2 := Salvage(r1.node, stuck, now);
    DataIsAboutSelf(n.index, r2.sent);
    AdvancesTrans(n, r1.node, r2.node, {}, r1.sent, r2.sent);
  }

  lemma {:induction false} NeighboursLostAdvances(n: Node, ids: seq<Addr>, stuck: Addr -> seq<Stuck>, now: real)
    requires NodeOk(n)
    ensures var r := NeighboursLost(n, ids, stuck, now); Advances(n, r.node, {}, r.sent)
    decreases |ids|
  {
    hide NeighbourLost, Advances, NodeOk;
    if ids == [] {
      AdvancesRefl(n, {});
    } else {
      NeighbourLostAdvances(n, ids[0], stuck(ids[0]), now);
      var r1 := NeighbourLost(n, ids[0], stuck(ids[0]), now);
      NeighboursLostAdvances(r1.node, ids[1..], stuck, now);
      var r2 := NeighboursLost(r1.node, ids[1..], stuck, now);
      AdvancesTrans(n, r1.node, r2.node, {}, r1.sent, r2.sent);
    }
  }

  lemma SendRequestAdvances(n: Node, d: Addr, now: real, perHop: Addr -> real)
    requires NodeOk(n) && d in n.table
    ensures Advances(n, SendRequest(n, d, now, perHop).node, {}, SendRequest(n, d, now, perHop).sent)
    ensures forall m :: m in SendRequest(n, d, now, perHop).sent ==> AboutSelf(n.index, m)
  {
    var r := SendRequest(n, d, now, perHop);
    SameRouteSteps(n, d, r.node.table[d], {});
    hide EntryStep, EntryOk;
    OneEntryAdvances(n, r.node, d, r.node.table[d], {});
    hide Advances, NodeOk;
    SentAdvances(n, r.node, {}, r.sent);
  }

  lemma ExpiryAdvances(n: Node, d: Addr, now: real, perHop: Addr -> real)
    requires NodeOk(n) && d in n.table && n.table[d].flags == Up && n.table[d].expire < now
    ensures Advances(n, PurgeEntry(n, d, now, perHop).node, {}, []) && PurgeEntry(n, d, now, perHop).sent == []
  {
    hide Advances, NodeOk, EntryStep, LivePaths;
    var e := n.table[d];
    var r := PurgeEntry(n, d, now, perHop);
    EntryOkOf(n, d);
    var live := LivePaths(e.paths, now);
    LivePathsAre(e.paths, now);
    hide Disjoint;
    if live == [] {
      DownStep(n, d, r.node.table[d], {});
    } else {
      FewerPathsStep(n, d, live, e.highestHeard, {});
    }
    OneEntryAdvances(n, r.node, d, r.node.table[d], {});
  }

  lemma PurgeEntryAdvances(n: Node, d: Addr, now: real, perHop: Addr -> real)
    requires NodeOk(n) && d in n.table
    ensures Advances(n, PurgeEntry(n, d, now, perHop).node, {}, PurgeEntry(n, d, now, perHop).sent)
    ensures forall m :: m in PurgeEntry(n, d, now, perHop).sent ==> AboutSelf(n.index, m)
  {
    hide Release, SendRequest, Advances, NodeOk, LivePaths;
    AdvancesRefl(n, {});
    if n.table[d].flags == Up && n.table[d].expire < now {
      ExpiryAdvances(n, d, now, perHop);
    } else if n.table[d].flags == Up {
      ReleaseAdvances(n, d, now, {});
    } else if Holds(n.buffer, d) {
      SendRequestAdvances(n, d, now, perHop);
    }
  }

  lemma {:induction false} RtPurgeAdvances(n: Node, order: seq<Addr>, now: real, perHop: Addr -> real)
    requires NodeOk(n)
    requires forall d :: d in order ==> d in n.table
    ensures Advances(n, RtPurge(n, order, now, perHop).node, {}, RtPurge(n, order, now, perHop).sent)
    decreases |order|
  {
    if order == [] {
      AdvancesRefl(n, {});
    } else {
      var r1 := PurgeEntry(n, order[0], now, perHop);
      PurgeEntryAdvances(n, order[0], now, perHop);
      NodeOkAfter(n, r1.node, {}, r1.sent);
      hide PurgeEntry, Advances, NodeOk;
      RtPurgeAdvances(r1.node, order[1..], now, perHop);
      var r2 := RtPurge(r1.node, order[1..], now, perHop);
      AdvancesTrans(n, r1.node, r2.node, {}, r1.sent, r2.sent);
    }
  }

  lemma RtResolveAdvances(n: Node, p: Packet, now: real, perHop: Addr -> real)
    requires NodeOk(n)
    ensures Advances(n, RtResolve(n, p, now, perHop).node, {}, RtResolve(n, p, now, perHop).sent)
  {
    hide Advances, NodeOk, EntryStep, SendRequest, Enqueued, Released;
    var r := RtResolve(n, p, now, perHop);
    var n1 := SetEntry(n, p.dst, EntryOf(n, p.dst));
    var e := n1.table[p.dst];
    assert SameRoute(e, e);
    EntryOkOf(n, p.dst);
    SameRouteAdvances(n, n1, p.dst, e, {});
    if e.flags == Up {
      ReleasedSameRoute(e, n.index, [p], now);
      hide SameRoute;
      SameRouteAdvances(n, r.node, p.dst, Released(e, n.index, [p], now).0, {});
      DataIsSound(r.node, r.sent);
      SentAdvances(n, r.node, {}, r.sent);
    } else if p.src == n.index {
      hide SameRoute;
      var n2 := n1.(buffer := Enqueued(n.buffer, p, now));
      SameTableAdvances(n1, n2, {});
      NodeOkAfter(n1, n2, {}, []);
      SendRequestAdvances(n2, p.dst, now, perHop);
      AdvancesTrans(n, n1, n2, {}, [], []);
      EmptyTwice();
      AdvancesTrans(n, n2, r.node, {}, [], r.sent);
      assert [] + r.sent == r.sent;
    } else {
      SentAdvances(n, r.node, {}, r.sent);
    }
  }

  lemma RecvDataAdvances(n: Node, p: Packet, now: real, perHop: Addr -> real)
    requires NodeOk(n)
    ensures Advances(n, RecvData(n, p, now, perHop).node, {}, RecvData(n, p, now, perHop).sent)
  {
    hide RtResolve, Advances, NodeOk;
    AdvancesRefl(n, {});
    if p.src == n.index && p.forwards == 0 {
      RtResolveAdvances(n, p.(ttl := NETWORK_DIAMETER), now, perHop);
    } else if !(p.src == n.index || p.ttl - 1 == 0) {
      RtResolveAdvances(n, p.(ttl := p.ttl - 1), now, perHop);
    }
  }

  ghost predicate Credible(m: Msg) {
    match m
    case Rreq(rq) => LiveSeqno(rq.srcSeqno)
    case Rrep(rp) => LiveSeqno(rp.dstSeqno)
    case Hello(_, seqno) => LiveSeqno(seqno)
    case Rerr(_, unreachable) => forall d :: d in unreachable ==> DeadSeqno(unreachable[d])
    case Data(_, _) => true
  }

  lemma RecvAdvances(n: Node, m: Msg, now: real, perHop: Addr -> real)
    requires NodeOk(n) && Credible(m)
    ensures Advances(n, Recv(n, m, now, perHop).node, Adverts(m), Recv(n, m, now, perHop).sent)
  {
    hide RecvRequest, RecvReply, RecvHello, RecvError, RecvData, Advances;
    match m
    case Rreq(rq) =>
      var rq' := rq.(ttl := rq.ttl - 1);
      RecvRequestAdvances(n, rq', now);
      assert Adverts(Rreq(rq')) == Adverts(m);
    case Rrep(rp) =>
      var rp' := rp.(ttl := rp.ttl - 1);
      RecvReplyAdvances(n, rp', now);
      assert Adverts(Rrep(rp')) == Adverts(m);
    case Hello(sender, seqno) => RecvHelloAdvances(n, sender, seqno, now);
    case Rerr(from, unreachable) => RecvErrorAdvances(n, from, unreachable);
    case Data(_, p) => RecvDataAdvances(n, p, now, perHop);
  }
}
