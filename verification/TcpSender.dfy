/** The sending side of the TCP agent: which sequence numbers it holds, and what it may send. */
module TcpSender {
  datatype TcpState = Closed | Listen | SynSent | SynReceived | Established | FinWait1 | Closing | LastAck | FinWait2

  /** The numbers of the original's states, which it compares. */
  function Rank(s: TcpState): nat {
    match s
    case Closed => 0
    case Listen => 1
    case SynSent => 2
    case SynReceived => 3
    case Established => 4
    case FinWait1 => 6
    case Closing => 7
    case LastAck => 8
    case FinWait2 => 9
  }

  predicate Synchronizing(s: TcpState) {
    s == SynSent || s == SynReceived
  }

  /** A segment that output sent. */
  datatype Sent = Sent(seqno: int, ackno: int, len: int, syn: bool, fin: bool)

  /** The header fields of an arriving segment that the agent reads. */
  datatype Segment = Segment(seqno: int, ackno: int, datalen: nat, ack: bool, syn: bool, fin: bool)

  /** What the data part of recv makes of a segment: the next byte expected, whether it took the direct path, and the
  flags it hands back. */
  datatype Delivery = Delivery(next: int, direct: bool, push: bool, fin: bool)

  datatype Config = Config(
    iss: int, maxseg: int, wnd: int, segsPerAck: int, rexmtThresh: int,
    nodelay: bool, dataOnSyn: bool, dupsegFix: bool, dupackReset: bool, bugFix: bool, overhead: bool)

  datatype Cause = None | Timeout | DupAck

  /** Whether recv goes on to its last part, drops the segment, or drops it after an ACK. */
  datatype Next = Step6 | Drop | DropAfterAck

  const SPA_WINDOW := 16 * 1024

  function Max(a: int, b: int): int {
    if a < b then b else a
  }

  function Min(a: int, b: int): int {
    if a < b then a else b
  }

  /** The sequence numbers that a segment takes up, given which flags have been sent before. */
  function Takes(p: Sent, sentSyn: bool, sentFin: bool): int {
    p.len + (if p.syn && !sentSyn then 1 else 0) + (if p.fin && !sentFin then 1 else 0)
  }

  /** The first number behind a segment, each flag taking one. */
  function End(p: Sent): int {
    p.seqno + p.len + (if p.syn then 1 else 0) + (if p.fin then 1 else 0)
  }

  /** Nothing sent reaches beyond `max`. */
  ghost predicate Below(sent: seq<Sent>, max: int) {
    forall p :: p in sent ==> p.seqno + p.len <= max
  }

  lemma BelowGrows(sent: seq<Sent>, max: int, max': int, p: Sent)
    requires Below(sent, max) && max <= max' && p.seqno + p.len <= max'
    ensures Below(sent + [p], max') && Below(sent, max')
  {
  }

  /** After a segment that takes `n` numbers counted from `t`. */
  lemma Overshot(sent: seq<Sent>, p: Sent, max: int, t: int, n: int)
    requires Below(sent, max) && t <= max && n >= p.len && p.seqno + p.len <= End(p)
    ensures Max(max, t + n) > Max(max, End(p)) <==> n > max - t && End(p) < t + n
    ensures Max(max, t + n) > Max(max, End(p)) ==> Below(sent + [p], Max(max, t + n) - 1)
    ensures p.seqno + p.len <= max ==> Below(sent + [p], max)
    ensures t == max ==> Max(max, t + n) >= max + p.len
  {
    if Max(max, t + n) > Max(max, End(p)) {
      BelowGrows(sent, max, Max(max, t + n) - 1, p);
    }
  }

  lemma EmptyIsBelow(max: int)
    ensures Below([], max)
  {
  }

  class Sender {
    const c: Config
    var state: TcpState
    var curseq: int
    var tSeqno: int
    var maxseq: int
    var highestAck: int
    var rcvNxt: int
    var lastAckSent: int
    var switchSpaThresh: int
    var ackNow: bool
    var delAck: bool
    var sentSyn: bool
    var sentFin: bool
    var closeOnEmpty: bool
    var dupacks: int
    var recover: int
    var recoverCause: Cause
    var rtxPending: bool
    var delsndPending: bool
    var rttActive: bool
    var rttSeq: int
    ghost var sent: seq<Sent>

    constructor (c: Config)
      ensures this.c == c && state == Closed
    {
      this.c := c;
      state, recoverCause := Closed, None;
    }

    /** The order of the sequence variables, and what rests on it. */
    ghost predicate Inv()
      reads this
    {
      && 0 <= highestAck <= tSeqno <= maxseq && c.iss <= maxseq && c.maxseg > 0
      && (state == Listen ==> highestAck <= c.iss)
      && Below(sent, maxseq)
    }

    /** Between calls that keep the connection: acknowledgements and the largest number sent only grow. */
    twostate predicate Onward()
      reads this
    {
      old(highestAck) <= highestAck && old(maxseq) <= maxseq
    }

    /** Between calls that only send: the retransmission timer, and the round trip that is timed, go on; the timer is
    pending once something sent is outstanding, and a round trip is timed from the first new number on. */
    twostate predicate Timed()
      reads this
    {
      && (|sent| == |old(sent)| ==> rtxPending == old(rtxPending) && rttActive == old(rttActive) && rttSeq == old(rttSeq))
      && (old(rtxPending) ==> rtxPending)
      && (|sent| > |old(sent)| && tSeqno > highestAck ==> rtxPending)
      && (old(rttActive) ==> rttActive && rttSeq == old(rttSeq))
      && (maxseq > old(maxseq) ==> rttActive)
      && (rttActive && !old(rttActive) ==> maxseq > old(maxseq) && old(tSeqno) <= rttSeq < maxseq)
    }

    /** The state is all new, except for the connection state, the data on hand and the flag to close. */
    method Reinit()
      modifies this`highestAck, this`tSeqno, this`maxseq, this`rcvNxt, this`lastAckSent, this`switchSpaThresh,
        this`ackNow, this`delAck, this`sentSyn, this`sentFin, this`recover, this`recoverCause, this`rtxPending, this`sent
      ensures highestAck == 0 && tSeqno == maxseq == c.iss && rcvNxt == lastAckSent == switchSpaThresh == 0
      ensures !ackNow && !delAck && !sentSyn && !sentFin && sent == []
      ensures recover == 0 && recoverCause == None && !rtxPending
      ensures c.maxseg > 0 ==> (Inv() <==> c.iss >= 0)
    {
      hide Below;
      EmptyIsBelow(c.iss);
      rtxPending := false;
      highestAck := 0;
      recover, recoverCause := 0, None;
      lastAckSent, rcvNxt := 0, 0;
      ackNow, delAck, sentSyn, sentFin := false, false, false, false;
      tSeqno, maxseq := c.iss, c.iss;
      switchSpaThresh := 0;
      sent := [];
    }

    function OutFlags(): (flags: (bool, bool, bool))
      reads this
      ensures flags.1 <==> Synchronizing(state)
    {
      (state != Listen && state != SynSent, state == SynSent || state == SynReceived, state == FinWait1 || state == LastAck)
    }

    function NeedSend(): bool
      reads this`ackNow, this`rcvNxt, this`switchSpaThresh, this`lastAckSent
    {
      if ackNow then true
      else if rcvNxt < switchSpaThresh then rcvNxt - lastAckSent >= 1
      else rcvNxt - lastAckSent >= c.segsPerAck * c.maxseg
    }

    function Buffered(seqno: int): int
      reads this`curseq
    {
      curseq + c.iss - seqno
    }

    /** The bytes due in one segment from `seqno`: what is on hand, within the window and a full segment. */
    function Due(seqno: int, win: int): nat
      reads this`curseq, this`highestAck, this`state
    {
      var n := Min(Buffered(seqno), highestAck + win - seqno);
      if Synchronizing(state) || n <= 0 then 0 else if n > c.maxseg then Max(c.maxseg, 0) else n
    }

    /** That segment takes all there is on hand. */
    predicate Emptying(seqno: int, win: int)
      reads this`curseq, this`highestAck, this`state
    {
      0 < Due(seqno, win) == Buffered(seqno)
    }

    predicate FinDue(seqno: int, win: int)
      reads this`curseq, this`highestAck, this`state, this`closeOnEmpty
    {
      if Due(seqno, win) > 0 then Emptying(seqno, win) && (closeOnEmpty || state == FinWait1 || state == LastAck)
      else state == FinWait1 || state == LastAck
    }

    /** There is a reason to send from `seqno`: an acknowledgement that is due, a SYN or FIN, everything on hand in one
    segment, a full segment, data sent before, or half the window. Only a partial segment cut off by the window waits. */
    predicate Goes(seqno: int, win: int)
      reads this`ackNow, this`rcvNxt, this`switchSpaThresh, this`lastAckSent, this`curseq, this`highestAck, this`state, this`closeOnEmpty, this`maxseq
    {
      var n := Due(seqno, win);
      || NeedSend() || Synchronizing(state) || FinDue(seqno, win) || Emptying(seqno, win)
      || (n > 0 && (n == c.maxseg || seqno < maxseq || 2 * n >= c.wnd * c.maxseg))
    }

    /** The first number that may not be sent: the end of what is on hand, or of the window. */
    function Top(win: int): int
      reads this`curseq, this`highestAck
    {
      Min(curseq + c.iss, highestAck + win)
    }

    /** The segment that goes out from `seqno`, if one does. */
    function Outgoing(seqno: int, win: int): Sent
      reads this`curseq, this`highestAck, this`state, this`closeOnEmpty, this`sentFin, this`maxseq, this`rcvNxt
    {
      Made(seqno, Due(seqno, win), Synchronizing(state), FinDue(seqno, win))
    }

    /** Send one segment from `seqno`, if there is a reason to; `win` is the window in bytes. */
    method Output(seqno: int, win: int)
      requires Inv() && seqno <= maxseq && (seqno <= tSeqno || Synchronizing(state))
      modifies this`state, this`tSeqno, this`maxseq, this`lastAckSent, this`ackNow, this`delAck, this`sentSyn, this`sentFin,
        this`rtxPending, this`rttActive, this`rttSeq, this`sent
      ensures Inv() && old(maxseq) <= maxseq
      ensures state == old(state) || (state == FinWait1 && closeOnEmpty && !Synchronizing(old(state)))
      // nothing sent: nothing moves
      ensures sent == old(sent) ==> tSeqno == old(tSeqno) && maxseq == old(maxseq) && state == old(state)
      ensures sent == old(sent) ==> sentSyn == old(sentSyn) && sentFin == old(sentFin)
      ensures sent == old(sent) ==> ackNow == old(ackNow) && delAck == old(delAck)
      ensures sent == old(sent) ==> !Goes(seqno, win)
      ensures sent == old(sent) ==> rtxPending == old(rtxPending) && rttActive == old(rttActive) && rttSeq == old(rttSeq)
      // one segment sent: within the window and the data on hand; SYN and FIN each take one number, once
      ensures sent == old(sent) || |sent| == |old(sent)| + 1
      ensures |sent| > |old(sent)| ==>
                var p := Last();
                && p == old(Outgoing(seqno, win)) && sent == old(sent) + [p] && Sends(p, seqno, win)
                && tSeqno == old(tSeqno) + Takes(p, old(sentSyn), old(sentFin))
                && maxseq == Max(old(maxseq), tSeqno)
                && sentSyn == (old(sentSyn) || p.syn) && sentFin == (old(sentFin) || p.fin)
                && !ackNow && !delAck && lastAckSent == rcvNxt
                && (rtxPending <==> old(rtxPending) || tSeqno > highestAck)
      ensures if maxseq > old(maxseq) && !old(rttActive) then rttActive && rttSeq == seqno
              else rttActive == old(rttActive) && rttSeq == old(rttSeq)
      // it is sent exactly if there is a reason: a SYN or FIN that is due, an acknowledgement that is demanded, data sent
      // again and full segments among them
      ensures |sent| > |old(sent)| <==> old(Goes(seqno, win))
      ensures old(ackNow) || Synchronizing(old(state)) || old(FinDue(seqno, win)) ==> |sent| > |old(sent)|
      ensures old(Due(seqno, win)) > 0 && (seqno < old(maxseq) || old(Due(seqno, win)) == c.maxseg) ==>
                |sent| > |old(sent)|
    {
      hide Below, Due, Emptying, FinDue, Buffered, Max;
      var isRetransmit, idle := seqno < maxseq, highestAck == maxseq;
      var (_, syn, _) := OutFlags();
      var datalen, fin, emptying := Plan(seqno, win);
      var worth := datalen > 0
        && (datalen == c.maxseg || ((idle || c.nodelay) && emptying) || isRetransmit || 2 * datalen >= c.wnd * c.maxseg);
      if !worth && !NeedSend() && !ackNow && !syn && !fin && !emptying {
        return;
      }
      Emit(seqno, datalen, syn, fin);
    }

    /** How much output takes, whether that empties the buffer, which also pushes it, and whether a FIN goes along. */
    method Plan(seqno: int, win: int) returns (datalen: nat, fin: bool, emptying: bool)
      requires c.maxseg > 0
      modifies this`state
      ensures datalen == old(Due(seqno, win)) && emptying == old(Emptying(seqno, win)) && fin == old(FinDue(seqno, win))
      ensures state == if emptying && closeOnEmpty then FinWait1 else old(state)
      ensures datalen <= c.maxseg && (fin ==> state == FinWait1 || state == LastAck)
      ensures emptying ==> !Synchronizing(old(state))
      ensures datalen > 0 ==>
                !Synchronizing(old(state)) && seqno + datalen <= curseq + c.iss && seqno + datalen <= highestAck + win
    {
      var buffered := curseq + c.iss - seqno;
      var len := if buffered < highestAck + win - seqno then buffered else highestAck + win - seqno;
      var (_, syn, finDue) := OutFlags();
      fin, emptying := finDue, false;
      if syn || len <= 0 {
        len := 0;
      } else if len > c.maxseg {
        len := c.maxseg;
      } else if len == buffered {
        emptying := true;
        if closeOnEmpty {
          fin := true;
          state := FinWait1;
        }
      }
      if len > 0 && !emptying {
        fin := false;
      }
      datalen := len;
    }

    /** The sending itself: a FIN sent again does not pass the end; SYN and FIN take a number the first time. */
    method Emit(seqno: int, datalen: nat, syn: bool, fin: bool)
      requires Inv() && seqno <= maxseq && (seqno <= tSeqno || datalen == 0)
      modifies this`tSeqno, this`maxseq, this`lastAckSent, this`ackNow, this`delAck, this`sentSyn, this`sentFin,
        this`rtxPending, this`rttActive, this`rttSeq, this`sent
      ensures Inv() && sent == old(sent) + [old(Made(seqno, datalen, syn, fin))]
      ensures tSeqno == old(tSeqno) + Takes(old(Made(seqno, datalen, syn, fin)), old(sentSyn), old(sentFin))
      ensures maxseq == Max(old(maxseq), tSeqno) && old(maxseq) <= maxseq
      ensures sentSyn == (old(sentSyn) || syn) && sentFin == (old(sentFin) || fin)
      ensures !ackNow && !delAck && lastAckSent == rcvNxt
      ensures rtxPending <==> old(rtxPending) || tSeqno > highestAck
      ensures if maxseq > old(maxseq) && !old(rttActive) then rttActive && rttSeq == seqno
              else rttActive == old(rttActive) && rttSeq == old(rttSeq)
    {
      hide Below, Max;
      ghost var p, before := Made(seqno, datalen, syn, fin), sent;
      var n := datalen + (if syn && !sentSyn then 1 else 0) + (if fin && !sentFin then 1 else 0);
      assert n == Takes(p, sentSyn, sentFin) && (p.seqno + p.len <= maxseq || p.seqno + p.len <= tSeqno + n);
      hide Takes, Made;
      Log(p, syn, fin);
      Account(n, seqno, p, before);
    }

    /** The flags that have been sent, and that nothing is to be acknowledged now. */
    method Log(ghost p: Sent, syn: bool, fin: bool)
      modifies this`lastAckSent, this`ackNow, this`delAck, this`sentSyn, this`sentFin, this`sent
      ensures sent == old(sent) + [p] && lastAckSent == rcvNxt && !ackNow && !delAck
      ensures sentSyn == (old(sentSyn) || syn) && sentFin == (old(sentFin) || fin)
    {
      sentSyn, sentFin := sentSyn || syn, sentFin || fin;
      sent := sent + [p];
      lastAckSent := rcvNxt;
      ackNow, delAck := false, false;
    }

    function Made(seqno: int, datalen: nat, syn: bool, fin: bool): Sent
      reads this`sentFin, this`maxseq, this`rcvNxt
    {
      Sent(if fin && sentFin && seqno >= maxseq then seqno - 1 else seqno, rcvNxt, datalen, syn, fin)
    }

    /** What sending `n` more numbers, from `seqno` on, does to the variables and the timer. */
    method Account(n: nat, seqno: int, ghost p: Sent, ghost before: seq<Sent>)
      requires p.seqno + p.len <= maxseq || p.seqno + p.len <= tSeqno + n
      requires sent == before + [p] && Below(before, maxseq)
      modifies this`tSeqno, this`maxseq, this`rtxPending, this`rttActive, this`rttSeq
      ensures tSeqno == old(tSeqno) + n && maxseq == Max(old(maxseq), tSeqno)
      ensures tSeqno <= maxseq && old(maxseq) <= maxseq
      ensures Below(sent, maxseq)
      ensures rtxPending <==> old(rtxPending) || tSeqno > highestAck
      ensures if maxseq > old(maxseq) && !old(rttActive) then rttActive && rttSeq == seqno
              else rttActive == old(rttActive) && rttSeq == old(rttSeq)
    {
      hide Below;
      tSeqno := tSeqno + n;
      if tSeqno > maxseq {
        maxseq := tSeqno;
        if !rttActive {
          rttActive, rttSeq := true, seqno;
        }
      }
      if !rtxPending && tSeqno > highestAck {
        rtxPending := true;
      }
      BelowGrows(before, old(maxseq), maxseq, p);
    }

    ghost function Last(): Sent
      requires sent != []
      reads this
    {
      sent[|sent| - 1]
    }

    /** A segment that output may send when asked for `seqno`: it starts there, or one before when a FIN is repeated
    from the very end, and its data is neither more than a full segment nor beyond the window or the data on hand. */
    ghost predicate Sends(p: Sent, seqno: int, win: int)
      reads this
    {
      && p.ackno == rcvNxt && (p.seqno == seqno || (p.fin && p.seqno == seqno - 1))
      && 0 <= p.len <= c.maxseg
      && (p.syn <==> Synchronizing(state)) && (p.fin ==> state == FinWait1 || state == LastAck)
      && (p.len > 0 ==> !p.syn && seqno + p.len <= curseq + c.iss && seqno + p.len <= highestAck + win)
    }

    /** Segments from the `n`-th on follow each other without a gap; a FIN or SYN takes a number of its own. */
    static ghost predicate InRow(s: seq<Sent>, n: int) {
      forall k :: 0 <= n < k < |s| && !s[k].fin && !s[k - 1].fin && !s[k - 1].syn ==>
        s[k].seqno == s[k - 1].seqno + s[k - 1].len
    }

    static lemma InRowGrows(s: seq<Sent>, n: int, p: Sent, at: int)
      requires InRow(s, n) && 0 <= n <= |s| && (p.fin || p.seqno == at)
      requires |s| > n && !s[|s| - 1].fin && !s[|s| - 1].syn ==> s[|s| - 1].seqno + s[|s| - 1].len == at
      ensures InRow(s + [p], n)
    {
    }

    /** Not held back: by the overhead that is simulated, nor by its timer unless sending is forced. */
    predicate Free(force: bool)
      reads this`delsndPending
    {
      !(c.overhead && !delsndPending) && (force || !delsndPending)
    }

    /** At most `budget` turns of the sending loop; the original's has no such bound. Sending goes on until the window or
    the data is used up, the burst is, or the next segment has no reason to go. */
    method SendMuch(force: bool, win: int, maxburst: nat, budget: nat)
      requires Inv()
      modifies this`state, this`tSeqno, this`maxseq, this`lastAckSent, this`ackNow, this`delAck, this`sentSyn, this`sentFin,
        this`rtxPending, this`rttActive, this`rttSeq, this`sent, this`delsndPending
      ensures Inv() && old(maxseq) <= maxseq && old(tSeqno) <= tSeqno
      ensures state == old(state) || (state == FinWait1 && closeOnEmpty && !Synchronizing(old(state)))
      ensures |sent| >= |old(sent)| && sent[..|old(sent)|] == old(sent) && Timed()
      ensures |sent| > |old(sent)| ==> sent[|old(sent)|].seqno <= old(tSeqno)
      ensures maxburst > 0 ==> |sent| <= |old(sent)| + maxburst
      ensures force && !(c.overhead && !old(delsndPending)) && old(ackNow) && budget > 0 ==> |sent| > |old(sent)|
      ensures old(Free(force)) && budget > 0 && (force || old(tSeqno) < Top(win)) && old(Goes(tSeqno, win)) ==>
                |sent| > |old(sent)| && sent[|old(sent)|] == old(Outgoing(tSeqno, win))
      ensures InRow(sent, |old(sent)|)
      ensures |sent| == |old(sent)| ==> delAck == old(delAck) && ackNow == old(ackNow)
      ensures old(Free(force)) && !Synchronizing(old(state)) && budget > 0 && budget > Top(win) - old(tSeqno) ==>
                || tSeqno >= Top(win) || !Goes(tSeqno, win)
                || (maxburst > 0 && |sent| == |old(sent)| + maxburst)
      ensures !old(Free(force)) ==> sent == old(sent) && state == old(state) && tSeqno == old(tSeqno) && maxseq == old(maxseq)
      ensures delsndPending <==> old(delsndPending) || (c.overhead && budget > 0 && (force || old(tSeqno) < Top(win)))
    {
      hide Below, Due, Emptying, FinDue, Outgoing, Made, NeedSend, Goes, InRow;
      var topwin := if curseq + c.iss > highestAck + win then highestAck + win else curseq + c.iss;
      InRowStarts(sent);
      if !force && delsndPending {
        return;
      }
      if c.overhead && !delsndPending {
        // the first turn of the loop, which is its last
        if budget > 0 && (force || tSeqno < topwin) {
          delsndPending := true;
        }
        return;
      }
      SendLoop(force, win, topwin, maxburst, budget);
    }

    /** The turns of the loop when nothing holds them back. */
    method SendLoop(force: bool, win: int, topwin: int, maxburst: nat, budget: nat)
      requires Inv() && topwin == Top(win)
      modifies this`state, this`tSeqno, this`maxseq, this`lastAckSent, this`ackNow, this`delAck, this`sentSyn, this`sentFin,
        this`rtxPending, this`rttActive, this`rttSeq, this`sent
      ensures Inv() && old(maxseq) <= maxseq && old(tSeqno) <= tSeqno
      ensures state == old(state) || (state == FinWait1 && closeOnEmpty && !Synchronizing(old(state)))
      ensures |sent| >= |old(sent)| && sent[..|old(sent)|] == old(sent) && Timed()
      ensures |sent| > |old(sent)| ==> sent[|old(sent)|].seqno <= old(tSeqno)
      ensures maxburst > 0 ==> |sent| <= |old(sent)| + maxburst
      ensures force && old(ackNow) && budget > 0 ==> |sent| > |old(sent)|
      ensures budget > 0 && (force || old(tSeqno) < topwin) && old(Goes(tSeqno, win)) ==>
                |sent| > |old(sent)| && sent[|old(sent)|] == old(Outgoing(tSeqno, win))
      ensures InRow(sent, |old(sent)|)
      ensures |sent| == |old(sent)| ==> delAck == old(delAck) && ackNow == old(ackNow)
      ensures !Synchronizing(old(state)) && budget > 0 && budget > topwin - old(tSeqno) ==>
                tSeqno >= topwin || !Goes(tSeqno, win) || (maxburst > 0 && |sent| == |old(sent)| + maxburst)
    {
      hide Below, Due, Emptying, FinDue, Outgoing, Made, NeedSend, Goes, Contiguous;
      ghost var was, first := |sent|, tSeqno;
      ContiguousStarts();
      var forced, npackets, turns := force, 0, budget;
      while turns > 0 && (forced || tSeqno < topwin)
        invariant Inv() && old(maxseq) <= maxseq && first <= tSeqno && Contiguous(was)
        invariant state == old(state) || (state == FinWait1 && closeOnEmpty && !Synchronizing(old(state)))
        invariant |sent| >= was && sent[..was] == old(sent) && |sent| <= was + npackets
        invariant |sent| > was ==> sent[was].seqno <= first
        invariant Timed()
        invariant maxburst > 0 ==> npackets < maxburst
        invariant turns == budget ==> forced == force && npackets == 0 && Untouched()
        invariant turns < budget ==> !forced && (old(ackNow) ==> |sent| > was)
        invariant turns < budget && old(Goes(tSeqno, win)) ==> |sent| > was && sent[was] == old(Outgoing(tSeqno, win))
        invariant turns < budget ==> Pace(first, was, budget - turns, npackets, win)
        invariant |sent| == was ==> tSeqno == first && delAck == old(delAck) && ackNow == old(ackNow)
        decreases turns
      {
        hide Below, Due, Emptying, FinDue, Outgoing, Made, NeedSend, Goes, Contiguous;
        turns := turns - 1;
        Turn(win, was);
        forced := false;
        npackets := npackets + 1;
        if OutFlags().1 || (maxburst > 0 && npackets >= maxburst) {
          break;
        }
      }
      ContiguousStarts();
    }

    static lemma InRowStarts(s: seq<Sent>)
      ensures InRow(s, |s|)
    {
    }

    /** What has been sent from the `was`-th segment on leaves no gap, and leads to tSeqno. */
    ghost predicate Contiguous(was: nat)
      reads this
    {
      && InRow(sent, was)
      && (|sent| > was && !Last().fin && !Last().syn ==> Last().seqno + Last().len == tSeqno)
    }

    /** While there is a reason to send, every turn sends, and every turn but the first gets on. */
    ghost predicate Pace(first: int, was: int, spent: int, npackets: int, win: int)
      reads this
    {
      !Synchronizing(state) && Goes(tSeqno, win) ==> tSeqno - first >= spent - 1 && |sent| - was == npackets
    }

    /** One turn of the sending loop: the segment due at tSeqno, if there is a reason for it. */
    method Turn(win: int, ghost was: nat)
      requires Inv() && Contiguous(was) && was <= |sent|
      modifies this`state, this`tSeqno, this`maxseq, this`lastAckSent, this`ackNow, this`delAck, this`sentSyn, this`sentFin,
        this`rtxPending, this`rttActive, this`rttSeq, this`sent
      ensures Inv() && Contiguous(was) && old(maxseq) <= maxseq && old(tSeqno) <= tSeqno && Timed()
      ensures state == old(state) || (state == FinWait1 && closeOnEmpty && !Synchronizing(old(state)))
      ensures old(Goes(tSeqno, win)) ==>
                && sent == old(sent) + [old(Outgoing(tSeqno, win))] && Last().seqno <= old(tSeqno)
                && (!Synchronizing(old(state)) && old(tSeqno) < Top(win) ==> tSeqno > old(tSeqno))
      ensures !old(Goes(tSeqno, win)) ==> sent == old(sent) && tSeqno == old(tSeqno) && !Goes(tSeqno, win)
      ensures !old(Goes(tSeqno, win)) ==> delAck == old(delAck) && ackNow == old(ackNow)
      ensures old(ackNow) ==> old(Goes(tSeqno, win))
    {
      hide Below, Due, Emptying, FinDue, Outgoing, Made, NeedSend, Goes, InRow, Max;
      ghost var at, before := tSeqno, sent;
      DueBelowTop(at, win);
      Output(tSeqno, win);
      if |sent| > |before| {
        InRowGrows(before, was, Last(), at);
      }
    }

    /** Nothing has been sent yet. */
    twostate predicate Untouched()
      reads this
    {
      && ackNow == old(ackNow) && sent == old(sent) && state == old(state) && tSeqno == old(tSeqno)
      && maxseq == old(maxseq) && rcvNxt == old(rcvNxt) && lastAckSent == old(lastAckSent) && sentFin == old(sentFin)
      && sentSyn == old(sentSyn)
    }

    lemma ContiguousStarts()
      ensures Contiguous(|sent|)
      ensures forall n: nat :: Contiguous(n) ==> InRow(sent, n)
    {
    }

    lemma DueBelowTop(seqno: int, win: int)
      requires c.maxseg > 0
      ensures !Synchronizing(state) && seqno < Top(win) ==> Due(seqno, win) > 0
      ensures Outgoing(seqno, win).len == Due(seqno, win) && (Outgoing(seqno, win).syn <==> Synchronizing(state))
    {
    }

    /** Advance the acknowledgement, and what is to be sent next if it lies behind. */
    method NewAck(ackno: int)
      modifies this`highestAck, this`tSeqno, this`rtxPending, this`rttActive
      ensures highestAck == (if ackno > old(highestAck) then ackno else old(highestAck))
      ensures tSeqno == (if old(tSeqno) < highestAck then highestAck else old(tSeqno))
      ensures old(Inv()) && state != Listen ==> (Inv() <==> ackno <= maxseq)
      // the timer goes on, or starts, exactly while something sent is outstanding
      ensures rtxPending == (ackno < maxseq && (ackno > old(highestAck) || old(rtxPending)))
      ensures rttActive == (old(rttActive) && ackno < rttSeq)
    {
      if rttActive && ackno >= rttSeq {
        rttActive := false;
      }
      if ackno >= maxseq {
        rtxPending := false;
      } else if ackno > highestAck {
        rtxPending := true;
      }
      if ackno > highestAck {
        highestAck := ackno;
      }
      if tSeqno < highestAck {
        tSeqno := highestAck;
      }
    }

    /** The segment from `seqno` takes more new numbers than lie between tSeqno and maxseq, and ends before it would
    if it had been sent from tSeqno. */
    predicate Overshoots(seqno: int, win: int)
      reads this
    {
      var p := Outgoing(seqno, win);
      var n := Takes(p, sentSyn, sentFin);
      n > maxseq - tSeqno && End(p) < tSeqno + n
    }

    lemma OvershotIsSent(seqno: int, win: int)
      requires Inv() && seqno <= tSeqno
      ensures var p := Outgoing(seqno, win);
        && 0 <= p.len == Due(seqno, win) && p.seqno <= seqno && p.seqno + p.len <= End(p)
        && Takes(p, sentSyn, sentFin) >= p.len
        && (Overshoots(seqno, win) <==>
              Takes(p, sentSyn, sentFin) > maxseq - tSeqno && End(p) < tSeqno + Takes(p, sentSyn, sentFin))
      ensures Overshoots(seqno, win) ==> FinDue(seqno, win) || Synchronizing(state) || (Due(seqno, win) > 0 && seqno < maxseq)
    {
      hide Due, Emptying, FinDue, Below;
    }

    /** Send one segment from the acknowledgement on, and go back to where sending was. What that segment adds to
    tSeqno is added to maxseq, which passes everything sent exactly if the segment overshoots. Data sent again when
    sending has reached its end always does. */
    method FastRetransmit(seqno: int, win: int)
      requires Inv() && seqno <= tSeqno && state != Listen
      modifies this`state, this`tSeqno, this`maxseq, this`lastAckSent, this`ackNow, this`delAck, this`sentSyn, this`sentFin,
        this`rtxPending, this`rttActive, this`rttSeq, this`sent,
        this`recover, this`recoverCause
      ensures Inv() && recover == old(maxseq) && tSeqno == old(tSeqno)
      ensures state == old(state) || (state == FinWait1 && closeOnEmpty && !Synchronizing(old(state)))
      ensures recoverCause == DupAck
      ensures sent == old(sent) ==> maxseq == old(maxseq) && rtxPending == old(rtxPending) && rttActive == old(rttActive)
      ensures sent == old(sent) || |sent| == |old(sent)| + 1
      ensures |sent| > |old(sent)| <==> old(Goes(seqno, win))
      ensures |sent| > |old(sent)| && tSeqno > highestAck ==> rtxPending
      ensures |sent| > |old(sent)| ==>
                var p := Last();
                && p == old(Outgoing(seqno, win)) && sent == old(sent) + [p] && Sends(p, seqno, win)
                && maxseq == Max(old(maxseq), old(tSeqno) + Takes(p, old(sentSyn), old(sentFin)))
      ensures old(Overshoots(seqno, win)) <==> |sent| > |old(sent)| && maxseq > Max(old(maxseq), End(Last()))
      ensures old(Overshoots(seqno, win)) ==> Below(sent, maxseq - 1)
      ensures var n := old(Due(seqno, win));
              !Synchronizing(old(state)) && seqno < old(tSeqno) == old(maxseq) && n > 0 && seqno + n <= old(maxseq) ==>
                |sent| > |old(sent)| && maxseq >= old(maxseq) + n && Below(sent, old(maxseq))
      ensures old(maxseq) <= maxseq
    {
      hide Below, Due, Emptying, FinDue, Outgoing, Made;
      OvershotIsSent(seqno, win);
      ghost var p, was := Outgoing(seqno, win), sent;
      hide Sends, NeedSend, Goes, Overshoots, End, Max, Takes;
      recover, recoverCause := maxseq, DupAck;
      SendBehind(seqno, win);
      if |sent| > |was| {
        Overshot(was, p, recover, tSeqno, Takes(p, old(sentSyn), old(sentFin)));
      }
    }

    /** Send from `seqno` on, and go back to where sending was. */
    method SendBehind(seqno: int, win: int)
      requires Inv() && seqno <= tSeqno && state != Listen
      modifies this`state, this`tSeqno, this`maxseq, this`lastAckSent, this`ackNow, this`delAck, this`sentSyn, this`sentFin,
        this`rtxPending, this`rttActive, this`rttSeq, this`sent
      ensures Inv() && tSeqno == old(tSeqno) && old(maxseq) <= maxseq
      ensures state == old(state) || (state == FinWait1 && closeOnEmpty && !Synchronizing(old(state)))
      ensures |sent| > |old(sent)| <==> old(Goes(seqno, win))
      ensures sent == old(sent) || |sent| == |old(sent)| + 1
      ensures sent == old(sent) ==> maxseq == old(maxseq) && rtxPending == old(rtxPending) && rttActive == old(rttActive)
      ensures |sent| > |old(sent)| ==>
                var p := Last();
                && p == old(Outgoing(seqno, win)) && sent == old(sent) + [p] && Sends(p, seqno, win)
                && maxseq == Max(old(maxseq), old(tSeqno) + Takes(p, old(sentSyn), old(sentFin)))
                && (tSeqno > highestAck ==> rtxPending)
    {
      hide Below, Due, Emptying, FinDue, Outgoing, Made, NeedSend, Goes, Overshoots, End;
      OvershotIsSent(seqno, win);
      var onxt := tSeqno;
      Output(seqno, win);
      tSeqno := onxt;
    }

    /** The three timers. A retransmission goes back to the first number not acknowledged. */
    method TimeoutRtx(win: int, budget: nat)
      requires Inv()
      modifies this
      ensures Inv() && Onward() && highestAck == old(highestAck)
      ensures state == old(state) || state == FinWait1
      ensures old(state) != Closed && old(state) != Listen && budget > 0 && old(ackNow) && !c.overhead ==>
                |sent| > |old(sent)| && sent[|old(sent)|].seqno <= highestAck
      ensures old(state) != Closed && old(state) != Listen ==>
                recover == old(maxseq) && recoverCause == Timeout && dupacks == 0 && rtxPending
      ensures old(state) != Closed && old(state) != Listen && maxseq == old(maxseq) ==> !rttActive
      // what has not been acknowledged is sent again, from its first number
      ensures old(state) != Closed && old(state) != Listen && budget > 0 && !c.overhead && highestAck < old(maxseq)
              && old(Due(highestAck, win)) > 0 ==>
                && |sent| > |old(sent)| && sent[|old(sent)|].seqno == highestAck
                && sent[|old(sent)|].len == old(Due(highestAck, win))
    {
      if state == Closed || state == Listen {
        return;
      }
      recover, recoverCause := maxseq, Timeout;
      rtxPending, rttActive := true, false;
      tSeqno := highestAck;
      dupacks := 0;
      SendMuch(true, win, 0, budget);
    }

    /** A send that was put off is made now; with overhead simulated it is only put off again, as the timer that has just
    gone off is not pending. */
    method TimeoutDelsnd(win: int, budget: nat)
      requires Inv()
      modifies this
      ensures Inv() && Onward() && highestAck == old(highestAck)
      ensures old(state) != Closed && old(state) != Listen && budget > 0 && !c.overhead && old(Goes(tSeqno, win)) ==>
                |sent| > |old(sent)| && sent[|old(sent)|] == old(Outgoing(tSeqno, win))
      ensures old(state) != Closed && old(state) != Listen && budget > 0 && c.overhead ==> sent == old(sent) && delsndPending
    {
      if state == Closed || state == Listen {
        return;
      }
      delsndPending := false;
      SendMuch(true, win, 0, budget);
    }

    /** A delayed acknowledgement is sent now. */
    method TimeoutDelack(win: int, budget: nat)
      requires Inv()
      modifies this
      ensures Inv() && Onward() && highestAck == old(highestAck)
      ensures old(state) != Closed && old(state) != Listen && old(delAck) && !c.overhead && budget > 0 ==>
                |sent| > |old(sent)| && sent[|old(sent)|].ackno == old(rcvNxt)
    {
      if state == Closed || state == Listen {
        return;
      }
      if delAck {
        delAck, ackNow := false, true;
        SendMuch(true, win, 0, budget);
      }
    }

    method Connect(win: int)
      requires Inv() && state == Closed
      modifies this
      ensures Inv() && Onward() && highestAck == old(highestAck)
      ensures state == SynSent && sentSyn && sentFin == old(sentFin) && closeOnEmpty == old(closeOnEmpty)
      ensures tSeqno == old(tSeqno) + (if old(sentSyn) then 0 else 1) && maxseq == Max(old(maxseq), tSeqno)
      ensures curseq == if c.dataOnSyn then old(curseq) else old(curseq) + 1
      ensures |sent| == |old(sent)| + 1 && sent[..|old(sent)|] == old(sent)
      ensures Last().seqno == c.iss && Last().syn && !Last().fin && Last().len == 0
    {
      state := SynSent;
      if !c.dataOnSyn {
        var cur := curseq;
        curseq := c.iss;
        Output(c.iss, win);
        curseq := cur + 1;
        return;
      }
      Output(c.iss, win);
    }

    /** advance(np): more packets from the application. */
    method Advance(np: int, win: int, budget: nat)
      requires Inv()
      modifies this
      ensures Inv() && Onward() && highestAck == old(highestAck)
      ensures Rank(old(state)) > Rank(Established) ==> sent == old(sent) && state == old(state)
      ensures old(state) != Closed ==>
                curseq == old(curseq) + (if np >= 0x10000000 then np / c.maxseg else np) * c.maxseg
      // on an open connection, all of it that the window takes
      ensures (old(state) == Established && !c.overhead && !old(delsndPending) && budget > 0
               && budget > Top(win) - old(tSeqno)) ==> tSeqno >= Top(win) || !Goes(tSeqno, win)
    {
      var n := np;
      if n >= 0x10000000 {
        n := n / c.maxseg;
      }
      curseq := curseq + n * c.maxseg;
      if Rank(state) > Rank(Established) {
        return;
      }
      if state == Closed {
        Connect(win);
      } else if state == Established {
        SendMuch(false, win, 0, budget);
      }
    }

    /** advance(n, close_flag): bytes for a new connection, or more for an open one. */
    method AdvanceBytes(n: int, close: bool, win: int) returns (ok: bool)
      requires c.maxseg > 0 && c.iss >= 0 && (state == Closed || Inv())
      modifies this
      ensures Inv()
      ensures ok <==> old(state) == Closed || old(state) == Established
      ensures old(state) != Closed ==> sent == old(sent) && Onward() && state == old(state)
      ensures old(state) != Closed ==> curseq == old(curseq) + (if ok then n else 0) && closeOnEmpty == close
      ensures old(state) == Closed ==>
                && state == SynSent && highestAck == 0 && tSeqno == maxseq == c.iss + 1 && sentSyn && !sentFin
                && curseq == c.iss + n + (if c.dataOnSyn then 0 else 1) && closeOnEmpty == close
                && |sent| == 1 && Last().seqno == c.iss && Last().syn && !Last().fin && Last().len == 0
    {
      closeOnEmpty := close;
      if Rank(state) > Rank(Established) {
        return false;
      } else if state == Closed {
        curseq := c.iss + n;
        Reinit();
        Connect(win);
      } else if state == Established {
        curseq := curseq + n;
      } else {
        return false;
      }
      return true;
    }

    /** listen: a passive open changes nothing but the state. */
    method StartListening()
      modifies this`state
      ensures state == Listen && highestAck == old(highestAck) && tSeqno == old(tSeqno) && maxseq == old(maxseq)
      ensures old(Inv()) ==> (Inv() <==> highestAck <= c.iss)
    {
      state := Listen;
    }

    /** close: an open connection ends with a FIN, at once if all data has been sent. */
    method UserClosed(win: int, budget: nat)
      requires Inv()
      modifies this
      ensures Inv() && Onward() && highestAck == old(highestAck)
      ensures state == match old(state)
                       case Closed | Listen | SynSent => Closed
                       case SynReceived | Established => FinWait1
                       case _ => old(state)
      ensures (old(state) == SynReceived || old(state) == Established) && !c.overhead && budget > 0
              && old(tSeqno) >= old(curseq) + c.iss ==>
                |sent| > |old(sent)| && sent[|old(sent)|].fin && sent[|old(sent)|].len == 0
    {
      match state
      case Closed | Listen | SynSent =>
        state := Closed;
      case SynReceived | Established =>
        state := FinWait1;
        SendMuch(true, win, 0, budget);
      case _ =>
    }

    // ---------- recv ----------

    /** A SYN for a listening agent starts sending at the initial number, wherever the acknowledgements stand. */
    method RecvListen(seg: Segment) returns (next: Next)
      requires state == Listen && highestAck <= tSeqno <= maxseq && c.iss <= maxseq
      modifies this
      ensures next == Step6 ==> (highestAck <= tSeqno <= maxseq <==> old(highestAck) <= c.iss)
      ensures old(Inv()) ==> Inv()
      ensures Onward() && highestAck == old(highestAck) && maxseq == old(maxseq) && sent == old(sent)
      ensures next == Step6 <==> seg.syn && !seg.ack
      ensures next == Step6 ==> state == SynReceived && ackNow && tSeqno == c.iss && rcvNxt == seg.seqno + 1
      ensures next == Step6 ==> switchSpaThresh == seg.seqno + 1 + SPA_WINDOW
      ensures next != Step6 ==> next == Drop && state == Listen && tSeqno == old(tSeqno)
    {
      if seg.ack || !seg.syn {
        return Drop;
      }
      ackNow := true;
      state := SynReceived;
      rcvNxt := seg.seqno + 1;
      tSeqno := c.iss;
      switchSpaThresh := rcvNxt + SPA_WINDOW;
      return Step6;
    }

    method RecvSynSent(seg: Segment) returns (next: Next)
      requires Inv() && state == SynSent
      modifies this`state, this`rcvNxt, this`switchSpaThresh, this`rtxPending, this`ackNow, this`highestAck, this`tSeqno,
        this`rttActive
      ensures Inv() && Onward() && maxseq == old(maxseq) && sent == old(sent)
      ensures next == Step6 <==> seg.syn && !(seg.ack && seg.ackno > maxseq)
      ensures next == Step6 ==> state == (if seg.ack then Established else SynReceived) && rcvNxt == seg.seqno + 1
      ensures next == Step6 ==> ackNow && switchSpaThresh == seg.seqno + 1 + SPA_WINDOW
      ensures next == Step6 ==> rtxPending == (seg.ack && old(highestAck) < seg.ackno < maxseq)
      ensures highestAck == if next == Step6 && seg.ack && seg.ackno > old(highestAck) then seg.ackno else old(highestAck)
      ensures next != Step6 ==> next == Drop && state == SynSent
    {
      if (seg.ack && seg.ackno > maxseq) || !seg.syn {
        return Drop;
      }
      rcvNxt := seg.seqno + 1;
      switchSpaThresh := rcvNxt + SPA_WINDOW;
      rtxPending := false;
      ackNow := true;
      if seg.ack {
        NewAck(seg.ackno);
        state := Established;
      } else {
        state := SynReceived;
      }
      return Step6;
    }

    /** The trimming of old data, in every other state; `seg'` is what is left of the segment. */
    method Trim(seg: Segment) returns (next: Next, seg': Segment, dupseg: bool)
      requires Inv() && state != Listen
      modifies this`tSeqno, this`ackNow
      ensures Inv()
      ensures seg'.ackno == seg.ackno && seg'.ack == seg.ack
      ensures next == Step6 <==> seg.ack && (seg.syn ==> rcvNxt > seg.seqno)
      ensures next == DropAfterAck ==> seg.syn && !seg.ack
      ensures dupseg ==> seg'.datalen == 0 && !seg'.fin && ackNow
      ensures tSeqno == if seg.syn && rcvNxt > seg.seqno then highestAck else old(tSeqno)
      ensures rcvNxt <= seg.seqno ==> seg' == seg && !dupseg && ackNow == old(ackNow)
      // what is left ends where the segment ended and starts no earlier than the next byte expected, unless it is all old
      ensures rcvNxt > seg.seqno && next == Step6 ==>
                && seg'.seqno + seg'.datalen == seg.seqno + seg.datalen
                && seg'.datalen == Max(0, seg.seqno + seg.datalen - rcvNxt)
                && (dupseg <==> rcvNxt > seg.seqno + seg.datalen || (rcvNxt == seg.seqno + seg.datalen && !seg.fin))
                && seg'.fin == (seg.fin && !dupseg)
    {
      next, seg', dupseg := Step6, seg, false;
      var todrop := rcvNxt - seg.seqno;
      if todrop > 0 {
        if seg.syn {
          tSeqno := highestAck;
          if !seg.ack {
            return DropAfterAck, seg, false;
          }
          seg' := seg'.(syn := false);
        }
        if todrop > seg.datalen || (todrop == seg.datalen && !seg.fin) {
          seg' := seg'.(fin := false);
          ackNow := true;
          todrop := seg.datalen;
          dupseg := true;
        }
        seg' := seg'.(seqno := seg'.seqno + todrop, datalen := seg'.datalen - todrop);
      }
      if seg'.syn {
        return Drop, seg', dupseg;
      }
      if !seg'.ack {
        next := Drop;
      }
    }

    /** Nothing has been sent, and nothing that decides on sending has changed but the acknowledgement. */
    twostate predicate Calm()
      reads this
    {
      && sent == old(sent) && ackNow == old(ackNow) && delsndPending == old(delsndPending) && maxseq == old(maxseq)
      && lastAckSent == old(lastAckSent) && switchSpaThresh == old(switchSpaThresh) && sentFin == old(sentFin)
    }

    /** The ACK part, in the states that have one. Only an acknowledgement of something sent is accepted. */
    method RecvAck(seg: Segment, dupseg: bool, win: int, budget: nat) returns (next: Next, needOutput: bool)
      requires Inv() && state != Listen && state != SynSent
      modifies this
      ensures Inv() && Onward() && curseq == old(curseq) && rcvNxt == old(rcvNxt) && closeOnEmpty == old(closeOnEmpty)
      ensures state != Listen && state != SynSent
      ensures highestAck ==
              if old(state) != Closed && old(highestAck) < seg.ackno <= old(maxseq) then seg.ackno else old(highestAck)
      ensures next == DropAfterAck ==> seg.ackno > old(maxseq)
      ensures old(state) == Closed ==> next == Step6 && state == Closed
      ensures old(state) == SynReceived ==>
                if old(highestAck) <= seg.ackno <= old(maxseq) then state == Established || state == FinWait1
                else next == Drop && state == SynReceived
      // news: the duplicates are forgotten, and an acknowledgement of everything moves a closing connection on
      ensures old(state) != Closed && old(state) != SynReceived && seg.ackno > old(highestAck) ==> dupacks == 0
      ensures old(state) != Closed && old(state) != SynReceived && old(highestAck) < seg.ackno <= old(maxseq) ==>
                var ours := seg.ackno >= curseq + c.iss;
                && next == (if old(state) == LastAck && ours then Drop else Step6)
                && state == (if !ours then old(state) else match old(state)
                                                           case FinWait1 => FinWait2
                                                           case Closing | LastAck => Closed
                                                           case _ => old(state))
                && needOutput == (state == Established && seg.ackno < maxseq)
                && rtxPending == (seg.ackno < maxseq)
      ensures old(state) != Closed && old(state) != SynReceived && seg.ackno > old(maxseq) ==>
                next == DropAfterAck && Calm() && state == old(state) && tSeqno == old(tSeqno)
      // no news: counted, if it counts, and dropped from the threshold on
      ensures old(state) != Closed && old(state) != SynReceived && seg.ackno <= old(highestAck) ==>
                && !needOutput && dupacks == old(Duplicates(seg, dupseg))
                && (next == Drop <==> old(Counts(seg, dupseg)) && dupacks >= c.rexmtThresh)
      ensures old(state) != Closed && old(state) != SynReceived && seg.ackno <= old(highestAck)
              && old(Counts(seg, dupseg)) && dupacks == c.rexmtThresh ==>
                recover == old(maxseq) && recoverCause == DupAck && tSeqno == old(tSeqno)
      // news or data on an open connection: on to the rest
      ensures old(state) == Established && seg.ackno <= old(maxseq) && (seg.ackno > old(highestAck) || seg.datalen > 0) ==>
                next == Step6 && state == Established && Calm() && tSeqno == Max(old(tSeqno), highestAck)
    {
      hide Below, Rank;
      next, needOutput := Step6, false;
      if state == SynReceived {
        if seg.ackno < highestAck || seg.ackno > maxseq {
          return Drop, false;
        }
        state := Established;
      }
      if state == Closed {
        return;
      }
      if seg.ackno <= highestAck {
        next := DuplicateAck(seg, dupseg, win, budget);
        return;
      }
      dupacks := 0;
      if seg.ackno > maxseq {
        return DropAfterAck, false;
      }
      NewAck(seg.ackno);
      needOutput := state == Established && seg.ackno < maxseq;
      if state == FinWait1 || state == FinWait2 || state == LastAck || state == Closing {
        next := FinAcked(seg.ackno >= curseq + c.iss);
      }
    }

    /** The states past a FIN of our own. */
    method FinAcked(ours: bool) returns (next: Next)
      requires Inv() && (state == FinWait1 || state == FinWait2 || state == LastAck || state == Closing)
      modifies this`state
      ensures Inv() && next == (if old(state) == LastAck && ours then Drop else Step6)
      ensures state == match old(state)
                       case FinWait1 => if ours then FinWait2 else FinWait1
                       case Closing | LastAck => if ours then Closed else old(state)
                       case _ => old(state)
    {
      next := Step6;
      match state
      case FinWait1 =>
        if ours {
          state := FinWait2;
        }
      case Closing =>
        if ours {
          state := Closed;
        }
      case LastAck =>
        if ours {
          state := Closed;
          next := Drop;
        }
      case _ =>
    }

    /** Whether an acknowledgement of nothing new counts as a duplicate: no data in it, something outstanding, and not
    after a timeout that has already gone back there. */
    predicate Counts(seg: Segment, dupseg: bool)
      reads this`rtxPending, this`highestAck, this`recover, this`recoverCause
    {
      && seg.datalen == 0 && (!c.dupsegFix || !dupseg) && rtxPending && seg.ackno == highestAck
      && !(c.bugFix && highestAck == recover && recoverCause == Timeout)
    }

    /** How many duplicates there are then: one that does not count starts again, but for data, unless that is wanted. */
    function Duplicates(seg: Segment, dupseg: bool): int
      reads this`rtxPending, this`highestAck, this`recover, this`recoverCause, this`dupacks
    {
      if Counts(seg, dupseg) then dupacks + 1
      else if (seg.datalen == 0 && (!c.dupsegFix || !dupseg)) || c.dupackReset then 0
      else dupacks
    }

    /** An acknowledgement that acknowledges nothing new. */
    method DuplicateAck(seg: Segment, dupseg: bool, win: int, budget: nat) returns (next: Next)
      requires Inv() && seg.ackno <= highestAck && !Synchronizing(state) && state != Listen && state != Closed
      modifies this`state, this`tSeqno, this`maxseq, this`lastAckSent, this`ackNow, this`delAck, this`sentSyn, this`sentFin,
        this`rtxPending, this`rttActive, this`rttSeq, this`sent,
        this`recover, this`recoverCause, this`delsndPending, this`dupacks
      ensures Inv() && Onward() && (state == old(state) || state == FinWait1)
      ensures next == Step6 || next == Drop
      ensures dupacks == old(Duplicates(seg, dupseg))
      // the duplicate that reaches the threshold retransmits, and puts sending back where it was
      ensures var counts := old(Counts(seg, dupseg));
        && (counts && dupacks == c.rexmtThresh ==> next == Drop && tSeqno == old(tSeqno) && recover == old(maxseq))
        && (counts && dupacks == c.rexmtThresh ==> recoverCause == DupAck)
        && (counts && dupacks == c.rexmtThresh && |sent| == |old(sent)| ==> !rtxPending && !rttActive)
        && (counts && dupacks == c.rexmtThresh && old(Goes(seg.ackno, win)) ==>
              sent == old(sent) + [old(Outgoing(seg.ackno, win))] && (tSeqno > highestAck ==> rtxPending))
        && (next == Drop <==> counts && dupacks >= c.rexmtThresh)
        && (!counts ==> Calm() && state == old(state) && tSeqno == old(tSeqno))
        && (counts && dupacks < c.rexmtThresh ==> Calm() && state == old(state) && tSeqno == old(tSeqno))
    {
      hide Below, Due, Emptying, FinDue, Outgoing, NeedSend, Goes, Overshoots, Takes, End, Max, InRow, Sends;
      next := Step6;
      if seg.datalen == 0 && (!c.dupsegFix || !dupseg) {
        if !rtxPending || seg.ackno != highestAck {
          dupacks := 0;
        } else if c.bugFix && highestAck == recover && recoverCause == Timeout {
          dupacks := 0;
        } else {
          dupacks := dupacks + 1;
          if dupacks == c.rexmtThresh {
            rtxPending, rttActive := false, false;
            FastRetransmit(seg.ackno, win);
            return Drop;
          } else if dupacks > c.rexmtThresh {
            SendMuch(false, win, 0, budget);
            return Drop;
          }
        }
      } else if c.dupackReset {
        dupacks := 0;
      }
    }

    /** From step6 on: the data, the FIN, what is to be sent, and the end of the connection. */
    method Finish(seg: Segment, d: Delivery, needOutput: bool, win: int, budget: nat)
      requires Inv() && state != Listen && state != SynSent && c.iss >= 0
      modifies this
      ensures Inv()
      ensures state != Listen ==> Onward() && highestAck == old(highestAck)
      ensures state == Listen ==> old(state) == Closed || old(state) == FinWait2
      ensures state == Listen ==> highestAck == 0 && tSeqno == maxseq == c.iss && sent == [] && curseq == c.iss
      // data in order: acknowledged now, if enough is, and otherwise later
      ensures old(state) == Established && seg.datalen > 0 && d.direct && !d.fin ==> |sent| > |old(sent)| || delAck
      ensures old(state) == Established && seg.datalen > 0 && d.direct && !d.fin && !c.overhead && budget > 0
              && d.next - old(lastAckSent) >= (if d.next < old(switchSpaThresh) then 1 else c.segsPerAck * c.maxseg) ==>
                |sent| > |old(sent)| && sent[|old(sent)|].ackno == d.next
      // nothing received: what may be sent is
      ensures old(state) == Established && seg.datalen == 0 && !seg.fin && !c.overhead && !old(delsndPending) && budget > 0
              && old(tSeqno) < old(Top(win)) && old(Goes(tSeqno, win)) ==>
                |sent| > |old(sent)| && sent[|old(sent)|] == old(Outgoing(tSeqno, win))
      // out of order, or the end: acknowledged at once
      ensures old(state) == Established && (seg.datalen > 0 || seg.fin) && ((!d.direct && !d.push) || d.fin)
              && !c.overhead && budget > 0 ==>
                |sent| > |old(sent)| && sent[|old(sent)|].ackno == d.next
    {
      hide Below;
      var need, fin := TakeData(seg, d, needOutput);
      if fin {
        ackNow := true;
        PeerClosed();
      }
      hide Due, Emptying, FinDue, Outgoing, NeedSend, Goes, InRow, Takes;
      Respond(need, win, budget);
      if state == Closed && closeOnEmpty {
        Reinit();
        curseq := c.iss;
        state := Listen;
      }
    }

    lemma AckIsDue(win: int)
      ensures ackNow || NeedSend() ==> Goes(tSeqno, win)
      ensures Outgoing(tSeqno, win).ackno == rcvNxt
    {
    }

    /** What is due is sent: forced for an acknowledgement, otherwise as far as the window takes. */
    method Respond(need: bool, win: int, budget: nat)
      requires Inv()
      modifies this`state, this`tSeqno, this`maxseq, this`lastAckSent, this`ackNow, this`delAck, this`sentSyn, this`sentFin,
        this`rtxPending, this`rttActive, this`rttSeq, this`sent, this`delsndPending
      ensures Inv() && old(maxseq) <= maxseq
      ensures state == old(state) || (state == FinWait1 && closeOnEmpty && !Synchronizing(old(state)))
      ensures !c.overhead && !old(delsndPending) && budget > 0 && old(tSeqno) < Top(win) && old(Goes(tSeqno, win)) ==>
                |sent| > |old(sent)| && sent[|old(sent)|] == old(Outgoing(tSeqno, win))
      ensures !c.overhead && budget > 0 && (old(ackNow) || (need && old(NeedSend()))) ==>
                |sent| > |old(sent)| && sent[|old(sent)|].ackno == rcvNxt
      ensures |sent| >= |old(sent)| && (|sent| == |old(sent)| ==> delAck == old(delAck))
    {
      AckIsDue(win);
      hide Below, Due, Emptying, FinDue, Goes, InRow, Takes;
      if need || ackNow {
        SendMuch(true, win, 0, budget);
      } else if curseq + c.iss > highestAck {
        SendMuch(false, win, 0, budget);
      }
    }

    /** The data part: the direct path delays its acknowledgement, the reassembly queue asks for one at once, unless
    it has data to push. */
    method TakeData(seg: Segment, d: Delivery, needOutput: bool) returns (need: bool, fin: bool)
      modifies this`rcvNxt, this`delAck, this`ackNow, this`switchSpaThresh
      ensures seg.datalen == 0 && !seg.fin ==>
                && rcvNxt == old(rcvNxt) && need == needOutput && !fin && ackNow == old(ackNow)
                && switchSpaThresh == old(switchSpaThresh)
      ensures seg.datalen > 0 || seg.fin ==> rcvNxt == d.next && fin == d.fin
      ensures (seg.datalen > 0 || seg.fin) && !d.direct && !d.push ==> ackNow && need == needOutput
      ensures (seg.datalen > 0 || seg.fin) && d.direct ==> delAck && switchSpaThresh == old(switchSpaThresh)
      ensures (seg.datalen > 0 || seg.fin) && !d.direct ==> switchSpaThresh == rcvNxt + SPA_WINDOW && delAck == old(delAck)
      ensures (seg.datalen > 0 || seg.fin) && (d.direct || d.push) ==>
                (need <==> ackNow || d.next - lastAckSent >= (if d.next < old(switchSpaThresh) then 1 else c.segsPerAck * c.maxseg))
      ensures (seg.datalen > 0 || seg.fin) && (d.direct || d.push) ==> ackNow == old(ackNow)
    {
      need, fin := needOutput, seg.fin;
      if seg.datalen > 0 || seg.fin {
        rcvNxt := d.next;
        fin := d.fin;
        if d.direct {
          delAck := true;
          need := NeedSend();
        } else {
          if d.push {
            need := NeedSend();
          } else {
            ackNow := true;
          }
          switchSpaThresh := rcvNxt + SPA_WINDOW;
        }
      }
    }

    method PeerClosed()
      modifies this`state, this`rtxPending
      ensures state == match old(state)
                       case SynReceived | Established => LastAck
                       case FinWait1 => Closing
                       case FinWait2 => Closed
                       case _ => old(state)
      ensures rtxPending == (old(rtxPending) && old(state) != FinWait2)
    {
      match state
      case SynReceived | Established => state := LastAck;
      case FinWait1 => state := Closing;
      case FinWait2 =>
        state := Closed;
        rtxPending := false;
      case _ =>
    }

    /** recv. Whatever arrives, the variables stay in order; acknowledgements grow, and only up to something sent;
    unless the connection has ended and the agent has started to listen for the next. */
    method Recv(seg: Segment, d: Delivery, win: int, budget: nat)
      requires Inv() && c.iss >= 0
      modifies this
      ensures Inv()
      ensures state == Listen && old(state) != Listen ==> highestAck == 0 && tSeqno == maxseq == c.iss && sent == []
      ensures !(state == Listen && old(state) != Listen) ==>
                Onward() && (highestAck == old(highestAck) || highestAck == seg.ackno <= old(maxseq))
      ensures seg.ackno > old(maxseq) && state != Listen ==> highestAck == old(highestAck)
      // an acknowledgement of new data on an open connection that has sent all it had is answered by the next segment
      ensures var n := Min(old(curseq) + c.iss, seg.ackno + win) - old(maxseq);
              && old(state) == Established && !c.overhead && !old(delsndPending) && budget > 0
              && old(highestAck) < seg.ackno <= old(maxseq) == old(tSeqno) && !old(sentFin)
              && seg.ack && !seg.syn && !seg.fin && seg.datalen == 0 && seg.seqno >= old(rcvNxt)
              && n > 0 && (n >= c.maxseg || old(curseq) + c.iss <= seg.ackno + win) ==>
                && |sent| > |old(sent)| && sent[|old(sent)|].seqno == old(maxseq)
                && sent[|old(sent)|].len == Min(n, c.maxseg) && sent[|old(sent)|].ackno == old(rcvNxt)
      // so is one of what was never sent, by an acknowledgement of what has come
      ensures old(state) == Established && !c.overhead && budget > 0 && seg.ack && !seg.syn && seg.seqno >= old(rcvNxt)
              && seg.ackno > old(maxseq) ==>
                |sent| > |old(sent)| && sent[|old(sent)|].ackno == old(rcvNxt)
      // data in order is acknowledged now, if enough has come since the last time, and otherwise later
      ensures old(state) == Established && seg.ack && !seg.syn && seg.seqno >= old(rcvNxt) && seg.ackno <= old(maxseq)
              && seg.datalen > 0 && d.direct && !d.fin ==>
                && (|sent| > |old(sent)| || delAck)
                && (!c.overhead && budget > 0
                    && d.next - old(lastAckSent) >= (if d.next < old(switchSpaThresh) then 1 else c.segsPerAck * c.maxseg)
                    ==> |sent| > |old(sent)| && sent[|old(sent)|].ackno == d.next)
      // data out of order, and the end of the stream, are acknowledged at once
      ensures old(state) == Established && !c.overhead && budget > 0 && seg.ack && !seg.syn && seg.seqno >= old(rcvNxt)
              && seg.datalen > 0 && ((!d.direct && !d.push) || d.fin) && seg.ackno <= old(maxseq) ==>
                |sent| > |old(sent)| && sent[|old(sent)|].ackno == d.next
    {
      hide Below, Due, Emptying, FinDue, Outgoing, NeedSend, Goes, InRow, Takes, Sends;
      var next, left, needOutput := Examine(seg, win, budget);
      ghost var n := Top(win) - tSeqno;
      match next
      case Step6 =>
        if state == Established && tSeqno == maxseq && !sentFin && n > 0
           && (n >= c.maxseg || curseq + c.iss <= highestAck + win) {
          NextIsDue(win);
        }
        Finish(left, d, needOutput, win, budget);
      case DropAfterAck =>
        ackNow := true;
        AckIsDue(win);
        SendMuch(true, win, 0, budget);
      case Drop =>
    }

    /** What is next: a full segment, or all that is left. */
    lemma NextIsDue(win: int)
      requires Inv() && state == Established && tSeqno == maxseq && !sentFin && Top(win) > tSeqno
      requires Top(win) - tSeqno >= c.maxseg || curseq + c.iss <= highestAck + win
      ensures Goes(tSeqno, win) && Outgoing(tSeqno, win).seqno == tSeqno && Outgoing(tSeqno, win).ackno == rcvNxt
      ensures Outgoing(tSeqno, win).len == Min(Top(win) - tSeqno, c.maxseg)
    {
      hide Below, NeedSend;
    }

    /** The first part of recv, up to the data: what is left of the segment, and where to go on with it. */
    method Examine(seg: Segment, win: int, budget: nat) returns (next: Next, left: Segment, needOutput: bool)
      requires Inv()
      modifies this
      ensures Inv() && Onward() && (state == Listen ==> old(state) == Listen) && (next == Step6 ==> state != Listen && state != SynSent)
      ensures old(state) == Listen && next == Step6 ==> state == SynReceived
      ensures highestAck == old(highestAck) || highestAck == seg.ackno <= old(maxseq)
      ensures old(state) == Established && seg.ack && !seg.syn && seg.seqno >= old(rcvNxt) ==>
                && left == seg && rcvNxt == old(rcvNxt) && curseq == old(curseq)
                && (seg.ackno > old(maxseq) ==> next == DropAfterAck && Calm())
                && (seg.ackno <= old(maxseq) && (seg.ackno > old(highestAck) || seg.datalen > 0) ==>
                      && next == Step6 && state == Established && Calm() && tSeqno == Max(old(tSeqno), highestAck)
                      && highestAck == Max(old(highestAck), seg.ackno))
    {
      hide Below, Due, Emptying, FinDue, Outgoing, NeedSend, Goes, Duplicates, Counts;
      next, left, needOutput := Step6, seg, false;
      if state == Listen {
        next := RecvListen(seg);
      } else if state == SynSent {
        next := RecvSynSent(seg);
      } else {
        var dupseg;
        next, left, dupseg := Trim(seg);
        if next == Step6 {
          next, needOutput := RecvAck(left, dupseg, win, budget);
        }
      }
    }
  }

  /** A connection numbered from zero, of full segments of one byte, whose SYN has been acknowledged. */
  method Opened(n: nat) returns (s: Sender)
    ensures fresh(s) && s.Inv() && s.state == Established && s.highestAck == s.tSeqno == s.maxseq == 1
    ensures s.c.iss == 0 && s.c.maxseg == 1 && s.curseq == n && !s.closeOnEmpty && s.sentSyn && !s.sentFin
    ensures forall p :: p in s.sent ==> End(p) <= 1
  {
    hide Below;
    s := new Sender(Config(0, 1, 10, 2, 3, true, true, true, false, false, false));
    var _ := s.AdvanceBytes(n, false, 10);
    assert s.sent == [s.Last()];
    var _ := s.RecvSynSent(Segment(0, 1, 0, true, true, false));
  }

  /** Send the next of `n` bytes. */
  method NextByte(s: Sender, n: nat)
    requires s.Inv() && s.state == Established && s.c.iss == 0 && s.c.maxseg == 1 && !s.closeOnEmpty && s.sentSyn && !s.sentFin
    requires s.highestAck == 1 && s.tSeqno == s.maxseq < s.curseq == n && s.maxseq < 11
    modifies s`state, s`tSeqno, s`maxseq, s`lastAckSent, s`ackNow, s`delAck, s`sentSyn, s`sentFin, s`rtxPending,
      s`rttActive, s`rttSeq, s`sent
    ensures s.Inv() && s.state == Established && s.sentSyn && !s.sentFin
    ensures s.tSeqno == s.maxseq == old(s.maxseq) + 1
    ensures forall p :: p in s.sent ==> p in old(s.sent) || End(p) == s.maxseq
  {
    hide Below;
    s.Output(s.tSeqno, 10);
  }

  /** When the first of two bytes sent is sent again, maxseq passes everything sent. */
  method RepeatOvershoots() returns (s: Sender)
    ensures fresh(s) && s.Inv() && s.maxseq == 4
    ensures forall p :: p in s.sent ==> End(p) <= 3
  {
    hide Below, Sender.Sends, Sender.NeedSend, Sender.Overshoots;
    s := Opened(3);
    NextByte(s, 3);
    NextByte(s, 3);
    s.FastRetransmit(1, 10);
  }

  /** Put to listen, it takes the next SYN for the start: what is to be sent next lies below what is acknowledged. */
  method ListeningAgainBreaksOrder() returns (s: Sender)
    ensures fresh(s) && s.state == SynReceived && s.tSeqno < s.highestAck && !s.Inv()
  {
    s := Opened(1);
    s.StartListening();
    var _ := s.RecvListen(Segment(0, 0, 0, false, true, false));
  }
}
