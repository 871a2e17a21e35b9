/** The signalling link as it is built: an array of pending flows and an admission controller it calls. */
module SaLink {
  import opened Reservation

  class ParamAdc {
    const utilization: real
    const bandwidth: real
    var resvRate: real

    constructor (utilization: real, bandwidth: real)
      ensures this.utilization == utilization && this.bandwidth == bandwidth && resvRate == 0.0
    {
      this.utilization, this.bandwidth, resvRate := utilization, bandwidth, 0.0;
    }

    method AdmitFlow(r: real) returns (decide: bool)
      modifies this
      ensures decide <==> old(resvRate) + r <= utilization * bandwidth
      ensures resvRate == old(resvRate) + if decide then r else 0.0
    {
      if resvRate + r <= utilization * bandwidth {
        resvRate := resvRate + r;
        return true;
      }
      return false;
    }

    method RejAction(p: real)
      modifies this
      ensures resvRate == old(resvRate) - p
    {
      resvRate := resvRate - p;
    }

    method TeardownAction(p: real)
      modifies this
      ensures resvRate == old(resvRate) - p
    {
      resvRate := resvRate - p;
    }
  }

  class SALink {
    const adc: ParamAdc
    const pending: array<int>
    var numfl: int

    ghost predicate Valid() {
      pending.Length == NFLOWS
    }

    ghost function Snap(): Link
      reads this, adc, pending
    {
      Link(pending[..], numfl, adc.resvRate, adc.utilization * adc.bandwidth)
    }

    /** The count starts at -1; tracing sets it to 0. */
    constructor (adc: ParamAdc)
      ensures Valid() && fresh(pending) && this.adc == adc
      ensures Snap() == Link(seq(NFLOWS, i => FREE), -1, adc.resvRate, adc.utilization * adc.bandwidth)
    {
      this.adc := adc;
      numfl := -1;
      pending := new int[NFLOWS](i => FREE);
      new;
      assert pending[..] == seq(NFLOWS, i => FREE);
    }

    /** lookup, and get_nxt when asked for a free slot: the first slot with that flow, or -1. */
    method Lookup(flowid: int) returns (i: int)
      requires Valid()
      ensures i == if Slot(pending[..], flowid) == NFLOWS then -1 else Slot(pending[..], flowid)
    {
      i := 0;
      while i < NFLOWS
        invariant 0 <= i <= NFLOWS && forall k :: 0 <= k < i ==> pending[k] != flowid
      {
        if pending[i] == flowid {
          SlotUnique(pending[..], flowid, i);
          return;
        }
        i := i + 1;
      }
      SlotUnique(pending[..], flowid, i);
      i := -1;
    }

    /** recv, up to the forwarding; `halted` where the original exits for want of a slot. */
    method Recv(m: Message) returns (halted: bool, out: Message)
      requires Valid()
      modifies this, adc, pending
      ensures halted <==> RecvAt(old(Snap()), m).Halt?
      ensures !halted ==> RecvAt(old(Snap()), m) == Forward(Snap(), out)
    {
      hide Slot;
      halted, out := false, m;
      ghost var was := pending[..];
      match m.kind
      case Request =>
        var decide := adc.AdmitFlow(m.rate);
        out := m.(decision := m.decision && decide);
        if decide {
          var j := Lookup(FREE);
          if j == -1 {
            halted := true;
            return;
          }
          pending[j] := m.flow;
          assert pending[..] == was[j := m.flow];
          numfl := numfl + 1;
        }
      case Accept =>
      case Reject =>
      case Confirm =>
        var j := Lookup(m.flow);
        if j != -1 {
          if !m.decision {
            adc.RejAction(m.rate);
            numfl := numfl - 1;
          }
          pending[j] := FREE;
          assert pending[..] == was[j := FREE];
        }
      case Teardown =>
        adc.TeardownAction(m.rate);
        numfl := numfl - 1;
    }
  }

  lemma {:induction false} SlotUnique(pending: seq<int>, id: int, i: nat)
    requires i <= |pending| && forall k :: 0 <= k < i ==> pending[k] != id
    requires i < |pending| ==> pending[i] == id
    ensures Slot(pending, id) == i
  {
  }
}
