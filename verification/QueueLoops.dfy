/** The loops of an input port over its packet queue. */
module QueueLoops {
  import opened BulkioTypes
  import opened PacketQueue

  /** The loop of _flushQueue. Packets are pushed to the front of `last`, so the index that
      `active` holds for the latest packet of a stream ID counts from the back. */
  method FlushLoop(packetQueue: seq<Packet>) returns (last: seq<Packet>)
    ensures last == Collapse(packetQueue)
  {
    hide Absorb;
    last := [];
    var active: map<string, nat> := map[];
    var n := |packetQueue|;
    assert packetQueue[n..] == [];
    while n > 0
      invariant 0 <= n <= |packetQueue|
      invariant last == Collapse(packetQueue[n..])
      invariant Indexed(last, active)
    {
      n := n - 1;
      var packet := packetQueue[n];
      assert packetQueue[n..][0] == packet && packetQueue[n..][1..] == packetQueue[n + 1..];
      if packet.streamID in active {
        var k := |last| - active[packet.streamID];
        if packet.EOS {
          IndexedPush(last, active, packet);
          last := [packet] + last;
          active := active[packet.streamID := |last|];
        } else {
          var kept := FlushInto(last[k], packet);
          IndexedUpdate(last, active, k, kept);
          last := last[k := kept];
        }
      } else {
        IndexedPush(last, active, packet);
        last := [packet] + last;
        active := active[packet.streamID := |last|];
      }
    }
    assert packetQueue[0..] == packetQueue;
  }

  /** The older packet p goes; what it has to say is passed on to the newer one. */
  method FlushInto(newer: Packet, older: Packet) returns (last: Packet)
    ensures last == Absorb(newer, older) && last.streamID == newer.streamID
  {
    var p := older;
    last := newer;
    if |last.buffer| == 0 && |p.buffer| > 0 {
      var buffer := last.buffer;
      last := last.(buffer := p.buffer, T := p.T);
      p := p.(buffer := buffer);
    }
    if |p.buffer| > 0 {
      last := last.(inputQueueFlushed := true);
    }
    if p.sriChanged {
      last := last.(sriChanged := true);
    }
  }

  /** `active` finds the first packet of every stream ID in q. */
  ghost predicate Indexed(q: seq<Packet>, active: map<string, nat>) {
    forall id :: if id in active then Has(q, id) && active[id] == |q| - First(q, id) else !Has(q, id)
  }

  lemma IndexedPush(q: seq<Packet>, active: map<string, nat>, p: Packet)
    requires Indexed(q, active)
    ensures Indexed([p] + q, active[p.streamID := |q| + 1])
  {
    assert ([p] + q)[1..] == q;
  }

  lemma IndexedUpdate(q: seq<Packet>, active: map<string, nat>, k: nat, p: Packet)
    requires Indexed(q, active) && k < |q| && p.streamID == q[k].streamID
    ensures Indexed(q[k := p], active)
  {
    forall id ensures Has(q[k := p], id) <==> Has(q, id)
      ensures Has(q, id) ==> First(q[k := p], id) == First(q, id)
    {
      FirstUpdate(q, k, p, id);
    }
  }

  lemma {:induction false} FirstUpdate(q: seq<Packet>, k: nat, p: Packet, id: string)
    requires k < |q| && p.streamID == q[k].streamID
    ensures Has(q[k := p], id) <==> Has(q, id)
    ensures Has(q, id) ==> First(q[k := p], id) == First(q, id)
  {
    if k == 0 {
      assert q[k := p][1..] == q[1..];
    } else {
      FirstUpdate(q[1..], k - 1, p, id);
      assert q[k := p][1..] == q[1..][k - 1 := p];
    }
  }

  /** The loop of fetchPacket for a given stream ID. */
  method FetchLoop(packetQueue: seq<Packet>, streamID: string) returns (packet: Option<Packet>, rest: seq<Packet>)
    ensures Lane(packetQueue, streamID) == [] ==> packet.None? && rest == packetQueue
    ensures Lane(packetQueue, streamID) != [] ==> packet == Some(Lane(packetQueue, streamID)[0])
    ensures rest == Without(packetQueue, streamID)
  {
    hide Lane, Without;
    var i := 0;
    assert packetQueue[0..] == packetQueue && [] + Without(packetQueue, streamID) == Without(packetQueue, streamID);
    while i < |packetQueue|
      invariant 0 <= i <= |packetQueue|
      invariant Lane(packetQueue, streamID) == Lane(packetQueue[i..], streamID)
      invariant Without(packetQueue, streamID) == packetQueue[..i] + Without(packetQueue[i..], streamID)
    {
      FetchStep(packetQueue, i, streamID);
      if packetQueue[i].streamID == streamID {
        return Some(packetQueue[i]), packetQueue[..i] + packetQueue[i + 1..];
      }
      i := i + 1;
    }
    FetchEnd(packetQueue, streamID);
    packet, rest := None, packetQueue;
  }

  lemma FetchStep(q: seq<Packet>, i: nat, id: string)
    requires i < |q|
    ensures if q[i].streamID == id
            then Lane(q[i..], id) == [q[i]] + Lane(q[i + 1..], id)
                && q[..i] + Without(q[i..], id) == q[..i] + q[i + 1..]
            else Lane(q[i..], id) == Lane(q[i + 1..], id)
                 && q[..i] + Without(q[i..], id) == q[..i + 1] + Without(q[i + 1..], id)
  {
    assert q[i..][1..] == q[i + 1..] && q[..i + 1] == q[..i] + [q[i]];
    LaneCons(q[i], q[i + 1..], id);
    assert q[i..] == [q[i]] + q[i + 1..];
    Regroup(q[..i], [q[i]], Without(q[i + 1..], id));
  }

  lemma FetchEnd(q: seq<Packet>, id: string)
    ensures Lane(q[|q|..], id) == [] && q[..|q|] + Without(q[|q|..], id) == q
  {
  }

  /** The end-of-stream count of pushSRI. */
  method CountEosLoop(packetQueue: seq<Packet>, streamID: string) returns (eosCount: nat)
    ensures eosCount == EosCount(packetQueue, streamID)
  {
    eosCount := 0;
    var i := 0;
    assert packetQueue[0..] == packetQueue;
    while i < |packetQueue|
      invariant 0 <= i <= |packetQueue|
      invariant eosCount + EosIn(Lane(packetQueue[i..], streamID)) == EosCount(packetQueue, streamID)
    {
      assert packetQueue[i..][1..] == packetQueue[i + 1..];
      EosInConcat(if packetQueue[i].streamID == streamID then [packetQueue[i]] else [],
                  Lane(packetQueue[i + 1..], streamID));
      if packetQueue[i].streamID == streamID && packetQueue[i].EOS {
        eosCount := eosCount + 1;
      }
      i := i + 1;
    }
  }

  /** The search of queuePacket, from the back, for the packet to replace on overflow. */
  method ReplaceLoop(packetQueue: seq<Packet>, streamID: string) returns (saved: Option<Packet>, rest: seq<Packet>)
    ensures var lane := Lane(packetQueue, streamID);
            if lane != [] && !lane[|lane| - 1].EOS
            then saved == Some(lane[|lane| - 1]) && rest == Evict(packetQueue, streamID)
            else saved == None && rest == packetQueue
  {
    var n := |packetQueue|;
    assert packetQueue[..n] == packetQueue;
    while n > 0
      invariant 0 <= n <= |packetQueue|
      invariant Lane(packetQueue, streamID) == Lane(packetQueue[..n], streamID)
      invariant Evict(packetQueue, streamID) == Evict(packetQueue[..n], streamID) + packetQueue[n..]
    {
      n := n - 1;
      EvictStep(packetQueue, n, streamID);
      if packetQueue[n].streamID == streamID {
        if !packetQueue[n].EOS {
          return Some(packetQueue[n]), packetQueue[..n] + packetQueue[n + 1..];
        }
        break;
      }
    }
    saved, rest := None, packetQueue;
  }

  lemma EvictStep(q: seq<Packet>, n: nat, id: string)
    requires n < |q|
    ensures if q[n].streamID == id
            then Lane(q[..n + 1], id) == Lane(q[..n], id) + [q[n]] && Evict(q[..n + 1], id) == q[..n]
            else Lane(q[..n + 1], id) == Lane(q[..n], id) &&
                 Evict(q[..n + 1], id) + q[n + 1..] == Evict(q[..n], id) + q[n..]
  {
    assert q[..n + 1] == q[..n] + [q[n]] && q[..n + 1][..n] == q[..n];
    LaneSnoc(q[..n], q[n], id);
    assert [q[n]] + q[n + 1..] == q[n..];
  }

  // ---------- samplesAvailable ----------

  /** The scalars of a lane up to the next break; the first packet may start with one. */
  function Unbroken(lane: seq<Packet>, first: bool): seq<Packet> {
    if lane == [] || (!first && !lane[0].Bridges()) then [] else [lane[0]] + Unbroken(lane[1..], false)
  }

  lemma UnbrokenCons(p: Packet, lane: seq<Packet>, first: bool)
    ensures Unbroken([p] + lane, first)
            == if first || p.Bridges() then [p] + Unbroken(lane, false) else []
  {
    assert ([p] + lane)[1..] == lane;
  }

  function Total(ps: seq<Packet>): nat {
    if ps == [] then 0 else |ps[0].buffer| + Total(ps[1..])
  }

  predicate AnyComplex(ps: seq<Packet>) {
    exists i :: 0 <= i < |ps| && ps[i].SRI.Complex()
  }

  /** What is counted of a lane: the packets up to the next one that is marked with an SRI change or a
      flush, where a mark on the first may not count; and two scalars make a sample if any of those is
      complex. */
  lemma {:induction false} UnbrokenIs(lane: seq<Packet>, first: bool) returns (n: nat)
    ensures n <= |lane| && Unbroken(lane, first) == lane[..n]
    ensures forall i :: (if first then 1 else 0) <= i < n ==> !lane[i].sriChanged && !lane[i].inputQueueFlushed
    ensures n < |lane| ==> (n > 0 || !first) && (lane[n].sriChanged || lane[n].inputQueueFlushed)
    ensures AnyComplex(Unbroken(lane, first)) <==> exists i :: 0 <= i < n && lane[i].SRI.mode != 0
  {
    hide AnyComplex;
    n := 0;
    ComplexIs(lane[..0]);
    if lane != [] && (first || !(lane[0].sriChanged || lane[0].inputQueueFlushed)) {
      var m := UnbrokenIs(lane[1..], false);
      n := m + 1;
      assert lane[..n] == [lane[0]] + lane[1..][..m];
      forall i | 0 < i < n ensures !lane[i].sriChanged && !lane[i].inputQueueFlushed {
        assert lane[i] == lane[1..][i - 1];
      }
      ComplexIs(lane[..n]);
    }
  }

  lemma ComplexIs(ps: seq<Packet>)
    ensures AnyComplex(ps) <==> exists i :: 0 <= i < |ps| && ps[i].SRI.mode != 0
  {
  }

  method SamplesAvailableLoop(packetQueue: seq<Packet>, streamID: string, first: bool) returns (samples: nat)
    ensures var ps := Unbroken(Lane(packetQueue, streamID), first);
            samples == Total(ps) / (if AnyComplex(ps) then 2 else 1)
  {
    hide Counting, Unbroken, Lane, Total, AnyComplex;
    var firstPacket := first;
    var itemSize := 1;
    samples := 0;
    var i := 0;
    ghost var seen: seq<Packet> := [];
    StartCounting(packetQueue, streamID, first);
    while i < |packetQueue|
      invariant i <= |packetQueue| && Counting(packetQueue, streamID, first, i, firstPacket, seen)
      invariant samples == Total(seen)
      invariant itemSize == if AnyComplex(seen) then 2 else 1
    {
      var packet := packetQueue[i];
      CountOne(packetQueue, streamID, first, i, firstPacket, seen);
      if packet.streamID == streamID {
        if packet.sriChanged || packet.inputQueueFlushed {
          if !firstPacket {
            samples := samples / itemSize;
            return;
          }
        }
        firstPacket := false;
        if packet.SRI.Complex() {
          itemSize := 2;
        }
        samples := samples + |packet.buffer|;
        TotalSnoc(seen, packet);
        seen := seen + [packet];
      }
      i := i + 1;
    }
    EndCounting(packetQueue, streamID, first, firstPacket, seen);
    samples := samples / itemSize;
  }

  /** The packets before the i-th have been gone through, and `seen` of them counted. */
  ghost predicate Counting(q: seq<Packet>, id: string, first: bool, i: nat, firstPacket: bool, seen: seq<Packet>)
    requires i <= |q|
  {
    Unbroken(Lane(q, id), first) == seen + Unbroken(Lane(q[i..], id), firstPacket)
  }

  lemma StartCounting(q: seq<Packet>, id: string, first: bool)
    ensures Counting(q, id, first, 0, first, []) && Total([]) == 0 && !AnyComplex([])
  {
    assert q[0..] == q;
  }

  lemma CountOne(q: seq<Packet>, id: string, first: bool, i: nat, firstPacket: bool, seen: seq<Packet>)
    requires i < |q| && Counting(q, id, first, i, firstPacket, seen)
    ensures if q[i].streamID != id then Counting(q, id, first, i + 1, firstPacket, seen)
            else if q[i].Bridges() || firstPacket then Counting(q, id, first, i + 1, false, seen + [q[i]])
            else Unbroken(Lane(q, id), first) == seen
  {
    hide Lane, Unbroken;
    var rest := Lane(q[i + 1..], id);
    assert q[i..] == [q[i]] + q[i + 1..];
    LaneCons(q[i], q[i + 1..], id);
    if q[i].streamID == id {
      UnbrokenCons(q[i], rest, firstPacket);
      Regroup(seen, [q[i]], Unbroken(rest, false));
      assert seen + [] == seen;
    }
  }

  lemma EndCounting(q: seq<Packet>, id: string, first: bool, firstPacket: bool, seen: seq<Packet>)
    requires Counting(q, id, first, |q|, firstPacket, seen)
    ensures Unbroken(Lane(q, id), first) == seen
  {
    assert q[|q|..] == [] && seen + [] == seen;
  }

  lemma {:induction false} TotalSnoc(ps: seq<Packet>, p: Packet)
    ensures Total(ps + [p]) == Total(ps) + |p.buffer|
    ensures AnyComplex(ps + [p]) <==> AnyComplex(ps) || p.SRI.Complex()
  {
    var qs := ps + [p];
    if ps == [] {
      assert qs[1..] == [];
    } else {
      TotalSnoc(ps[1..], p);
      assert qs[1..] == ps[1..] + [p];
    }
    assert qs[|ps|] == p && forall i :: 0 <= i < |ps| ==> qs[i] == ps[i];
  }
}
