/** samplesAvailable() of an input stream against what a read would return. */
module Availability {
  import opened BulkioTypes
  import opened PacketQueue
  import opened QueueLoops
  import opened StreamCells
  import opened Segments
  import opened StreamBuffer

  /** What the port's lane contributes to the current segment. */
  function FromPort(b: Buffer, lane: seq<Packet>): seq<Packet> {
    if b.pending.None? && b.eos == EosNone then Unbroken(lane, b.queue == []) else []
  }

  /** What samplesAvailable() computes. */
  function Available(b: Buffer, lane: seq<Packet>): int {
    (if b.samplesQueued > 0 && b.queue != [] && b.queue[0].SRI.Complex() then b.samplesQueued / 2
     else b.samplesQueued) +
    (if b.pending.None? && b.eos == EosNone
     then Total(FromPort(b, lane)) / (if AnyComplex(FromPort(b, lane)) then 2 else 1) else 0)
  }

  /** Both divisions of samplesAvailable() come out as if the whole segment were counted at once:
      the port's packets are of the mode of the sample that comes next, or there are none, and no
      half sample is left over on both sides. */
  predicate Countable(b: Buffer, lane: seq<Packet>) {
    var ps, held := FromPort(b, lane), b.samplesQueued;
    Total(ps) == 0 ||
    if Item(b, lane) == 1 then !AnyComplex(ps)
    else if AnyComplex(ps) then held % 2 == 0 || Total(ps) % 2 == 0
    else held % 2 == 1 && Total(ps) == 1
  }

  /** Behind samples that are held, the port's lane carries the segment on up to the first
      break; the break that follows every end-of-stream is what keeps the next stream of the
      same ID out. */
  lemma {:induction false} SegmentInLane(d: seq<Sample>, lane: seq<Packet>)
    requires LaneOk(lane)
    ensures Extend([d], UpToEos(lane)) != [] && |Extend([d], UpToEos(lane))[0]| == |d| + Total(Unbroken(lane, false))
    decreases lane
  {
    assert [d] + [] == [d];
    if lane != [] {
      var p, t := lane[0], lane[1..];
      assert LaneOk(t) by { assert forall i :: 0 <= i < |t| ==> t[i] == lane[i + 1]; }
      var up := UpToEos(lane);
      assert up[0] == p && up[1..] == if p.EOS then [] else UpToEos(t);
      AddFirst(d, [], p);
      if p.Bridges() {
        assert AddPacket([d], p) == [d + p.buffer] by { assert p.buffer == [] ==> d + p.buffer == d; }
        if p.EOS { EndOfSegment(t, lane); } else { SegmentInLane(d + p.buffer, t); }
      } else if p.buffer != [] {
        assert [] + [p.buffer] == [p.buffer];
        ExtendKeepsFirst(p.buffer, [], up[1..]);
        ExtendBehind(d, [p.buffer], up[1..]);
      }
    }
  }

  lemma EndOfSegment(t: seq<Packet>, lane: seq<Packet>)
    requires lane != [] && lane[0].EOS && t == lane[1..] && LaneOk(lane)
    ensures Unbroken(t, false) == []
  {
    if t != [] { assert t[0] == lane[1]; }
  }

  /** The current segment is what is held and what the port contributes. */
  lemma SegmentLength(b: Buffer, lane: seq<Packet>)
    requires Rep(b) && LaneOk(lane)
    ensures |Visible(b, lane, false)| == b.samplesQueued + Total(FromPort(b, lane))
    ensures b.queue == [] ==> b.samplesQueued == 0
  {
    HeldIsVisible(b, lane, false);
    if b.pending.None? && b.eos == EosNone && lane != [] {
      assert Behind(b, lane) == UpToEos(lane);
      if b.queue != [] { SegmentInLane(Ready(b), lane); } else { FreshSegment(lane); }
    }
  }

  lemma FreshSegment(lane: seq<Packet>)
    requires lane != [] && LaneOk(lane)
    ensures var segs := Extend([], UpToEos(lane));
            Total(Unbroken(lane, true)) == if segs == [] then 0 else |segs[0]|
  {
    var p, t := lane[0], lane[1..];
    var up := UpToEos(lane);
    assert up[0] == p && up[1..] == if p.EOS then [] else UpToEos(t);
    assert LaneOk(t) by { assert forall i :: 0 <= i < |t| ==> t[i] == lane[i + 1]; }
    if p.EOS { EndOfSegment(t, lane); } else { SegmentInLane(p.buffer, t); }
    assert [] + [p.buffer] == [p.buffer];
  }

  /** The number reported is that of the whole samples in the current segment exactly when the
      segment is countable. */
  lemma AvailableLength(b: Buffer, lane: seq<Packet>)
    requires Rep(b) && LaneOk(lane)
    ensures Available(b, lane) == |Visible(b, lane, false)| / Item(b, lane) <==> Countable(b, lane)
  {
    hide Visible, Rep, FromPort, Total, AnyComplex, LaneOk;
    SegmentLength(b, lane);
    AvailableIs(b, lane);
    Divisions(b.samplesQueued, Total(FromPort(b, lane)), Item(b, lane), AnyComplex(FromPort(b, lane)));
  }

  lemma AvailableIs(b: Buffer, lane: seq<Packet>)
    requires Rep(b)
    ensures b.samplesQueued >= 0
    ensures var t := Total(FromPort(b, lane));
            Available(b, lane) == (if Item(b, lane) == 2 then b.samplesQueued / 2 else b.samplesQueued)
                                  + (if AnyComplex(FromPort(b, lane)) then t / 2 else t)
  {
    HeldIsVisible(b, lane, false);
  }

  lemma Divisions(held: nat, total: nat, item: nat, complex: bool)
    requires item == 1 || item == 2
    ensures (if item == 2 then held / 2 else held) + (if complex then total / 2 else total) == (held + total) / item
            <==> total == 0 ||
                 if item == 1 then !complex
                 else if complex then held % 2 == 0 || total % 2 == 0
                 else held % 2 == 1 && total == 1
  {
    if item == 1 { assert (held + total) / 1 == held + total; }
  }

  /** A read of k samples that does not block keeps the promise: any k that are available come,
      and one more than are available never do. */
  predicate Kept(b: Buffer, lane: seq<Packet>, k: nat)
    requires Rep(b)
  {
    var item, n := Item(b, lane), Available(b, lane);
    var o := ReadOutcome(Visible(b, lane, false), Ended(b, lane, false), item, k, k, false);
    && (k <= n ==> o.block.Some? && |o.block.value| == k * item)
    && (k == n + 1 ==> o.block.None? || |o.block.value| / item <= n)
  }

  /** samplesAvailable is exact at a port that is not stopped, exactly when the segment is countable. */
  lemma SamplesAvailableExact(b: Buffer, lane: seq<Packet>)
    requires Rep(b) && LaneOk(lane)
    ensures (forall k: nat :: 0 < k <= Available(b, lane) + 1 ==> Kept(b, lane, k)) <==> Countable(b, lane)
  {
    hide Countable, Visible, Ended, Item, Available, Rep, LaneOk;
    AvailableLength(b, lane);
    AvailableIs(b, lane);
    var item, n, visible := Item(b, lane), Available(b, lane), Visible(b, lane, false);
    if n == |visible| / item {
      forall k: nat | 0 < k <= n + 1 ensures Kept(b, lane, k) {
        KeptWhole(visible, Ended(b, lane, false), item, n, k);
      }
    } else if forall k: nat :: 0 < k <= n + 1 ==> Kept(b, lane, k) {
      assert n > 0 ==> Kept(b, lane, n);
      assert Kept(b, lane, n + 1);
      NotWhole(visible, Ended(b, lane, false), item, n);
    }
  }

  lemma KeptWhole(visible: seq<Sample>, ended: bool, item: nat, n: nat, k: nat)
    requires (item == 1 || item == 2) && n == |visible| / item && 0 < k <= n + 1
    ensures var o := ReadOutcome(visible, ended, item, k, k, false);
            && (k <= n ==> o.block.Some? && |o.block.value| == k * item)
            && (k == n + 1 ==> o.block.None? || |o.block.value| / item <= n)
  {
  }

  lemma NotWhole(visible: seq<Sample>, ended: bool, item: nat, n: nat)
    requires (item == 1 || item == 2) && n != |visible| / item
    ensures var o, p := ReadOutcome(visible, ended, item, n, n, false),
            ReadOutcome(visible, ended, item, n + 1, n + 1, false);
            || (n > 0 && !(o.block.Some? && |o.block.value| == n * item))
            || !(p.block.None? || |p.block.value| / item <= n)
  {
  }

  /** A segment that is not countable: a real packet held, and a complex one that carries it on in
      the port. Three scalars are taken for two samples. */
  lemma MixedModesMiscount(scalar: Packet, complex: Packet)
    requires |scalar.buffer| == 1 && !scalar.EOS && scalar.SRI.mode == 0
    requires |complex.buffer| == 2 && complex.SRI.mode == 1 && complex.Bridges()
    ensures var b := Buffer([scalar], None, 1, 0, EosNone);
            && Rep(b) && LaneOk([complex]) && !Countable(b, [complex])
            && Available(b, [complex]) == 2 && |Visible(b, [complex], false)| == 3
  {
    var b, lane := Buffer([scalar], None, 1, 0, EosNone), [complex];
    assert [scalar][1..] == [] && lane[1..] == [] && scalar.buffer + [] == scalar.buffer;
    assert Flat(b.queue) == scalar.buffer;
    assert Unbroken(lane, false) == [complex] + Unbroken([], false) == [complex];
    assert Total([complex]) == 2 && [complex][0].SRI.Complex();
    SegmentLength(b, lane);
  }

  /** At a stopped port the samples reported are there exactly as far as they are held already. */
  lemma SamplesAvailableStopped(b: Buffer, lane: seq<Packet>, k: nat)
    requires Rep(b) && LaneOk(lane) && 0 < k <= Available(b, lane)
    ensures var item := Item(b, lane);
            var o := ReadOutcome(Visible(b, lane, true), Ended(b, lane, true), item, k, k, false);
            o.block.Some? && |o.block.value| == k * item <==> k * item <= b.samplesQueued
  {
    HeldIsVisible(b, lane, true);
  }
}
