/** How a port comes to hold a segment that samplesAvailable() miscounts. */
module Miscount {
  import opened BulkioTypes
  import opened PacketQueue
  import opened Ledger
  import opened StreamCells
  import Availability
  import SB = StreamBuffer

  /** A real packet is fetched by its reader; two more fill the port. The SRI becomes complex, and the
      packet that says so replaces one that does not. An empty end-of-stream then takes over its
      payload, without the flush mark, when a push for another stream makes room. */
  function MixingRun(first: Packet, scalar: Packet, complex: Packet, end: Packet, other: Packet): seq<QueueEvent> {
    [Push(first, 2, false), Fetch(first.streamID), Push(scalar, 2, false), Push(scalar, 2, false),
     Push(complex, 2, false), Push(end, 2, false), Push(other, 2, false)]
  }

  /** The packets of that run, with the SRI changes a port marks them with. */
  predicate Mixing(first: Packet, scalar: Packet, complex: Packet, end: Packet, other: Packet) {
    && GoodPush(first) && GoodPush(scalar) && GoodPush(complex) && GoodPush(end) && GoodPush(other)
    && scalar.streamID == complex.streamID == end.streamID == first.streamID && other.streamID != first.streamID
    && first.SRI.mode == 0 && |first.buffer| == 1 && !first.EOS
    && scalar.SRI == first.SRI && !scalar.EOS && !scalar.sriChanged
    && complex.SRI.mode == 1 && |complex.buffer| == 2 && !complex.EOS && complex.sriChanged
    && end.SRI == complex.SRI && end.buffer == [] && end.EOS && !end.sriChanged
  }

  /** After the run three scalars of the segment remain, and two samples are reported. */
  lemma MixedModesReached(first: Packet, scalar: Packet, complex: Packet, end: Packet, other: Packet)
    requires Mixing(first, scalar, complex, end, other)
    ensures forall i :: 0 <= i < 7 ==> Regular(MixingRun(first, scalar, complex, end, other)[i])
    ensures var r, b := RunQueue(MixingRun(first, scalar, complex, end, other)), SB.Fetched(SB.EMPTY, first);
            var lane := Lane(r.queue, first.streamID);
            && r.delivered == [first] && SB.Rep(b) && LaneOk(lane) && !Availability.Countable(b, lane)
            && Availability.Available(b, lane) == 2 && |SB.Visible(b, lane, false)| == 3
  {
    hide SB.Rep, SB.Visible, Availability.Countable, Availability.Available, LaneOk, RunQueue, Lane;
    var last := Absorb(end, Replacing(complex, Absorb(scalar, scalar)));
    MixingRuns(first, scalar, complex, end, other);
    Front(last, other);
    HeldFirst(first);
    Availability.MixedModesMiscount(first, last);
  }

  lemma HeldFirst(first: Packet)
    requires first.buffer != [] && !first.EOS
    ensures SB.Fetched(SB.EMPTY, first) == SB.Buffer([first], None, |first.buffer|, 0, EosNone)
  {
    assert [] + [first] == [first];
  }

  lemma Front(p: Packet, other: Packet)
    requires other.streamID != p.streamID
    ensures Lane([p, other], p.streamID) == [p]
  {
    assert [p, other][1..] == [other] && [other][1..] == [];
    assert Lane([other], p.streamID) == [];
  }

  lemma MixingRuns(first: Packet, scalar: Packet, complex: Packet, end: Packet, other: Packet)
    requires Mixing(first, scalar, complex, end, other)
    ensures var r := RunQueue(MixingRun(first, scalar, complex, end, other));
            && r.delivered == [first]
            && r.queue == [Absorb(end, Replacing(complex, Absorb(scalar, scalar))), other]
  {
    hide QueueStep, RunQueue, Absorb, Replacing;
    FillTwo(first, scalar);
    Overflow(complex, scalar, end, other, [first, scalar, scalar], [first]);
    RunSeven(Push(first, 2, false), Fetch(first.streamID), Push(scalar, 2, false), Push(complex, 2, false),
             Push(end, 2, false), Push(other, 2, false));
  }

  lemma FillTwo(first: Packet, scalar: Packet)
    requires first.buffer != [] && (scalar.buffer != [] || scalar.EOS)
    ensures var e := Push(scalar, 2, false);
            QueueStep(QueueStep(QueueStep(QueueStep(QueueRun([], [], []), Push(first, 2, false)),
                                          Fetch(first.streamID)), e), e)
            == QueueRun([scalar, scalar], [first, scalar, scalar], [first])
  {
    hide Lane, Without, Has;
    FetchOnly(first);
    var r1, r2 := QueueRun([first], [first], []), QueueRun([], [first], [first]);
    var e, r3 := Push(scalar, 2, false), QueueRun([scalar], [first, scalar], [first]);
    assert QueueStep(QueueRun([], [], []), Push(first, 2, false)) == r1;
    assert QueueStep(r1, Fetch(first.streamID)) == r2;
    assert QueueStep(r2, e) == r3;
    assert QueueStep(r3, e) == QueueRun([scalar, scalar], [first, scalar, scalar], [first]);
  }

  lemma Overflow(complex: Packet, scalar: Packet, end: Packet, other: Packet, pushed: seq<Packet>,
                 delivered: seq<Packet>)
    requires scalar.streamID == complex.streamID == end.streamID != other.streamID && !scalar.EOS && !complex.EOS
    requires complex.buffer != [] && end.EOS && (other.buffer != [] || other.EOS)
    ensures var r := QueueStep(QueueStep(QueueStep(QueueRun([scalar, scalar], pushed, delivered),
                                                   Push(complex, 2, false)),
                                         Push(end, 2, false)), Push(other, 2, false));
            r.delivered == delivered && r.queue == [Absorb(end, Replacing(complex, Absorb(scalar, scalar))), other]
  {
    hide Collapse, PushFull, Evict, Lane, Without, Has, Absorb, Replacing;
    var p := Replacing(complex, Absorb(scalar, scalar));
    ReplaceTwo(scalar, complex);
    ReplacingKeeps(complex, Absorb(scalar, scalar));
    CollapseTwo(p, end);
    AbsorbKeeps(end, p);
    PushElsewhere([p, end], other, Absorb(end, p));
    var r5 := QueueStep(QueueRun([scalar, scalar], pushed, delivered), Push(complex, 2, false));
    assert r5.queue == [p] && r5.delivered == delivered;
    var r6 := QueueStep(r5, Push(end, 2, false));
    assert r6.queue == [p, end] && r6.delivered == delivered;
  }

  lemma ReplacingKeeps(p: Packet, saved: Packet)
    ensures Replacing(p, saved).streamID == p.streamID && Replacing(p, saved).EOS == p.EOS
  {
  }

  lemma FetchOnly(p: Packet)
    ensures Ledger.Fetched([p], p.streamID) == Some(p.streamID) && Without([p], p.streamID) == []
    ensures Lane([p], p.streamID) == [p]
  {
    assert [p][1..] == [];
  }

  lemma RunSeven(e0: QueueEvent, e1: QueueEvent, e2: QueueEvent, e3: QueueEvent, e4: QueueEvent, e5: QueueEvent)
    ensures RunQueue([e0, e1, e2, e2, e3, e4, e5])
            == QueueStep(QueueStep(QueueStep(QueueStep(QueueStep(QueueStep(QueueStep(
                 QueueRun([], [], []), e0), e1), e2), e2), e3), e4), e5)
  {
    hide QueueStep, RunQueue;
    assert RunQueue([]) == QueueRun([], [], []) by { NoRun(); }
    RunOne([], e0);
    RunOne([e0], e1);
    RunOne([e0, e1], e2);
    RunOne([e0, e1, e2], e2);
    RunOne([e0, e1, e2, e2], e3);
    RunOne([e0, e1, e2, e2, e3], e4);
    RunOne([e0, e1, e2, e2, e3, e4], e5);
    assert [] + [e0] == [e0] && [e0] + [e1] == [e0, e1] && [e0, e1] + [e2] == [e0, e1, e2];
    assert [e0, e1, e2] + [e2] == [e0, e1, e2, e2] && [e0, e1, e2, e2] + [e3] == [e0, e1, e2, e2, e3];
    assert [e0, e1, e2, e2, e3] + [e4] == [e0, e1, e2, e2, e3, e4];
    assert [e0, e1, e2, e2, e3, e4] + [e5] == [e0, e1, e2, e2, e3, e4, e5];
  }

  lemma NoRun()
    ensures RunQueue([]) == QueueRun([], [], [])
  {
  }
}
