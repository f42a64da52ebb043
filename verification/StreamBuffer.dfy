/** The packets an input stream has taken from its port, and what they mean to its reader. */
module StreamBuffer {
  import opened BulkioTypes
  import opened StreamCells
  import opened Segments
  import opened DataBlocks

  datatype Buffer = Buffer(queue: seq<Packet>, pending: Option<Packet>, samplesQueued: int, offset: nat, eos: EosState)

  /** A stream just made holds nothing. */
  const EMPTY := Buffer([], None, 0, 0, EosNone)

  lemma EmptyRep()
    ensures Rep(EMPTY) && Segs(EMPTY, []) == [] && !Closed(EMPTY, [])
  {
  }

  function Flat(q: seq<Packet>): seq<Sample> {
    if q == [] then [] else q[0].buffer + Flat(q[1..])
  }

  lemma {:induction false} FlatSnoc(q: seq<Packet>, p: Packet)
    ensures Flat(q + [p]) == Flat(q) + p.buffer
  {
    if q == [] {
      assert [p][1..] == [] && [] + [p] == [p];
    } else {
      assert (q + [p])[1..] == q[1..] + [p];
      FlatSnoc(q[1..], p);
    }
  }

  /** An end-of-stream is held, and where it has to be. */
  predicate EosHeld(b: Buffer) {
    if b.pending.Some? then b.pending.value.EOS else b.queue != [] && b.queue[|b.queue| - 1].EOS
  }

  /** The representation invariant of BufferedInputStream. */
  predicate Rep(b: Buffer) {
    && b.samplesQueued == |Flat(b.queue)| - b.offset
    && (if b.queue == [] then b.offset == 0 && b.pending.None? else b.offset < |b.queue[0].buffer|)
    && (forall i :: 0 <= i < |b.queue| ==> b.queue[i].buffer != [])
    && (forall i :: 0 < i < |b.queue| ==> b.queue[i].Bridges())
    && (forall i :: 0 <= i < |b.queue| - 1 ==> !b.queue[i].EOS)
    && (b.pending.Some? ==>
          !b.pending.value.Bridges() && (b.pending.value.EOS || b.pending.value.buffer != []) &&
          !b.queue[|b.queue| - 1].EOS)
    && (b.eos == EosReceived <==> EosHeld(b))
    && (b.eos == EosReached || b.eos == EosReported ==> b.queue == [])
  }

  /** The samples held in the queue and not yet passed. */
  function Ready(b: Buffer): seq<Sample>
    requires Rep(b)
  {
    FlatFront(b.queue);
    Flat(b.queue)[b.offset..]
  }

  lemma FlatFront(q: seq<Packet>)
    ensures q != [] ==> |q[0].buffer| <= |Flat(q)|
  {
  }

  /** The packets of this incarnation that are still in the port's lane. */
  function UpToEos(lane: seq<Packet>): seq<Packet> {
    if lane == [] then [] else if lane[0].EOS then lane[..1] else lane[..1] + UpToEos(lane[1..])
  }

  function Incoming(b: Buffer, lane: seq<Packet>): seq<Packet> {
    if b.eos == EosNone then UpToEos(lane) else []
  }

  /** The packets behind the queue. */
  function Behind(b: Buffer, lane: seq<Packet>): seq<Packet> {
    (if b.pending.Some? then [b.pending.value] else []) + Incoming(b, lane)
  }

  function Front(b: Buffer): seq<seq<Sample>>
    requires Rep(b)
  {
    if b.queue == [] then [] else [Ready(b)]
  }

  /** The segments still to be read. */
  function Segs(b: Buffer, lane: seq<Packet>): seq<seq<Sample>>
    requires Rep(b)
  {
    Extend(Front(b), Behind(b, lane))
  }

  /** The stream's end has been received. */
  predicate Closed(b: Buffer, lane: seq<Packet>) {
    b.eos != EosNone || HasEos(lane)
  }

  predicate HasEos(lane: seq<Packet>) {
    exists i :: 0 <= i < |lane| && lane[i].EOS
  }

  // ---------- fetching ----------

  /** _queuePacket. */
  function Queued(b: Buffer, p: Packet): Buffer {
    if p.EOS && p.buffer == [] then
      if b.queue == [] then b.(eos := EosReached)
      else b.(queue := b.queue[|b.queue| - 1 := b.queue[|b.queue| - 1].(EOS := true)])
    else b.(queue := b.queue + [p], samplesQueued := b.samplesQueued + |p.buffer|)
  }

  /** _fetchPacket once the port has handed over p. */
  function Fetched(b: Buffer, p: Packet): Buffer {
    Placed(if p.EOS then b.(eos := EosReceived) else b, p)
  }

  function Placed(b: Buffer, p: Packet): Buffer {
    if b.queue == [] || p.Bridges() then Queued(b, p) else b.(pending := Some(p))
  }

  lemma {:induction false} FlatSetEos(q: seq<Packet>, i: nat)
    requires i < |q|
    ensures Flat(q[i := q[i].(EOS := true)]) == Flat(q)
  {
    var r := q[i := q[i].(EOS := true)];
    if i > 0 {
      FlatSetEos(q[1..], i - 1);
      assert r[1..] == q[1..][i - 1 := q[1..][i - 1].(EOS := true)];
    } else {
      assert r[1..] == q[1..];
    }
  }

  lemma AppendRep(b: Buffer, p: Packet)
    requires Rep(b) && b.eos == EosNone && b.pending.None? && p.buffer != [] && (b.queue == [] || p.Bridges())
    ensures var c := Fetched(b, p); Rep(c) && c.queue != [] && Ready(c) == Ready(b) + p.buffer
  {
    FlatFront(b.queue);
    FlatSnoc(b.queue, p);
    AppendHolds(b, p);
    AppendReady(b, p);
  }

  lemma AppendHolds(b: Buffer, p: Packet)
    requires Rep(b) && b.eos == EosNone && b.pending.None? && p.buffer != [] && (b.queue == [] || p.Bridges())
    requires Flat(b.queue + [p]) == Flat(b.queue) + p.buffer
    ensures Rep(Fetched(b, p)) && Fetched(b, p).queue == b.queue + [p] && Fetched(b, p).offset == b.offset
  {
    hide Flat;
    assert b.queue == [] ==> Flat(b.queue) == [] by { NothingFlat(); }
    assert [] + [p] == [p];
  }

  lemma NothingFlat()
    ensures Flat([]) == []
  {
  }

  lemma AppendReady(b: Buffer, p: Packet)
    requires Rep(b) && Rep(Fetched(b, p)) && Fetched(b, p).queue == b.queue + [p] && Fetched(b, p).offset == b.offset
    requires Flat(b.queue + [p]) == Flat(b.queue) + p.buffer
    ensures Ready(Fetched(b, p)) == Ready(b) + p.buffer
  {
    hide Rep, Fetched;
    FlatFront(b.queue);
    OffsetWithin(b);
  }

  lemma OffsetWithin(b: Buffer)
    requires Rep(b)
    ensures b.offset <= |Flat(b.queue)|
  {
    FlatFront(b.queue);
  }

  lemma EndRep(b: Buffer, p: Packet)
    requires Rep(b) && b.eos == EosNone && b.pending.None? && p.buffer == [] && p.EOS && (b.queue == [] || p.Bridges())
    ensures var c := Fetched(b, p); Rep(c) && Front(c) == Front(b)
  {
    if b.queue != [] {
      FlatFront(b.queue);
      FlatSetEos(b.queue, |b.queue| - 1);
    }
  }

  lemma AsideRep(b: Buffer, p: Packet)
    requires Rep(b) && b.eos == EosNone && b.pending.None? && (p.EOS || p.buffer != [])
    requires b.queue != [] && !p.Bridges()
    ensures var c := Fetched(b, p); Rep(c) && Front(c) == Front(b)
  {
  }

  /** A fetched packet that is not set aside adds to what is in front as a reader sees it. */
  lemma FrontFetched(b: Buffer, p: Packet)
    requires Rep(b) && b.eos == EosNone && b.pending.None? && (p.EOS || p.buffer != [])
    requires b.queue == [] || p.Bridges()
    ensures Rep(Fetched(b, p)) && Front(Fetched(b, p)) == AddPacket(Front(b), p)
  {
    if p.buffer == [] {
      EndRep(b, p);
    } else {
      AppendRep(b, p);
      assert Ready(b) == [] || b.queue != [];
      assert b.queue == [] ==> [] + p.buffer == p.buffer && [] + [p.buffer] == [p.buffer];
    }
  }

  /** Fetching the first packet of the lane changes nothing for the reader. */
  lemma FetchedView(b: Buffer, lane: seq<Packet>)
    requires Rep(b) && b.eos == EosNone && b.pending.None? && lane != [] && LaneOk(lane)
    ensures Rep(Fetched(b, lane[0]))
    ensures Segs(Fetched(b, lane[0]), lane[1..]) == Segs(b, lane)
    ensures Closed(Fetched(b, lane[0]), lane[1..]) == Closed(b, lane)
  {
    var p, rest := lane[0], BehindFirst(lane);
    BehindFetched(b, lane);
    assert ([p] + rest)[1..] == rest;
    if b.queue != [] && !p.Bridges() { AsideRep(b, p); } else { FrontFetched(b, p); }
    assert forall i :: 0 <= i < |lane| - 1 ==> lane[1..][i] == lane[i + 1];
  }

  /** What is left of the incarnation once its first packet is taken. */
  function BehindFirst(lane: seq<Packet>): seq<Packet>
    requires lane != []
  {
    if lane[0].EOS then [] else UpToEos(lane[1..])
  }

  lemma BehindFetched(b: Buffer, lane: seq<Packet>)
    requires b.eos == EosNone && b.pending.None? && lane != []
    ensures Behind(b, lane) == [lane[0]] + BehindFirst(lane)
    ensures Behind(Fetched(b, lane[0]), lane[1..]) ==
            if b.queue != [] && !lane[0].Bridges() then [lane[0]] + BehindFirst(lane) else BehindFirst(lane)
  {
  }

  /** What is held is the beginning of the current segment. */
  lemma ReadyIsFirst(b: Buffer, lane: seq<Packet>)
    requires Rep(b) && b.queue != []
    ensures Segs(b, lane) != [] && Ready(b) <= Segs(b, lane)[0]
  {
    assert [Ready(b)] + [] == [Ready(b)];
    ExtendKeepsFirst(Ready(b), [], Behind(b, lane));
  }

  /** When nothing more can be fetched, what is held is the whole of the current segment, and
      the buffer knows whether the segment has ended. */
  lemma NothingToFetch(b: Buffer, lane: seq<Packet>)
    requires Rep(b) && (b.pending.Some? || b.eos != EosNone || lane == [])
    ensures Segs(b, lane) == [] <==> b.queue == []
    ensures b.queue != [] ==> Segs(b, lane)[0] == Ready(b)
    ensures b.pending.Some? || b.eos != EosNone <==> |Segs(b, lane)| > 1 || Closed(b, lane)
  {
    if b.pending.Some? {
      var p, inc := b.pending.value, Incoming(b, lane);
      assert Behind(b, lane)[0] == p && Behind(b, lane)[1..] == inc;
      assert [Ready(b)] + [] == [Ready(b)];
      AddFirst(Ready(b), [], p);
      assert Segs(b, lane) == Extend(AddPacket([Ready(b)], p), inc);
      if p.buffer == [] {
        assert inc == [] && AddPacket([Ready(b)], p) == [Ready(b)];
      } else {
        assert [] + [p.buffer] == [p.buffer];
        ExtendBehind(Ready(b), [p.buffer], inc);
        ExtendKeepsFirst(p.buffer, [], inc);
        assert [p.buffer] + [] == [p.buffer];
      }
    }
  }

  lemma {:induction false} UpToEosAll(lane: seq<Packet>)
    requires forall i :: 0 <= i < |lane| ==> !lane[i].EOS
    ensures UpToEos(lane) == lane
  {
    if lane != [] {
      UpToEosAll(lane[1..]);
      assert lane == lane[..1] + lane[1..];
    }
  }

  /** A packet that joins the lane joins what is to be read. */
  lemma ArriveView(b: Buffer, lane: seq<Packet>, p: Packet)
    requires Rep(b) && !Closed(b, lane) && !p.EOS
    ensures !Closed(b, lane + [p]) && Segs(b, lane + [p]) == AddPacket(Segs(b, lane), p)
  {
    UpToEosAll(lane);
    UpToEosAll(lane + [p]);
    assert Behind(b, lane + [p]) == Behind(b, lane) + [p];
    ExtendConcat(Front(b), Behind(b, lane), [p]);
    assert [p][1..] == [];
  }

  // ---------- passing samples ----------

  function Passed(b: Buffer, n: nat): Buffer {
    b.(offset := b.offset + n, samplesQueued := b.samplesQueued - n)
  }

  lemma PassedView(b: Buffer, n: nat, lane: seq<Packet>)
    requires Rep(b) && b.queue != [] && b.offset + n < |b.queue[0].buffer|
    ensures var c := Passed(b, n);
            && Rep(c) && Closed(c, lane) == Closed(b, lane)
            && Segs(b, lane) != [] && n <= |Segs(b, lane)[0]| && Segs(c, lane) == Advance(Segs(b, lane), n)
  {
    FlatFront(b.queue);
    assert Ready(Passed(b, n)) == Ready(b)[n..];
    AdvanceExtend(Ready(b), n, Behind(b, lane));
  }

  /** _consumePacket after the rest of the front packet has been passed. */
  function Popped(b: Buffer): Buffer
    requires b.queue != []
  {
    var c := b.(queue := b.queue[1..], offset := 0, samplesQueued := b.samplesQueued - (|b.queue[0].buffer| - b.offset),
                eos := if b.queue[0].EOS then EosReached else b.eos);
    if c.queue == [] && c.pending.Some? then Queued(c.(pending := None), c.pending.value) else c
  }

  lemma PoppedView(b: Buffer, lane: seq<Packet>)
    requires Rep(b) && b.queue != []
    ensures var c, n := Popped(b), |b.queue[0].buffer| - b.offset;
            && Rep(c) && Closed(c, lane) == Closed(b, lane)
            && Segs(b, lane) != [] && n <= |Segs(b, lane)[0]| && Segs(c, lane) == Advance(Segs(b, lane), n)
            && n <= b.samplesQueued && (n < b.samplesQueued ==> c.samplesQueued == b.samplesQueued - n)
  {
    FlatFront(b.queue);
    if |b.queue| > 1 {
      PopOne(b, lane);
    } else {
      assert b.queue[1..] == [];
      assert Ready(b) == b.queue[0].buffer[b.offset..];
      AdvanceAll(Ready(b), Behind(b, lane));
      if b.pending.Some? { PopToPending(b, lane); }
    }
  }

  lemma PopOne(b: Buffer, lane: seq<Packet>)
    requires Rep(b) && |b.queue| > 1
    ensures var c, n := Popped(b), |b.queue[0].buffer| - b.offset;
            && Rep(c) && Closed(c, lane) == Closed(b, lane)
            && Segs(b, lane) != [] && n <= |Segs(b, lane)[0]| && Segs(c, lane) == Advance(Segs(b, lane), n)
            && n < b.samplesQueued
  {
    var c, n := Popped(b), |b.queue[0].buffer| - b.offset;
    FlatFront(b.queue[1..]);
    assert Rep(c);
    assert Ready(c) == Ready(b)[n..];
    AdvanceExtend(Ready(b), n, Behind(b, lane));
  }

  lemma PopToPending(b: Buffer, lane: seq<Packet>)
    requires Rep(b) && |b.queue| == 1 && b.pending.Some?
    ensures var c := Popped(b);
            Rep(c) && Closed(c, lane) == Closed(b, lane) && Segs(c, lane) == Extend([], Behind(b, lane))
  {
    var p, inc := b.pending.value, Incoming(b, lane);
    assert b.queue[1..] == [] && [] + [p] == [p] && [p][1..] == [];
    assert Behind(b, lane)[0] == p && Behind(b, lane)[1..] == inc;
    assert [] + [p.buffer] == [p.buffer];
    var c := Popped(b);
    if p.buffer == [] {
      assert inc == [] && AddPacket([], p) == [] && Front(c) == [] && Behind(c, lane) == [];
    } else {
      assert c.queue == [p] && Ready(c) == p.buffer && Behind(c, lane) == inc;
    }
  }

  /** One round of _consumeData: n samples of the front packet are passed. */
  function Consumed(b: Buffer, n: nat): Buffer
    requires b.queue != []
  {
    if b.offset + n < |b.queue[0].buffer| then Passed(b, n) else Popped(b)
  }

  lemma ConsumedView(b: Buffer, n: nat, lane: seq<Packet>)
    requires Rep(b) && b.queue != [] && b.offset + n <= |b.queue[0].buffer|
    ensures var c := Consumed(b, n);
            && Rep(c) && Closed(c, lane) == Closed(b, lane)
            && (n > 0 ==> Segs(c, lane) == AdvanceBy(Segs(b, lane), n))
            && n <= b.samplesQueued && (n < b.samplesQueued ==> c.samplesQueued == b.samplesQueued - n)
            && (c.eos == b.eos || (b.eos == EosReceived && c.eos == EosReached))
  {
    FlatFront(b.queue);
    if b.offset + n < |b.queue[0].buffer| { PassedView(b, n, lane); } else { PoppedView(b, lane); }
  }

  lemma ReportedView(b: Buffer, lane: seq<Packet>, later: seq<Packet>)
    requires Rep(b) && b.eos == EosReached
    ensures var c := b.(eos := EosReported);
            Rep(c) && Segs(c, later) == Segs(b, lane) == [] && Closed(c, later) && Closed(b, lane)
  {
  }

  // ---------- reporting flags ----------

  /** The flags of the front packet count as reported. */
  function Acknowledged(b: Buffer): Buffer
    requires b.queue != []
  {
    b.(queue := b.queue[0 := b.queue[0].(sriChanged := false, inputQueueFlushed := false)])
  }

  lemma AcknowledgedView(b: Buffer, lane: seq<Packet>)
    requires Rep(b) && b.queue != []
    ensures var c := Acknowledged(b);
            && Rep(c) && Closed(c, lane) == Closed(b, lane)
            && Segs(c, lane) == Segs(b, lane) && Flat(c.queue) == Flat(b.queue)
            && Visible(c, lane, true) == Visible(b, lane, true) && Ended(c, lane, true) == Ended(b, lane, true)
            && Item(c, lane) == Item(b, lane)
  {
    var c := Acknowledged(b);
    assert c.queue[1..] == b.queue[1..];
  }

  /** The front packet is the same but for an end-of-stream that it may have been given. */
  predicate SameFront(q: seq<Packet>, r: seq<Packet>) {
    q != [] ==> r != [] && r[0].(EOS := true) == q[0].(EOS := true)
  }

  lemma FetchedMore(b: Buffer, p: Packet)
    requires Rep(b) && b.pending.None? && b.eos == EosNone && (p.EOS || p.buffer != [])
    ensures var c := Fetched(b, p);
            && SameFront(b.queue, c.queue)
            && c.samplesQueued == b.samplesQueued + (if b.queue == [] || p.Bridges() then |p.buffer| else 0)
            && (b.queue == [] && p.buffer != [] ==> c.queue == [p])
            && ((b.queue != [] && !p.Bridges()) || p.buffer == [] ==> c.pending.Some? || c.eos != EosNone)
  {
  }

  // ---------- what a read may use ----------

  /** What a reader can get of the current segment: all of it, or at a stopped port what is
      already held. */
  function Visible(b: Buffer, lane: seq<Packet>, stopped: bool): seq<Sample>
    requires Rep(b)
  {
    if stopped then (if b.queue == [] then [] else Ready(b))
    else if Segs(b, lane) == [] then [] else Segs(b, lane)[0]
  }

  /** No more samples can join the current segment, as far as the reader can tell. */
  predicate Ended(b: Buffer, lane: seq<Packet>, stopped: bool)
    requires Rep(b)
  {
    if stopped then b.pending.Some? || b.eos != EosNone else |Segs(b, lane)| > 1 || Closed(b, lane)
  }

  /** Scalars per sample of the packet that comes next. */
  function Item(b: Buffer, lane: seq<Packet>): (n: nat)
    ensures n == 1 || n == 2
  {
    if b.queue != [] then b.queue[0].SRI.ItemSize()
    else if b.eos == EosNone && lane != [] then lane[0].SRI.ItemSize() else 1
  }

  /** What is held is a prefix of what is visible, and all of it once nothing can be fetched. */
  lemma HeldIsVisible(b: Buffer, lane: seq<Packet>, stopped: bool)
    requires Rep(b)
    ensures b.queue != [] ==> b.samplesQueued == |Ready(b)| > 0 && Ready(b) <= Visible(b, lane, stopped)
    ensures b.queue == [] ==> b.samplesQueued == 0
    ensures stopped || b.pending.Some? || b.eos != EosNone || lane == [] ==>
              && Visible(b, lane, stopped) == (if b.queue == [] then [] else Ready(b))
              && (Ended(b, lane, stopped) <==> b.pending.Some? || b.eos != EosNone)
  {
    FlatFront(b.queue);
    if b.queue != [] { ReadyIsFirst(b, lane); }
    if !stopped && (b.pending.Some? || b.eos != EosNone || lane == []) { NothingToFetch(b, lane); }
  }

  // ---------- segments, packet by packet ----------

  lemma FlatCons(p: Packet, q: seq<Packet>)
    ensures Flat([p] + q) == p.buffer + Flat(q)
  {
    assert ([p] + q)[1..] == q;
  }

  /** Behind samples d, the current segment takes in packets up to the first one with payload that is
      marked with an SRI change or a flush. */
  lemma {:induction false} CurrentSegment(d: seq<Sample>, ps: seq<Packet>) returns (n: nat)
    ensures n <= |ps| && Extend([d], ps) != [] && Extend([d], ps)[0] == d + Flat(ps[..n])
    ensures forall i :: 0 <= i < n && ps[i].buffer != [] ==> !ps[i].sriChanged && !ps[i].inputQueueFlushed
    ensures n < |ps| ==> ps[n].buffer != [] && (ps[n].sriChanged || ps[n].inputQueueFlushed)
    ensures |Extend([d], ps)| > 1 <==> n < |ps|
    decreases |ps|
  {
    if ps == [] {
      n := 0;
      assert d + Flat([]) == d;
    } else {
      var p := ps[0];
      if p.buffer != [] && (p.sriChanged || p.inputQueueFlushed) {
        n := 0;
        assert [d] + [p.buffer] == AddPacket([d], p);
        ExtendBehind(d, [p.buffer], ps[1..]);
        ExtendKeepsFirst(p.buffer, [], ps[1..]);
        assert [p.buffer] + [] == [p.buffer] && d + Flat([]) == d;
      } else {
        var e := d + p.buffer;
        assert p.buffer == [] ==> e == d;
        assert AddPacket([d], p) == [e];
        var m := CurrentSegment(e, ps[1..]);
        n := m + 1;
        assert ps[..n] == [p] + ps[1..][..m];
        FlatCons(p, ps[1..][..m]);
        Regroup(d, p.buffer, Flat(ps[1..][..m]));
        forall i | 0 <= i < n && ps[i].buffer != [] ensures !ps[i].sriChanged && !ps[i].inputQueueFlushed {
          if i > 0 { assert ps[i] == ps[1..][i - 1]; }
        }
      }
    }
  }

  lemma {:induction false} UpToEosIs(lane: seq<Packet>)
    ensures UpToEos(lane) <= lane && forall i :: 0 <= i < |UpToEos(lane)| - 1 ==> !lane[i].EOS
    ensures UpToEos(lane) != lane ==> UpToEos(lane) != [] && lane[|UpToEos(lane)| - 1].EOS
  {
    if lane != [] {
      UpToEosIs(lane[1..]);
      assert lane == lane[..1] + lane[1..];
    }
  }

  lemma EosWithin(lane: seq<Packet>)
    ensures |UpToEos(lane)| <= |lane|
    ensures HasEos(lane) <==> UpToEos(lane) != [] && lane[|UpToEos(lane)| - 1].EOS
  {
    UpToEosIs(lane);
  }

  /** The packets of this incarnation that the reader has not passed, in order. */
  function Ahead(b: Buffer, lane: seq<Packet>): seq<Packet> { b.queue + Behind(b, lane) }

  lemma AheadHeld(b: Buffer, lane: seq<Packet>) returns (n: nat)
    requires Rep(b) && b.queue != []
    ensures var ps := Ahead(b, lane);
            && 0 < |b.queue| <= n <= |ps| && b.offset <= |Flat(ps[..n])|
            && Segs(b, lane) != [] && Segs(b, lane)[0] == Flat(ps[..n])[b.offset..]
            && (forall i :: 0 < i < n && ps[i].buffer != [] ==> !ps[i].sriChanged && !ps[i].inputQueueFlushed)
            && (n < |ps| ==> ps[n].buffer != [] && (ps[n].sriChanged || ps[n].inputQueueFlushed))
            && (|Segs(b, lane)| > 1 <==> n < |ps|)
  {
    hide Extend, Behind;
    var behind, ps := Behind(b, lane), Ahead(b, lane);
    FlatFront(b.queue);
    OffsetWithin(b);
    var m := CurrentSegment(Ready(b), behind);
    n := |b.queue| + m;
    FlatBoth(b.queue, behind[..m]);
    assert ps[..n] == b.queue + behind[..m];
    forall i | 0 < i < n && ps[i].buffer != [] ensures !ps[i].sriChanged && !ps[i].inputQueueFlushed {
      if i >= |b.queue| { assert ps[i] == behind[i - |b.queue|]; }
    }
  }

  /** The same with nothing in front. */
  lemma FirstSegment(ps: seq<Packet>) returns (n: nat)
    requires ps != [] && ps[0].buffer == [] ==> |ps| == 1
    ensures n <= |ps| && (ps != [] ==> n > 0)
    ensures Flat(ps[..n]) == (if Extend([], ps) == [] then [] else Extend([], ps)[0])
    ensures forall i :: 0 < i < n && ps[i].buffer != [] ==> !ps[i].sriChanged && !ps[i].inputQueueFlushed
    ensures n < |ps| ==> ps[n].buffer != [] && (ps[n].sriChanged || ps[n].inputQueueFlushed)
    ensures |Extend([], ps)| > 1 <==> n < |ps|
  {
    n := 0;
    if ps != [] {
      var p, rest := ps[0], ps[1..];
      assert ps == [p] + rest;
      if p.buffer == [] {
        n := 1;
        assert Extend([], ps) == Extend([], rest) == [];
        FlatCons(p, []);
      } else {
        hide Flat, Extend;
        n := FirstThen(p, rest);
        ExtendFirst(p, rest);
        assert ps[..n] == [p] + rest[..n - 1];
        forall i | 0 < i < n && ps[i].buffer != [] ensures !ps[i].sriChanged && !ps[i].inputQueueFlushed {
          assert ps[i] == rest[i - 1];
        }
      }
    }
  }

  lemma ExtendFirst(p: Packet, rest: seq<Packet>)
    requires p.buffer != []
    ensures Extend([], [p] + rest) == Extend([p.buffer], rest)
  {
    assert ([p] + rest)[1..] == rest && [] + [p.buffer] == [p.buffer];
  }

  lemma FirstThen(p: Packet, rest: seq<Packet>) returns (n: nat)
    ensures 0 < n <= |rest| + 1 && Extend([p.buffer], rest) != []
    ensures Extend([p.buffer], rest)[0] == Flat([p] + rest[..n - 1])
    ensures forall i :: 0 <= i < n - 1 && rest[i].buffer != [] ==> !rest[i].sriChanged && !rest[i].inputQueueFlushed
    ensures n <= |rest| ==> rest[n - 1].buffer != [] && (rest[n - 1].sriChanged || rest[n - 1].inputQueueFlushed)
    ensures |Extend([p.buffer], rest)| > 1 <==> n <= |rest|
  {
    hide Extend;
    var m := CurrentSegment(p.buffer, rest);
    n := m + 1;
    FlatCons(p, rest[..m]);
  }

  /** What a reader can get: of the packets held, set aside and in the port, in this order, the
      payloads up to the first one behind the front that has payload and is marked with an SRI change
      or a flush, or up to an end-of-stream; and whether that is all of it. */
  lemma VisibleIs(b: Buffer, lane: seq<Packet>) returns (n: nat)
    requires Rep(b) && LaneOk(lane)
    ensures var ps := b.queue + (if b.pending.Some? then [b.pending.value] else [])
                      + (if b.eos == EosNone then lane else []);
            && n <= |ps| && b.offset <= |Flat(ps[..n])| && Visible(b, lane, false) == Flat(ps[..n])[b.offset..]
            && (forall i :: 0 < i < n && ps[i].buffer != [] ==> !ps[i].sriChanged && !ps[i].inputQueueFlushed)
            && (forall i :: 0 <= i < n - 1 ==> !ps[i].EOS)
            && (n < |ps| ==> n > 0 && (ps[n - 1].EOS
                                       || (ps[n].buffer != [] && (ps[n].sriChanged || ps[n].inputQueueFlushed))))
            && (Ended(b, lane, false) <==>
                  n < |ps| || (n > 0 && ps[n - 1].EOS) || b.eos == EosReached || b.eos == EosReported)
  {
    hide Segs, Flat, Rep, Ahead, LaneOk, Visible, Ended, HasEos;
    var ps := b.queue + (if b.pending.Some? then [b.pending.value] else []) + (if b.eos == EosNone then lane else []);
    AheadFirst(b, lane, ps);
    n := VisibleAhead(b, lane);
    assert Ahead(b, lane)[..n] == ps[..n];
    EndsWithin(b, lane, ps, n);
  }

  lemma VisibleAhead(b: Buffer, lane: seq<Packet>) returns (n: nat)
    requires Rep(b) && LaneOk(lane)
    ensures var ps := Ahead(b, lane);
            && n <= |ps| && (ps != [] ==> n > 0)
            && b.offset <= |Flat(ps[..n])| && Visible(b, lane, false) == Flat(ps[..n])[b.offset..]
            && (forall i :: 0 < i < n && ps[i].buffer != [] ==> !ps[i].sriChanged && !ps[i].inputQueueFlushed)
            && (n < |ps| ==> ps[n].buffer != [] && (ps[n].sriChanged || ps[n].inputQueueFlushed))
            && (|Segs(b, lane)| > 1 <==> n < |ps|)
  {
    hide Segs, Flat;
    if b.queue != [] {
      n := AheadHeld(b, lane);
    } else {
      NothingHeld(b, lane);
      n := FirstSegment(Behind(b, lane));
      var ps := Ahead(b, lane);
      assert Flat(ps[..n])[0..] == Flat(ps[..n]);
    }
  }

  lemma NothingHeld(b: Buffer, lane: seq<Packet>)
    requires Rep(b) && LaneOk(lane) && b.queue == []
    ensures b.offset == 0 && Ahead(b, lane) == Behind(b, lane) && Segs(b, lane) == Extend([], Behind(b, lane))
    ensures Behind(b, lane) != [] && Behind(b, lane)[0].buffer == [] ==> |Behind(b, lane)| == 1
  {
  }

  lemma AheadFirst(b: Buffer, lane: seq<Packet>, ps: seq<Packet>)
    requires Rep(b)
    requires ps == b.queue + (if b.pending.Some? then [b.pending.value] else []) + (if b.eos == EosNone then lane
            else [])
    ensures var a := Ahead(b, lane);
            && a <= ps && (forall i :: 0 <= i < |a| - 1 ==> !ps[i].EOS)
            && (|a| < |ps| ==> a != [] && ps[|a| - 1].EOS)
            && (a != [] && ps[|a| - 1].EOS <==> b.eos == EosReceived || (b.eos == EosNone && HasEos(lane)))
  {
    if b.eos != EosNone {
      AheadEnded(b, lane, ps);
    } else {
      AheadOpen(b, lane, ps);
    }
  }

  lemma AheadEnded(b: Buffer, lane: seq<Packet>, ps: seq<Packet>)
    requires Rep(b) && b.eos != EosNone
    requires ps == b.queue + (if b.pending.Some? then [b.pending.value] else []) + []
    ensures Ahead(b, lane) == ps && (forall i :: 0 <= i < |ps| - 1 ==> !ps[i].EOS)
    ensures ps != [] && ps[|ps| - 1].EOS <==> b.eos == EosReceived
  {
    hide Flat;
  }

  lemma AheadOpen(b: Buffer, lane: seq<Packet>, ps: seq<Packet>)
    requires Rep(b) && b.eos == EosNone
    requires ps == b.queue + (if b.pending.Some? then [b.pending.value] else []) + lane
    ensures var a := Ahead(b, lane);
            && a <= ps && (forall i :: 0 <= i < |a| - 1 ==> !ps[i].EOS)
            && (|a| < |ps| ==> a != [] && ps[|a| - 1].EOS)
            && (a != [] && ps[|a| - 1].EOS <==> HasEos(lane))
  {
    hide Flat, UpToEos, HasEos;
    UpToEosIs(lane);
    EosWithin(lane);
    var held, up := b.queue + (if b.pending.Some? then [b.pending.value] else []), UpToEos(lane);
    OpenHeld(b, held);
    assert Ahead(b, lane) == held + up by { Regroup(b.queue, held[|b.queue|..], up); }
    BehindOpen(held, up, lane, ps);
  }

  lemma BehindOpen(held: seq<Packet>, up: seq<Packet>, lane: seq<Packet>, ps: seq<Packet>)
    requires ps == held + lane && up <= lane && (forall i :: 0 <= i < |held| ==> !held[i].EOS)
    requires forall i :: 0 <= i < |up| - 1 ==> !lane[i].EOS
    requires up != lane ==> up != [] && lane[|up| - 1].EOS
    ensures held + up <= ps && (forall i :: 0 <= i < |held + up| - 1 ==> !ps[i].EOS)
    ensures |held + up| < |ps| ==> held + up != [] && ps[|held + up| - 1].EOS
    ensures held + up != [] && ps[|held + up| - 1].EOS <==> up != [] && lane[|up| - 1].EOS
  {
    forall i | 0 <= i < |held + up| - 1 ensures !ps[i].EOS {
      if i >= |held| { assert ps[i] == lane[i - |held|]; }
    }
    if up != [] { assert ps[|held + up| - 1] == lane[|up| - 1]; }
  }

  lemma OpenHeld(b: Buffer, held: seq<Packet>)
    requires Rep(b) && b.eos == EosNone
    requires held == b.queue + (if b.pending.Some? then [b.pending.value] else [])
    ensures forall i :: 0 <= i < |held| ==> !held[i].EOS
  {
    hide Flat;
  }

  lemma EndsWithin(b: Buffer, lane: seq<Packet>, ps: seq<Packet>, n: nat)
    requires Rep(b) && Ahead(b, lane) <= ps && n <= |Ahead(b, lane)| && (Ahead(b, lane) != [] ==> n > 0)
    requires forall i :: 0 <= i < |Ahead(b, lane)| - 1 ==> !ps[i].EOS
    requires var a := Ahead(b, lane);
             && (|a| < |ps| ==> a != [] && ps[|a| - 1].EOS)
             && (a != [] && ps[|a| - 1].EOS <==> b.eos == EosReceived || (b.eos == EosNone && HasEos(lane)))
    requires |Segs(b, lane)| > 1 <==> n < |Ahead(b, lane)|
    ensures Ended(b, lane, false) <==>
              n < |ps| || (n > 0 && ps[n - 1].EOS) || b.eos == EosReached || b.eos == EosReported
  {
    hide Rep, Segs, Ahead, HasEos;
  }

  lemma {:induction false} FlatBoth(a: seq<Packet>, b: seq<Packet>)
    ensures Flat(a + b) == Flat(a) + Flat(b)
  {
    if a == [] {
      assert a + b == b;
    } else {
      FlatBoth(a[1..], b);
      assert (a + b)[1..] == a[1..] + b && (a + b)[0] == a[0];
    }
  }

  // ---------- the stretches of packets in a block ----------

  /** The first `count` scalars of a queue from `start` in its front packet on, packet by packet. */
  function Pieces(q: seq<Packet>, start: nat, count: nat): seq<Piece>
    requires q != [] ==> start <= |q[0].buffer|
  {
    if count == 0 || q == [] then [] else
      var pass := Min(|q[0].buffer| - start, count);
      [Piece(q[0].T, start, q[0].buffer[start..start + pass])] + Pieces(q[1..], 0, count - pass)
  }

  lemma {:induction false} PiecesData(q: seq<Packet>, start: nat, count: nat)
    requires q != [] ==> start <= |q[0].buffer|
    requires start + count <= |Flat(q)|
    ensures Data(Pieces(q, start, count)) == Flat(q)[start..start + count]
    decreases |q|
  {
    if count == 0 {
      assert Flat(q)[start..start + count] == [];
    } else {
      var first, rest := q[0].buffer, Flat(q[1..]);
      var pass := Min(|first| - start, count);
      assert Flat(q) == first + rest;
      PiecesData(q[1..], 0, count - pass);
      SliceAcross(first, rest, start, count);
      PiecesFirst(q, start, count);
    }
  }

  lemma PiecesFirst(q: seq<Packet>, start: nat, count: nat)
    requires q != [] && start <= |q[0].buffer| && count > 0
    ensures var pass := Min(|q[0].buffer| - start, count);
            Data(Pieces(q, start, count)) == q[0].buffer[start..start + pass] + Data(Pieces(q[1..], 0, count - pass))
  {
    var pass := Min(|q[0].buffer| - start, count);
    var piece, rest := Piece(q[0].T, start, q[0].buffer[start..start + pass]), Pieces(q[1..], 0, count - pass);
    assert ([piece] + rest)[1..] == rest;
  }

  lemma SliceAcross(a: seq<Sample>, b: seq<Sample>, start: nat, count: nat)
    requires start <= |a| && start + count <= |a + b|
    ensures var pass := Min(|a| - start, count);
            count - pass <= |b| && (a + b)[start..start + count] == a[start..start + pass] + b[0..count - pass]
  {
  }

  /** The i-th stretch is the i-th packet's, from its beginning on but for the first. */
  lemma {:induction false} PiecesAt(q: seq<Packet>, start: nat, count: nat, i: nat)
    requires (q != [] ==> start <= |q[0].buffer|) && i < |Pieces(q, start, count)|
    ensures i < |q| && Pieces(q, start, count)[i].T == q[i].T
    ensures Pieces(q, start, count)[i].start == if i == 0 then start else 0
    ensures |Data(Pieces(q, start, count)[..i])| == |Flat(q[..i])| - if i == 0 then 0 else start
    decreases |q|
  {
    if i > 0 {
      var pass, ps := Min(|q[0].buffer| - start, count), Pieces(q, start, count);
      var first, rest := Piece(q[0].T, start, q[0].buffer[start..start + pass]), Pieces(q[1..], 0, count - pass);
      assert ps == [first] + rest && ps[..i] == [first] + rest[..i - 1];
      PiecesAt(q[1..], 0, count - pass, i - 1);
      assert ps[..i][1..] == rest[..i - 1];
      assert q[..i] == [q[0]] + q[1..][..i - 1];
      FlatCons(q[0], q[1..][..i - 1]);
    }
  }

  /** No stretch of packets that hold something is empty. */
  lemma {:induction false} PiecesNonEmpty(q: seq<Packet>, start: nat, count: nat)
    requires q != [] ==> start < |q[0].buffer|
    requires forall i :: 0 <= i < |q| ==> q[i].buffer != []
    ensures NonEmpty(Pieces(q, start, count))
    decreases |q|
  {
    if count > 0 && q != [] {
      var pass := Min(|q[0].buffer| - start, count);
      PiecesNonEmpty(q[1..], 0, count - pass);
      var first, rest := Piece(q[0].T, start, q[0].buffer[start..start + pass]), Pieces(q[1..], 0, count - pass);
      assert Pieces(q, start, count) == [first] + rest;
    }
  }
}
