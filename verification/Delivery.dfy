/** A buffered stream and one connection it is routed to, over whole runs. */
module Delivery {
  import opened BulkioTypes
  import opened PrecisionTime
  import opened Chunking
  import opened Wire
  import opened Bracketing
  import opened SriInForce
  import opened Buffering
  import Emissions

  /** What the port does to a connection for a packet of a stream. */
  function EventOf(p: Push, routed: bool): Event {
    PacketEvent(p.sri.streamID, p.sri, p.version, p.data, p.T, p.EOS, routed)
  }

  predicate Room(sri: Sri, limit: nat) { FrameSize(sri) <= limit }

  lemma RoomFits(p: Push, routed: bool, limit: nat)
    requires Room(p.sri, limit)
    ensures EventOf(p, routed).Fits(limit)
  {
    hide PushSize, FrameSize;
    PushSizeWhole(limit, p.sri);
  }

  function Deliver(c: Conn, p: Push, routed: bool, limit: nat): Conn
    requires Room(p.sri, limit)
  {
    RoomFits(p, routed, limit);
    Step(c, EventOf(p, routed), limit)
  }

  /** What a packet of a stream does to a connection: nothing if that is dead or the stream is not
      routed to it. Otherwise due are the stream's SRI, unless its version is on record, and the
      packet's data, time and end cut to the limit, and they get through up to the first failure. */
  lemma DeliverFigures(c: Conn, p: Push, routed: bool, limit: nat) returns (j: nat)
    requires Room(p.sri, limit)
    ensures !c.alive || !routed ==> Deliver(c, p, routed, limit) == c
    ensures PushSize(limit, p.sri) > 0 || p.data == []
    ensures c.alive && routed ==>
              var id, after := p.sri.streamID, Deliver(c, p, routed, limit);
              var known := id in c.versions && c.versions[id] == p.version;
              var due := (if known then [] else [SriMessage(p.sri)])
                         + Chunks(p.data, p.T, p.EOS, id, PushSize(limit, p.sri), p.sri);
              && j <= |due| && (forall i :: 0 <= i < j && i < |c.script| ==> c.script[i] == Delivered)
              && (j < |due| ==> j < |c.script| && c.script[j] != Delivered)
              && after.log == c.log + due[..j]
              && after.versions == (if j == |due| && p.EOS then c.versions - {id} else c.versions[id := p.version])
              && (after.alive <==> j == |due| || (c.script[j] == TimedOut && (known || j > 0)))
  {
    hide Chunks, PushSize, FrameSize;
    RoomFits(p, routed, limit);
    j := 0;
    if c.alive && routed {
      var ms := Chunks(p.data, p.T, p.EOS, p.sri.streamID, PushSize(limit, p.sri), p.sri);
      j := SendFigures(c, p.sri.streamID, p.sri, p.version, ms, p.EOS);
    }
  }

  function DeliverAll(c: Conn, ps: seq<Push>, routed: bool, limit: nat): Conn
    requires forall p :: p in ps ==> Room(p.sri, limit)
    decreases |ps|
  {
    if ps == [] then c else DeliverAll(Deliver(c, ps[0], routed, limit), ps[1..], routed, limit)
  }

  lemma {:induction false} DeliverAllConcat(c: Conn, a: seq<Push>, b: seq<Push>, routed: bool, limit: nat)
    requires (forall p :: p in a ==> Room(p.sri, limit)) && (forall p :: p in b ==> Room(p.sri, limit))
    ensures forall p :: p in a + b ==> Room(p.sri, limit)
    ensures DeliverAll(c, a + b, routed, limit) == DeliverAll(DeliverAll(c, a, routed, limit), b, routed, limit)
    decreases |a|
  {
    hide Room, Deliver;
    if a == [] {
      assert a + b == b;
    } else {
      DeliverAllConcat(Deliver(c, a[0], routed, limit), a[1..], b, routed, limit);
      assert (a + b)[0] == a[0] && (a + b)[1..] == a[1..] + b;
    }
  }

  /** The connection is up to date with a stream, or knows that it is not: its version is the
      stream's only if the SRI it was told last is the stream's, and never a later one. */
  predicate UpToDate(c: Conn, s: Sender) {
    && c.alive && AllDelivered(c.script)
    && (s.sri.streamID in c.versions ==> c.versions[s.sri.streamID] <= s.modcount)
    && InForce(c, s.sri.streamID, s.sri, s.modcount)
  }

  lemma DeliverReceived(c: Conn, p: Push, limit: nat, s: Sender)
    requires Room(p.sri, limit) && UpToDate(c, s) && p.sri == s.sri && p.version == s.modcount
    ensures var after, id := Deliver(c, p, true, limit), s.sri.streamID;
            && UpToDate(after, s)
            && Received(after.log, id) == Received(c.log, id) + Tag(p.data, Some(s.sri))
            && (p.EOS ==> id !in after.versions)
  {
    hide Tag, LastSri, Received, Step, AllDelivered;
    RoomFits(p, true, limit);
    PacketReceived(c, EventOf(p, true), limit);
  }

  lemma {:induction false} DeliverAllReceived(c: Conn, ps: seq<Push>, limit: nat, s: Sender)
    requires Room(s.sri, limit) && UpToDate(c, s) && AllWith(ps, s.sri, s.modcount)
    ensures forall p :: p in ps ==> Room(p.sri, limit)
    ensures var after, id := DeliverAll(c, ps, true, limit), s.sri.streamID;
            UpToDate(after, s) && Received(after.log, id) == Received(c.log, id) + Tag(Scalars(ps), Some(s.sri))
    decreases |ps|
  {
    hide Received, UpToDate, Deliver, Room;
    var id := s.sri.streamID;
    if ps == [] {
      assert Received(c.log, id) + [] == Received(c.log, id);
    } else {
      assert ps[0] in ps;
      DeliverReceived(c, ps[0], limit, s);
      AllWithRest(ps, s.sri, s.modcount);
      DeliverAllReceived(Deliver(c, ps[0], true, limit), ps[1..], limit, s);
      TagConcat(ps[0].data, Scalars(ps[1..]), Some(s.sri));
      Regroup(Received(c.log, id), Tag(ps[0].data, Some(s.sri)), Tag(Scalars(ps[1..]), Some(s.sri)));
    }
  }

  lemma AllWithRest(ps: seq<Push>, sri: Sri, version: int)
    requires ps != [] && AllWith(ps, sri, version)
    ensures AllWith(ps[1..], sri, version)
  {
    forall p | p in ps[1..] ensures p.sri == sri && p.version == version && !p.EOS { assert p in ps; }
  }

  /** A run of one stream and one connection, among whatever other streams do to the connection. */
  datatype Move = Own(op: Op) | Other(e: Event)

  predicate MoveFits(m: Move, limit: nat, id: string) {
    match m
    case Own(op) => op.SriOp? ==> Room(op.sri, limit)
    case Other(e) => e.Fits(limit) && e.id != id
  }

  lemma EmitsRoom(s: Sender, op: Op, limit: nat)
    requires s.Valid() && Room(s.sri, limit)
    ensures forall p :: p in OpEmits(s, op) ==> Room(p.sri, limit)
  {
    hide Room, OpEmits;
    OpKeeps(s, op);
  }

  lemma StepRoom(s: Sender, m: Move, limit: nat)
    requires s.Valid() && Room(s.sri, limit) && MoveFits(m, limit, s.sri.streamID)
    ensures m.Own? ==> OpStep(s, m.op).Valid() && Room(OpStep(s, m.op).sri, limit)
                       && OpStep(s, m.op).sri.streamID == s.sri.streamID
  {
    hide Scalars, DoBufferEmits, DoBuffer, FrameSize;
    if m.Own? {
      OpKeeps(s, m.op);
      if m.op.SriOp? && !SameFields(s.sri, m.op.sri) {
        FrameOf(m.op.sri, s.sri.streamID);
        assert OpStep(s, m.op).sri == m.op.sri.(streamID := s.sri.streamID);
      }
    }
  }

  lemma FrameOf(sri: Sri, id: string)
    ensures FrameSize(sri.(streamID := id)) == FrameSize(sri)
  {
  }

  function MoveSender(s: Sender, m: Move): Sender
    requires s.Valid()
  {
    if m.Own? then OpStep(s, m.op) else s
  }

  /** What an operation of a stream does to a connection. */
  function OpConn(c: Conn, s: Sender, op: Op, routed: bool, limit: nat): Conn
    requires s.Valid() && Room(s.sri, limit)
  {
    EmitsRoom(s, op, limit);
    DeliverAll(c, OpEmits(s, op), routed, limit)
  }

  function MoveConn(c: Conn, s: Sender, m: Move, limit: nat): Conn
    requires s.Valid() && Room(s.sri, limit) && MoveFits(m, limit, s.sri.streamID)
  {
    match m
    case Own(op) => OpConn(c, s, op, true, limit)
    case Other(e) => Step(c, e, limit)
  }

  /** What a move writes to the stream, with the SRI in force. */
  function MoveWrites(s: Sender, m: Move): seq<Tagged> {
    if m.Own? then Tag(Written(m.op), Some(s.sri)) else []
  }

  predicate Balanced(c: Conn, s: Sender, before: seq<Tagged>) {
    UpToDate(c, s) && Received(c.log, s.sri.streamID) + Tag(s.buffer, Some(s.sri)) == before
  }

  /** What has been received and what is buffered, each sample with its SRI, grows by exactly what
      is written; the buffered samples are those of the SRI in force. */
  lemma MoveBalanced(c: Conn, s: Sender, m: Move, limit: nat, before: seq<Tagged>)
    requires s.Valid() && Room(s.sri, limit) && MoveFits(m, limit, s.sri.streamID) && Balanced(c, s, before)
    ensures Balanced(MoveConn(c, s, m, limit), MoveSender(s, m), before + MoveWrites(s, m))
  {
    hide Tag, Received, Deliver, DeliverAll, Room, OpEmits, OpStep, Step, AllDelivered, Known, AllWith, Scalars,
         LastSri;
    var id, tag := s.sri.streamID, Some(s.sri);
    if m.Other? {
      OtherReceived(c, m.e, limit, s);
      assert before + [] == before;
    } else {
      var ps, after := OpEmits(s, m.op), OpStep(s, m.op);
      OpKeeps(s, m.op);
      DeliverAllReceived(c, ps, limit, s);
      TagConcat(Scalars(ps), after.buffer, tag);
      TagConcat(s.buffer, Written(m.op), tag);
      Regroup(Received(c.log, id), Tag(Scalars(ps), tag), Tag(after.buffer, tag));
      Regroup(Received(c.log, id), Tag(s.buffer, tag), Tag(Written(m.op), tag));
      NewVersion(DeliverAll(c, ps, true, limit), s, after);
    }
  }

  lemma NewVersion(c: Conn, s: Sender, after: Sender)
    requires UpToDate(c, s) && after.sri.streamID == s.sri.streamID
    requires if after.modcount == s.modcount then after.sri == s.sri
             else after.modcount == s.modcount + 1 && after.buffer == []
    ensures UpToDate(c, after) && Tag(after.buffer, Some(after.sri)) == Tag(after.buffer, Some(s.sri))
  {
  }

  lemma OtherReceived(c: Conn, e: Event, limit: nat, s: Sender)
    requires e.Fits(limit) && e.id != s.sri.streamID && UpToDate(c, s)
    ensures UpToDate(Step(c, e, limit), s)
    ensures Received(Step(c, e, limit).log, s.sri.streamID) == Received(c.log, s.sri.streamID)
  {
    hide Tag, Received, LastSri, AllDelivered, PushSri, PushAll, PushPacket, Chunks, PushSize;
    if e.routed {
      if e.PacketEvent? {
        PacketElsewhere(c, e, limit, s.sri.streamID);
      } else {
        SriReceived(c, e.id, e.sri, e.version, s.sri.streamID);
      }
    }
  }

  function RunSender(s: Sender, ms: seq<Move>, limit: nat): Sender
    requires s.Valid() && Room(s.sri, limit) && (forall m :: m in ms ==> MoveFits(m, limit, s.sri.streamID))
    decreases |ms|
  {
    if ms == [] then s
    else
      StepRoom(s, ms[0], limit);
      RunSender(MoveSender(s, ms[0]), ms[1..], limit)
  }

  function RunConn(c: Conn, s: Sender, ms: seq<Move>, limit: nat): Conn
    requires s.Valid() && Room(s.sri, limit) && (forall m :: m in ms ==> MoveFits(m, limit, s.sri.streamID))
    decreases |ms|
  {
    if ms == [] then c
    else
      StepRoom(s, ms[0], limit);
      RunConn(MoveConn(c, s, ms[0], limit), MoveSender(s, ms[0]), ms[1..], limit)
  }

  function RunWrites(s: Sender, ms: seq<Move>, limit: nat): seq<Tagged>
    requires s.Valid() && Room(s.sri, limit) && (forall m :: m in ms ==> MoveFits(m, limit, s.sri.streamID))
    decreases |ms|
  {
    if ms == [] then []
    else
      StepRoom(s, ms[0], limit);
      MoveWrites(s, ms[0]) + RunWrites(MoveSender(s, ms[0]), ms[1..], limit)
  }

  /** In every error-free run of a stream, from a connection that is up to date (one just made is),
      each sample is received once, in order, with the SRI in force when it was written. */
  lemma {:induction false} SriInForceWhenWritten(c: Conn, s: Sender, ms: seq<Move>, limit: nat, before: seq<Tagged>)
    requires s.Valid() && Room(s.sri, limit) && (forall m :: m in ms ==> MoveFits(m, limit, s.sri.streamID))
    requires Balanced(c, s, before)
    ensures Balanced(RunConn(c, s, ms, limit), RunSender(s, ms, limit), before + RunWrites(s, ms, limit))
    decreases |ms|
  {
    hide Balanced, Room, MoveConn, MoveSender, MoveWrites;
    if ms == [] {
      assert before + [] == before;
    } else {
      var m := ms[0];
      StepRoom(s, m, limit);
      SenderStays(s, m);
      MoveBalanced(c, s, m, limit, before);
      SriInForceWhenWritten(MoveConn(c, s, m, limit), MoveSender(s, m), ms[1..], limit, before + MoveWrites(s, m));
      Regroup(before, MoveWrites(s, m), RunWrites(MoveSender(s, m), ms[1..], limit));
    }
  }

  lemma SenderStays(s: Sender, m: Move)
    requires s.Valid()
    ensures MoveSender(s, m) == if m.Own? then OpStep(s, m.op) else s
  {
  }

  /** Once the SRI has been set, what was buffered has been received under the old one, and what is
      written next is received under the new one, which keeps the stream's ID. */
  lemma NewSriReceived(c: Conn, s: Sender, newSri: Sri, data: seq<Sample>, time: Time, limit: nat)
    requires s.Valid() && Room(s.sri, limit) && Room(newSri, limit) && UpToDate(c, s)
    ensures var s1, c1 := OpStep(s, SriOp(newSri)), OpConn(c, s, SriOp(newSri), true, limit);
            && s1.Valid() && Room(s1.sri, limit) && s1.sri == newSri.(streamID := s.sri.streamID)
            && var s2, c2 := OpStep(s1, WriteOp(data, time)), OpConn(c1, s1, WriteOp(data, time), true, limit);
            && s2.Valid() && Room(s2.sri, limit)
            && Received(OpConn(c2, s2, FlushOp, true, limit).log, s.sri.streamID)
               == Received(c.log, s.sri.streamID) + Tag(s.buffer, Some(s.sri))
                  + Tag(data, Some(newSri.(streamID := s.sri.streamID)))
  {
    hide Received, Tag, OpStep, OpEmits, UpToDate, OpConn, Room, Scalars;
    var id, before := s.sri.streamID, Received(c.log, s.sri.streamID) + Tag(s.buffer, Some(s.sri));
    var s1, c1 := OpStep(s, SriOp(newSri)), OpConn(c, s, SriOp(newSri), true, limit);
    OpMoves(c, s, SriOp(newSri), limit, before);
    Emissions.ChangeFigures(s, SriOp(newSri));
    FrameOf(newSri, id);
    assert Room(s1.sri, limit) by { RoomFor(newSri, id, limit); }
    var s2, c2 := OpStep(s1, WriteOp(data, time)), OpConn(c1, s1, WriteOp(data, time), true, limit);
    OpMoves(c1, s1, WriteOp(data, time), limit, before + Tag([], Some(s.sri)));
    Emissions.WriteFigures(s1, data, time);
    OpMoves(c2, s2, FlushOp, limit, before + Tag([], Some(s.sri)) + Tag(data, Some(s1.sri)));
    Emissions.ChangeFigures(s2, FlushOp);
    NoTag(Some(s.sri));
    NoTag(Some(s2.sri));
    var c3, s3 := OpConn(c2, s2, FlushOp, true, limit), OpStep(s2, FlushOp);
    assert s3.buffer == [] && s3.sri == s2.sri == s1.sri;
    assert Received(c3.log, id) + [] == Received(c3.log, id) && before + [] == before;
    assert before + Tag(data, Some(s1.sri)) + [] == before + Tag(data, Some(s1.sri));
  }

  lemma RoomFor(sri: Sri, id: string, limit: nat)
    requires Room(sri, limit)
    ensures Room(sri.(streamID := id), limit)
  {
    FrameOf(sri, id);
  }

  lemma OpMoves(c: Conn, s: Sender, op: Op, limit: nat, before: seq<Tagged>)
    requires s.Valid() && Room(s.sri, limit) && (op.SriOp? ==> Room(op.sri, limit)) && UpToDate(c, s)
    requires Received(c.log, s.sri.streamID) + Tag(s.buffer, Some(s.sri)) == before
    ensures var d, t := OpConn(c, s, op, true, limit), OpStep(s, op);
            && t.Valid() && UpToDate(d, t) && t.sri.streamID == s.sri.streamID
            && Received(d.log, s.sri.streamID) + Tag(t.buffer, Some(t.sri)) == before + Tag(Written(op), Some(s.sri))
  {
    hide Received, Tag, OpStep, OpEmits, UpToDate, OpConn, Room, Scalars;
    MoveBalanced(c, s, Own(op), limit, before);
    OpKeeps(s, op);
  }

  /** Closing the stream delivers the rest, and leaves the connection up to date for whatever
      stream takes the ID next. */
  lemma CloseReceived(c: Conn, s: Sender, limit: nat, next: Sender, before: seq<Tagged>)
    requires s.Valid() && Room(s.sri, limit) && Balanced(c, s, before)
    requires next.sri.streamID == s.sri.streamID && next.buffer == []
    ensures Balanced(Deliver(c, CloseEmit(s), true, limit), next, before)
  {
    hide Received, LastSri, Step, Tag;
    DeliverReceived(c, CloseEmit(s), limit, s);
    NoTag(Some(next.sri));
    var after := Deliver(c, CloseEmit(s), true, limit);
    assert Received(after.log, s.sri.streamID) + [] == Received(after.log, s.sri.streamID);
  }
}
