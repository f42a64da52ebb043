/** A stream and one connection of its port over runs in which any call may fail. */
module Failures {
  import opened BulkioTypes
  import opened PrecisionTime
  import opened Chunking
  import opened Wire
  import opened Bracketing
  import opened SriInForce
  import opened Buffering
  import opened Delivery

  /** The version on record, if it is the stream's, stands for the stream's SRI; or nothing will
      be sent any more. */
  predicate InStep(c: Conn, s: Sender) {
    c.alive ==>
      && (s.sri.streamID in c.versions ==> c.versions[s.sri.streamID] <= s.modcount)
      && InForce(c, s.sri.streamID, s.sri, s.modcount)
  }

  function EventsOf(ps: seq<Push>): seq<Event> {
    if ps == [] then [] else [EventOf(ps[0], true)] + EventsOf(ps[1..])
  }

  /** What a run of the stream, among others, does to the connection, event by event. */
  function RunEvents(s: Sender, ms: seq<Move>, limit: nat): seq<Event>
    requires s.Valid() && Room(s.sri, limit) && (forall m :: m in ms ==> MoveFits(m, limit, s.sri.streamID))
    decreases |ms|
  {
    if ms == [] then []
    else
      StepRoom(s, ms[0], limit);
      (match ms[0] case Own(op) => EventsOf(OpEmits(s, op)) case Other(e) => [e])
      + RunEvents(MoveSender(s, ms[0]), ms[1..], limit)
  }

  /** A step of the stream, or of any other, with whatever failures: a push of the SRI that fails
      kills the connection, so what gets through does so under the right SRI. */
  lemma StepInStep(c: Conn, e: Event, limit: nat, s: Sender)
    requires e.Fits(limit) && InStep(c, s)
    requires e.id == s.sri.streamID ==> e.PacketEvent? && e.sri == s.sri && e.version == s.modcount
    ensures InStep(Step(c, e, limit), s)
    ensures AllInForce(c, [e], limit, s.sri.streamID)
  {
    hide LastSri, Chunks, PushSize, PushAll, PushAllOutcome, IsPacket, Got;
    var id := s.sri.streamID;
    RunOne(c, e, limit);
    GotOwn(c, e, limit, id);
    if c.alive {
      InForceLost(c, e, limit, id, s.sri, s.modcount);
    } else {
      assert Got(c, e, limit, id) == [] by { Unsent(c, e, limit, id); }
    }
    if e.routed && c.alive {
      SriReceived(c, e.id, e.sri, e.version, id);
      if e.PacketEvent? {
        ChunksArePacket(e.data, e.T, e.EOS, e.id, PushSize(limit, e.sri), e.sri);
        PushAllReceived(PushSri(c, e.id, e.sri, e.version), e.Pushes(limit), e.id, e.EOS, id);
      }
    }
  }

  lemma Unsent(c: Conn, e: Event, limit: nat, id: string)
    requires e.Fits(limit) && !c.alive
    ensures Got(c, e, limit, id) == []
  {
  }

  lemma RunOne(c: Conn, e: Event, limit: nat)
    requires e.Fits(limit)
    ensures [e][..0] == [] && Bracketing.Run(c, [], limit) == c && Bracketing.Run(c, [e], limit) == Step(c, e, limit)
  {
    assert [e][..0] == [];
  }

  lemma {:induction false} RunBoth(c: Conn, a: seq<Event>, b: seq<Event>, limit: nat, id: string)
    requires (forall e :: e in a ==> e.Fits(limit)) && (forall e :: e in b ==> e.Fits(limit))
    ensures forall e :: e in a + b ==> e.Fits(limit)
    ensures Bracketing.Run(c, a + b, limit) == Bracketing.Run(Bracketing.Run(c, a, limit), b, limit)
    ensures AllInForce(c, a + b, limit, id)
            <==> AllInForce(c, a, limit, id) && AllInForce(Bracketing.Run(c, a, limit), b, limit, id)
    decreases |b|
  {
    hide Step, Got, InForce;
    if b == [] {
      assert a + b == a;
    } else {
      var e, first := b[|b| - 1], b[..|b| - 1];
      RunBoth(c, a, first, limit, id);
      assert (a + b)[|a + b| - 1] == e && (a + b)[..|a + b| - 1] == a + first;
    }
  }

  lemma {:induction false} PushesInStep(c: Conn, ps: seq<Push>, limit: nat, s: Sender)
    requires Room(s.sri, limit) && InStep(c, s) && AllWith(ps, s.sri, s.modcount)
    ensures (forall p :: p in ps ==> Room(p.sri, limit)) && (forall e :: e in EventsOf(ps) ==> e.Fits(limit))
    ensures Bracketing.Run(c, EventsOf(ps), limit) == DeliverAll(c, ps, true, limit)
            && InStep(DeliverAll(c, ps, true, limit), s)
    ensures AllInForce(c, EventsOf(ps), limit, s.sri.streamID)
    decreases |ps|
  {
    hide InStep, Step, Room, AllInForce;
    if ps == [] {
      NoEvents(c, limit, s.sri.streamID);
    } else {
      assert ps[0] in ps;
      RoomFits(ps[0], true, limit);
      var e := EventOf(ps[0], true);
      StepInStep(c, e, limit, s);
      RunOne(c, e, limit);
      AllWithRest(ps, s.sri, s.modcount);
      PushesInStep(Step(c, e, limit), ps[1..], limit, s);
      RunBoth(c, [e], EventsOf(ps[1..]), limit, s.sri.streamID);
    }
  }

  lemma NoEvents(c: Conn, limit: nat, id: string)
    ensures Bracketing.Run(c, [], limit) == c && AllInForce(c, [], limit, id)
  {
  }

  lemma MoveInStep(c: Conn, s: Sender, m: Move, limit: nat)
    requires s.Valid() && Room(s.sri, limit) && MoveFits(m, limit, s.sri.streamID) && InStep(c, s)
    ensures var es := match m case Own(op) => EventsOf(OpEmits(s, op)) case Other(e) => [e];
            && (forall e :: e in es ==> e.Fits(limit))
            && Bracketing.Run(c, es, limit) == MoveConn(c, s, m, limit) && AllInForce(c, es, limit, s.sri.streamID)
    ensures InStep(MoveConn(c, s, m, limit), MoveSender(s, m))
  {
    hide Deliver, DeliverAll, Room, OpEmits, OpStep, Step, AllWith, Scalars, LastSri, AllInForce, EventsOf;
    if m.Other? {
      StepInStep(c, m.e, limit, s);
      RunOne(c, m.e, limit);
    } else {
      OpKeeps(s, m.op);
      PushesInStep(c, OpEmits(s, m.op), limit, s);
    }
  }

  /** In every run of a stream that is used through its handle, among whatever other streams do,
      and with whatever failures: every sample that gets through is read with its packet's SRI. */
  lemma {:induction false} StreamInForce(c: Conn, s: Sender, ms: seq<Move>, limit: nat)
    requires s.Valid() && Room(s.sri, limit) && (forall m :: m in ms ==> MoveFits(m, limit, s.sri.streamID))
    requires InStep(c, s)
    ensures var es, id := RunEvents(s, ms, limit), s.sri.streamID;
            && (forall e :: e in es ==> e.Fits(limit))
            && RunConn(c, s, ms, limit) == Bracketing.Run(c, es, limit)
            && AllInForce(c, es, limit, id)
            && Received(RunConn(c, s, ms, limit).log, id) == Received(c.log, id) + Meant(c, es, limit, id)
    ensures InStep(RunConn(c, s, ms, limit), RunSender(s, ms, limit))
    decreases |ms|
  {
    hide InStep, Room, MoveConn, MoveSender, AllInForce, Received, Meant, EventsOf, OpEmits, Bracketing.Run, MoveFits;
    if ms == [] {
      NoEvents(c, limit, s.sri.streamID);
    } else {
      var m := ms[0];
      StepRoom(s, m, limit);
      SenderStays(s, m);
      MoveInStep(c, s, m, limit);
      StreamInForce(MoveConn(c, s, m, limit), MoveSender(s, m), ms[1..], limit);
      RunBoth(c, match m case Own(op) => EventsOf(OpEmits(s, op)) case Other(e) => [e],
              RunEvents(MoveSender(s, m), ms[1..], limit), limit, s.sri.streamID);
    }
    RunInForceExactly(c, RunEvents(s, ms, limit), limit, s.sri.streamID);
  }

  /** A connection on which a stream was closed is in step with every stream that may take the ID
      next exactly when it is dead or has forgotten the ID, which it does once the end-of-stream has
      been received. */
  lemma CloseInStep(c: Conn, s: Sender, limit: nat)
    requires s.Valid() && Room(s.sri, limit) && InStep(c, s)
    ensures var after, id := Deliver(c, CloseEmit(s), true, limit), s.sri.streamID;
            (forall next: Sender :: next.sri.streamID == id ==> InStep(after, next))
            <==> !after.alive || id !in after.versions
  {
    hide Deliver, LastSri;
    var after, id := Deliver(c, CloseEmit(s), true, limit), s.sri.streamID;
    if after.alive && id in after.versions {
      var sri := if LastSri(after.log, id) == Some(s.sri) then s.sri.(rest := s.sri.rest + 1) else s.sri;
      assert !InStep(after, s.(sri := sri, modcount := after.versions[id]));
    }
  }
}
