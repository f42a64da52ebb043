/** What is on its way on a connection, and what a receiver has in front of it, as samples. */
module Conservation {
  import opened BulkioTypes
  import opened PrecisionTime
  import opened Chunking
  import opened Wire
  import opened Bracketing
  import opened SriInForce
  import opened Buffering
  import opened Delivery
  import opened Segments

  /** The payload of the packets of a stream ID. */
  function Arriving(log: seq<Message>, id: string): seq<Sample> {
    if log == [] then []
    else Carries(log[0], id) + Arriving(log[1..], id)
  }

  function Carries(m: Message, id: string): seq<Sample> {
    if m.PacketMessage? && m.streamID == id then m.data else []
  }

  lemma {:induction false} ArrivingConcat(a: seq<Message>, b: seq<Message>, id: string)
    ensures Arriving(a + b, id) == Arriving(a, id) + Arriving(b, id)
  {
    hide Carries;
    if a == [] {
      assert a + b == b;
    } else {
      ArrivingConcat(a[1..], b, id);
      assert (a + b)[0] == a[0] && (a + b)[1..] == a[1..] + b;
      Regroup(Carries(a[0], id), Arriving(a[1..], id), Arriving(b, id));
    }
  }

  function Untag(ts: seq<Tagged>): (d: seq<Sample>)
    ensures |d| == |ts|
  {
    if ts == [] then [] else [ts[0].sample] + Untag(ts[1..])
  }

  lemma {:induction false} UntagConcat(a: seq<Tagged>, b: seq<Tagged>)
    ensures Untag(a + b) == Untag(a) + Untag(b)
  {
    if a == [] {
      assert a + b == b;
    } else {
      UntagConcat(a[1..], b);
      assert (a + b)[0] == a[0] && (a + b)[1..] == a[1..] + b;
      Regroup([a[0].sample], Untag(a[1..]), Untag(b));
    }
  }

  lemma {:induction false} UntagTag(data: seq<Sample>, sri: Option<Sri>)
    ensures Untag(Tag(data, sri)) == data
  {
    if data != [] {
      UntagTag(data[1..], sri);
      assert Tag(data, sri)[1..] == Tag(data[1..], sri);
    }
  }

  /** What a receiver makes of a log, without the SRIs. */
  lemma {:induction false} ReceivedArriving(log: seq<Message>, id: string)
    ensures Untag(Received(log, id)) == Arriving(log, id)
    decreases |log|
  {
    hide Untag, Tag, LastSri;
    if log == [] {
      assert Untag([]) == [];
    } else {
      var before, m := log[..|log| - 1], log[|log| - 1];
      ReceivedArriving(before, id);
      ArrivingConcat(before, [m], id);
      assert log == before + [m] && Arriving([m][1..], id) == [];
      if m.PacketMessage? && m.streamID == id {
        UntagTag(m.data, LastSri(before, id));
        UntagConcat(Received(before, id), Tag(m.data, LastSri(before, id)));
        assert m.data + [] == m.data;
      } else {
        assert Received(before, id) + [] == Received(before, id);
        assert Arriving(before, id) + ([] + []) == Arriving(before, id);
      }
    }
  }

  /** No end-of-stream has been sent for a stream ID. */
  predicate NoEos(log: seq<Message>, id: string) {
    forall m :: m in log && m.PacketMessage? && m.streamID == id ==> !m.EOS
  }

  /** A connection's log only grows, and by no end-of-stream. */
  predicate Grows(c: Conn, d: Conn, id: string) {
    c.log <= d.log && (NoEos(c.log, id) ==> NoEos(d.log, id))
  }

  lemma RemoteGrows(c: Conn, m: Message, id: string)
    requires m.PacketMessage? && m.streamID == id ==> !m.EOS
    ensures Grows(c, Remote(c, m), id)
  {
  }

  lemma {:induction false} PushAllGrows(c: Conn, ms: seq<Message>, of: string, id: string)
    requires IsPacket(ms, of, false)
    ensures Grows(c, PushAll(c, ms), id)
    decreases |ms|
  {
    hide NoEos, Remote;
    RemoteGrows(c, ms[0], id);
    if |ms| > 1 && Coming(c) == Delivered {
      PushAllGrows(Remote(c, ms[0]), ms[1..], of, id);
    }
  }

  lemma DeliverGrows(c: Conn, p: Push, limit: nat, id: string)
    requires Room(p.sri, limit) && !p.EOS
    ensures Grows(c, Deliver(c, p, true, limit), id)
  {
    hide NoEos, Remote, Chunks, PushSize, IsPacket, PushAll, PushAllOutcome;
    RoomFits(p, true, limit);
    RemoteGrows(c.(versions := c.versions[p.sri.streamID := p.version]), SriMessage(p.sri), id);
    ChunksArePacket(p.data, p.T, false, p.sri.streamID, PushSize(limit, p.sri), p.sri);
    PushAllGrows(PushSri(c, p.sri.streamID, p.sri, p.version), EventOf(p, true).Pushes(limit), p.sri.streamID, id);
  }

  lemma {:induction false} DeliverAllGrows(c: Conn, ps: seq<Push>, limit: nat, id: string)
    requires forall p :: p in ps ==> Room(p.sri, limit) && !p.EOS
    ensures Grows(c, DeliverAll(c, ps, true, limit), id)
    decreases |ps|
  {
    hide NoEos, Deliver, Room;
    if ps != [] {
      DeliverGrows(c, ps[0], limit, id);
      DeliverAllGrows(Deliver(c, ps[0], true, limit), ps[1..], limit, id);
    }
  }

  /** An operation of a stream, on a connection that takes everything: what has arrived or is on
      its way, and what is buffered, grows by what was written. */
  lemma OpArrives(c: Conn, s: Sender, op: Op, limit: nat)
    requires s.Valid() && Room(s.sri, limit) && UpToDate(c, s) && (op.SriOp? ==> Room(op.sri, limit))
    ensures var d, t, id := OpConn(c, s, op, true, limit), OpStep(s, op), s.sri.streamID;
            && UpToDate(d, t) && Grows(c, d, id)
            && Arriving(d.log[|c.log|..], id) + t.buffer == s.buffer + Written(op)
  {
    hide Received, Tag, Arriving, Untag, OpStep, OpEmits, DeliverAll, Grows, UpToDate, Room;
    var d, t, id := OpConn(c, s, op, true, limit), OpStep(s, op), s.sri.streamID;
    var before := Received(c.log, id) + Tag(s.buffer, Some(s.sri));
    OpKeeps(s, op);
    OpBalanced(c, s, op, limit, before);
    EmitsRoom(s, op, limit);
    DeliverAllGrows(c, OpEmits(s, op), limit, id);
    GrowsBy(c, d, id);
    UntagBoth(c.log, id, s.buffer, Some(s.sri), Written(op), Some(s.sri));
    UntagBoth(d.log, id, t.buffer, Some(t.sri), [], Some(s.sri));
    Cancel(Arriving(c.log, id), Arriving(d.log[|c.log|..], id) + t.buffer, s.buffer + Written(op),
           Arriving(d.log[|c.log|..], id), t.buffer, s.buffer, Written(op));
  }

  lemma OpBalanced(c: Conn, s: Sender, op: Op, limit: nat, before: seq<Tagged>)
    requires s.Valid() && Room(s.sri, limit) && Balanced(c, s, before) && (op.SriOp? ==> Room(op.sri, limit))
    ensures Balanced(OpConn(c, s, op, true, limit), OpStep(s, op), before + Tag(Written(op), Some(s.sri)))
  {
    hide Balanced, OpConn, OpStep, Tag, Room;
    MoveBalanced(c, s, Own(op), limit, before);
  }

  lemma GrowsBy(c: Conn, d: Conn, id: string)
    requires Grows(c, d, id)
    ensures |c.log| <= |d.log| && Arriving(d.log, id) == Arriving(c.log, id) + Arriving(d.log[|c.log|..], id)
  {
    assert d.log == c.log + d.log[|c.log|..];
    ArrivingConcat(c.log, d.log[|c.log|..], id);
  }

  lemma UntagBoth(log: seq<Message>, id: string, buffer: seq<Sample>, x: Option<Sri>, more: seq<Sample>, y: Option<Sri>)
    ensures Untag(Received(log, id) + Tag(buffer, x) + Tag(more, y)) == Arriving(log, id) + buffer + more
    ensures Untag(Received(log, id) + Tag(buffer, x)) == Arriving(log, id) + buffer
  {
    hide Received, Arriving, Tag, Untag;
    ReceivedArriving(log, id);
    UntagTag(buffer, x);
    UntagTag(more, y);
    UntagConcat(Received(log, id), Tag(buffer, x));
    UntagConcat(Received(log, id) + Tag(buffer, x), Tag(more, y));
  }

  lemma Cancel(a: seq<Sample>, x: seq<Sample>, y: seq<Sample>, x0: seq<Sample>, x1: seq<Sample>, y0: seq<Sample>,
               y1: seq<Sample>)
    requires x == x0 + x1 && y == y0 + y1 && a + x0 + x1 == a + y0 + y1
    ensures x == y
  {
    assert a + x == a + x0 + x1 && a + y == a + y0 + y1;
    assert x == (a + x)[|a|..] && y == (a + y)[|a|..];
  }

  // ---------- the reader's end ----------

  function Joined(segs: seq<seq<Sample>>): seq<Sample> {
    if segs == [] then [] else segs[0] + Joined(segs[1..])
  }

  lemma {:induction false} JoinedSnoc(segs: seq<seq<Sample>>, d: seq<Sample>)
    ensures Joined(segs + [d]) == Joined(segs) + d
  {
    if segs == [] {
      assert [] + [d] == [d] && [d][1..] == [];
    } else {
      JoinedSnoc(segs[1..], d);
      assert (segs + [d])[0] == segs[0] && (segs + [d])[1..] == segs[1..] + [d];
    }
  }

  /** A packet adds its payload to what is to be read, whatever segment it goes to. */
  lemma JoinedAdd(segs: seq<seq<Sample>>, p: Packet)
    ensures Joined(AddPacket(segs, p)) == Joined(segs) + p.buffer
  {
    JoinedSnoc(segs, p.buffer);
    if segs != [] {
      var front, last := segs[..|segs| - 1], segs[|segs| - 1];
      assert segs == front + [last];
      JoinedSnoc(front, last);
      JoinedSnoc(front, last + p.buffer);
    }
  }

  /** What the cursor passes when it advances by n. */
  function Passing(segs: seq<seq<Sample>>, n: nat): seq<Sample> {
    if n == 0 || segs == [] then [] else segs[0][..Min(n, |segs[0]|)]
  }

  lemma JoinedAdvance(segs: seq<seq<Sample>>, n: nat)
    ensures Joined(segs) == Passing(segs, n) + Joined(AdvanceBy(segs, n))
  {
    if n > 0 && segs != [] {
      var m := Min(n, |segs[0]|);
      assert segs[0] == segs[0][..m] + segs[0][m..];
      if m < |segs[0]| {
        assert ([segs[0][m..]] + segs[1..])[1..] == segs[1..];
      }
    }
  }

  // ---------- both ends ----------

  /** What has been passed, what is held and queued for the reader, what is on its way, and what
      is still buffered by the writer, is what was written. */
  ghost predicate Conserved(written: seq<Sample>, passed: seq<Sample>, segs: seq<seq<Sample>>, coming: seq<Message>,
                            s: Sender) {
    passed + (Joined(segs) + (Arriving(coming, s.sri.streamID) + s.buffer)) == written
  }

  lemma NothingYet(s: Sender)
    requires s.buffer == []
    ensures Conserved([], [], [], [], s)
  {
  }

  /** An operation of the writer. */
  lemma WriterConserves(written: seq<Sample>, passed: seq<Sample>, segs: seq<seq<Sample>>, c: Conn, delivered: nat,
                        s: Sender, op: Op, limit: nat)
    requires s.Valid() && Room(s.sri, limit) && UpToDate(c, s) && (op.SriOp? ==> Room(op.sri, limit))
    requires delivered <= |c.log| && NoEos(c.log, s.sri.streamID)
    requires Conserved(written, passed, segs, c.log[delivered..], s)
    ensures var d, t := OpConn(c, s, op, true, limit), OpStep(s, op);
            && UpToDate(d, t) && delivered <= |d.log| && NoEos(d.log, s.sri.streamID)
               && t.sri.streamID == s.sri.streamID
            && Conserved(written + Written(op), passed, segs, d.log[delivered..], t)
  {
    hide Arriving, Joined, OpConn, OpStep, OpEmits, UpToDate, NoEos, Room;
    var d, t, id := OpConn(c, s, op, true, limit), OpStep(s, op), s.sri.streamID;
    OpArrives(c, s, op, limit);
    OpKeeps(s, op);
    var ext := d.log[|c.log|..];
    assert d.log[delivered..] == c.log[delivered..] + ext;
    ArrivingConcat(c.log[delivered..], ext, id);
    Chain(passed, Joined(segs), Arriving(c.log[delivered..], id), s.buffer, Written(op), Arriving(ext, id), t.buffer);
  }

  lemma Chain(p: seq<Sample>, j: seq<Sample>, a: seq<Sample>, buffer: seq<Sample>, more: seq<Sample>,
              ext: seq<Sample>, left: seq<Sample>)
    requires ext + left == buffer + more
    ensures p + (j + (a + ext + left)) == p + (j + (a + buffer)) + more
  {
    assert a + ext + left == a + (ext + left) == a + buffer + more;
  }

  // ---------- other streams ----------

  /** A connection's log only grows, and by no packet of a stream ID. */
  predicate Beside(c: Conn, d: Conn, id: string) {
    c.log <= d.log && forall k :: |c.log| <= k < |d.log| ==> !(d.log[k].PacketMessage? && d.log[k].streamID == id)
  }

  lemma BesideTwice(b: Conn, c: Conn, d: Conn, id: string)
    requires Beside(b, c, id) && Beside(c, d, id)
    ensures Beside(b, d, id)
  {
    forall k | |b.log| <= k < |d.log| ensures !(d.log[k].PacketMessage? && d.log[k].streamID == id) {
      if k < |c.log| { assert d.log[k] == c.log[k]; }
    }
  }

  lemma RemoteBeside(c: Conn, m: Message, id: string)
    requires m.PacketMessage? ==> m.streamID != id
    ensures Beside(c, Remote(c, m), id)
  {
  }

  lemma {:induction false} PushAllBeside(c: Conn, ms: seq<Message>, of: string, EOS: bool, id: string)
    requires IsPacket(ms, of, EOS) && of != id
    ensures Beside(c, PushAll(c, ms), id)
    decreases |ms|
  {
    hide Beside, Remote;
    RemoteBeside(c, ms[0], id);
    if |ms| > 1 && Coming(c) == Delivered {
      PushAllBeside(Remote(c, ms[0]), ms[1..], of, EOS, id);
      BesideTwice(c, Remote(c, ms[0]), PushAll(Remote(c, ms[0]), ms[1..]), id);
    }
  }

  /** What another stream does to a connection of a stream. */
  lemma OtherStep(c: Conn, e: Event, limit: nat, s: Sender)
    requires e.Fits(limit) && e.id != s.sri.streamID && UpToDate(c, s)
    ensures UpToDate(Step(c, e, limit), s) && Beside(c, Step(c, e, limit), s.sri.streamID)
  {
    hide Remote, Chunks, PushSize, IsPacket, PushAll, PushAllOutcome, UpToDate;
    var id := s.sri.streamID;
    OtherReceived(c, e, limit, s);
    if e.routed {
      RemoteBeside(c.(versions := c.versions[e.id := e.version]), SriMessage(e.sri), id);
      if e.PacketEvent? {
        var told := PushSri(c, e.id, e.sri, e.version);
        ChunksArePacket(e.data, e.T, e.EOS, e.id, PushSize(limit, e.sri), e.sri);
        PushAllBeside(told, e.Pushes(limit), e.id, e.EOS, id);
        BesideTwice(c, told, PushAll(told, e.Pushes(limit)), id);
      }
    }
  }

  lemma {:induction false} OtherPushes(c: Conn, ps: seq<Push>, routed: bool, limit: nat, s: Sender)
    requires UpToDate(c, s) && forall p :: p in ps ==> Room(p.sri, limit) && p.sri.streamID != s.sri.streamID
    ensures UpToDate(DeliverAll(c, ps, routed, limit), s)
    ensures Beside(c, DeliverAll(c, ps, routed, limit), s.sri.streamID)
    decreases |ps|
  {
    hide UpToDate, Beside, Room, Step;
    if ps == [] {
      RemoteNone(c, s.sri.streamID);
    } else {
      assert ps[0] in ps;
      RoomFits(ps[0], routed, limit);
      OtherStep(c, EventOf(ps[0], routed), limit, s);
      var next := Deliver(c, ps[0], routed, limit);
      OtherPushes(next, ps[1..], routed, limit, s);
      BesideTwice(c, next, DeliverAll(next, ps[1..], routed, limit), s.sri.streamID);
    }
  }

  lemma RemoteNone(c: Conn, id: string)
    ensures Beside(c, c, id)
  {
  }

  lemma OtherOp(c: Conn, of: Sender, op: Op, routed: bool, limit: nat, s: Sender)
    requires of.Valid() && Room(of.sri, limit) && of.sri.streamID != s.sri.streamID && UpToDate(c, s)
    ensures UpToDate(OpConn(c, of, op, routed, limit), s) && Beside(c, OpConn(c, of, op, routed, limit), s.sri.streamID)
  {
    hide UpToDate, Beside, Room, OpEmits;
    OpKeeps(of, op);
    EmitsRoom(of, op, limit);
    OtherPushes(c, OpEmits(of, op), routed, limit, s);
  }

  /** The traffic of other streams leaves what is conserved as it was. */
  lemma OthersConserve(written: seq<Sample>, passed: seq<Sample>, segs: seq<seq<Sample>>, c: Conn, d: Conn,
                       delivered: nat, s: Sender)
    requires Beside(c, d, s.sri.streamID) && delivered <= |c.log| && NoEos(c.log, s.sri.streamID)
    requires Conserved(written, passed, segs, c.log[delivered..], s)
    ensures NoEos(d.log, s.sri.streamID) && Conserved(written, passed, segs, d.log[delivered..], s)
  {
    hide Arriving, Joined;
    var id, ext := s.sri.streamID, d.log[|c.log|..];
    assert d.log == c.log + ext && d.log[delivered..] == c.log[delivered..] + ext;
    forall m | m in ext ensures !(m.PacketMessage? && m.streamID == id) {
      var k :| 0 <= k < |ext| && ext[k] == m;
      assert ext[k] == d.log[|c.log| + k];
    }
    NothingArriving(ext, id);
    ArrivingConcat(c.log[delivered..], ext, id);
    assert Arriving(c.log[delivered..], id) + [] == Arriving(c.log[delivered..], id);
  }

  lemma {:induction false} NothingArriving(log: seq<Message>, id: string)
    requires forall m :: m in log ==> !(m.PacketMessage? && m.streamID == id)
    ensures Arriving(log, id) == []
  {
    if log != [] {
      assert log[0] in log;
      NothingArriving(log[1..], id);
    }
  }

  /** The arrival of the next message. */
  lemma ArrivalConserves(written: seq<Sample>, passed: seq<Sample>, segs: seq<seq<Sample>>, coming: seq<Message>,
                         s: Sender, after: seq<seq<Sample>>)
    requires coming != [] && Conserved(written, passed, segs, coming, s)
    requires Joined(after) == Joined(segs) + Carries(coming[0], s.sri.streamID)
    ensures Conserved(written, passed, after, coming[1..], s)
  {
    hide Carries, Joined;
    var x, rest := Carries(coming[0], s.sri.streamID), Arriving(coming[1..], s.sri.streamID);
    assert x + rest + s.buffer == x + (rest + s.buffer);
    Regroup(Joined(segs), x, rest + s.buffer);
  }

  lemma StillConserves(written: seq<Sample>, passed: seq<Sample>, segs: seq<seq<Sample>>, coming: seq<Message>,
                       s: Sender, after: seq<seq<Sample>>)
    requires Conserved(written, passed, segs, coming, s) && Joined(after) == Joined(segs) + []
    ensures Conserved(written, passed, after, coming, s)
  {
  }

  /** The reader's cursor moves by n. */
  lemma ReaderConserves(written: seq<Sample>, passed: seq<Sample>, segs: seq<seq<Sample>>, coming: seq<Message>,
                        s: Sender, n: nat)
    requires Conserved(written, passed, segs, coming, s)
    ensures Conserved(written, passed + Passing(segs, n), AdvanceBy(segs, n), coming, s)
  {
    hide Arriving, Joined, Passing, AdvanceBy;
    JoinedAdvance(segs, n);
    var rest := Arriving(coming, s.sri.streamID) + s.buffer;
    Regroup(Passing(segs, n), Joined(AdvanceBy(segs, n)), rest);
    Regroup(passed, Passing(segs, n), Joined(AdvanceBy(segs, n)) + rest);
  }

  lemma PassedIsWritten(written: seq<Sample>, passed: seq<Sample>, segs: seq<seq<Sample>>, coming: seq<Message>,
                        s: Sender)
    requires Conserved(written, passed, segs, coming, s)
    ensures passed <= written
  {
  }
}
