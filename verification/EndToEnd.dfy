/** A buffered output stream, one of its connections, and the input stream at the other end. */
module EndToEnd {
  import opened BulkioTypes
  import opened PrecisionTime
  import opened Chunking
  import opened Wire
  import opened Bracketing
  import opened SriInForce
  import opened Transports
  import opened OutStreams
  import opened Delivery
  import opened PacketQueue
  import opened StreamCells
  import opened Segments
  import opened DataBlocks
  import opened InputStreams
  import opened Conservation
  import B = Buffering
  import SB = StreamBuffer
  import Assembly
  import Cursors

  class Pipeline {
    const out: BufferedOutputStream
    const connection: nat
    const stream: BufferedInputStream
    /** How much of what the transport has sent has been handed to the input port. */
    var delivered: nat
    /** All that was written to the output stream, and all that the reader's cursor has passed. */
    ghost var written: seq<Sample>
    ghost var passed: seq<Sample>

    /** A pipeline starts with an input stream that has nothing to read yet. */
    constructor (out: BufferedOutputStream, connection: nat, stream: BufferedInputStream, delivered: nat)
      requires SenderOk(out, connection) && ReceiverOk(stream, out.streamID)
      requires stream.Segs() == [] && out.bufferOffset == 0
      requires delivered == |out.port.transports[connection].log|
      ensures this.out == out && this.connection == connection && this.stream == stream && this.delivered == delivered
      ensures Valid() && written == [] && passed == []
    {
      hide ReceiverOk, Conserved, UpToDate, NoEos;
      this.out, this.connection, this.stream, this.delivered := out, connection, stream, delivered;
      written, passed := [], [];
      assert out.port.transports[connection].log[delivered..] == [];
      NothingYet(out.State());
    }

    /** Nothing is lost, doubled or out of place between the writer and the reader. */
    ghost predicate Valid()
      reads this, out, out.buffer, out.port, out.port.transports, stream, stream.port, stream.port.streams.Values
    {
      && SenderOk(out, connection) && ReceiverOk(stream, out.streamID)
      && delivered <= |out.port.transports[connection].log|
      && Conserved(written, passed, stream.Segs(), out.port.transports[connection].log[delivered..], out.State())
    }

    /** An operation of the output stream. */
    method Operate(op: B.Op)
      requires Valid() && (op.SriOp? ==> out.port.Fitting(op.sri))
      modifies this, out, out.buffer, out.port`streams, out.port.transports
      ensures Valid() && written == old(written) + B.Written(op) && passed == old(passed)
      ensures out.State() == B.OpStep(old(out.State()), op) && stream.Segs() == old(stream.Segs())
              && delivered == old(delivered)
    {
      hide Conserved, SenderOk, ReceiverOk, OutPort.TookOp, OutPort.Fitting, OutPort.RoutedTo, B.OpStep, UpToDate,
           NoEos, BufferedOutputStream.Valid, BufferedOutputStream.Attached, BufferedInputStream.Good,
           BufferedInputStream.Segs, OutPort.Valid, BufferedInputStream.Closed;
      SenderReady(out, connection);
      ReceiverReady(stream, out.streamID);
      ghost var s, was, segs := out.State(), out.port.Conns(), stream.Segs();
      out.Apply(op);
      SenderMoved(out, connection, was, s, op, written, passed, segs, delivered);
      written := written + B.Written(op);
    }

    method Write(data: seq<Sample>, time: Time)
      requires Valid()
      modifies this, out, out.buffer, out.port`streams, out.port.transports
      ensures Valid() && written == old(written) + data && passed == old(passed)
      ensures out.State() == B.OpStep(old(out.State()), B.WriteOp(data, time))
    {
      Operate(B.WriteOp(data, time));
    }

    method SetBufferSize(samples: nat)
      requires Valid()
      modifies this, out, out.buffer, out.port`streams, out.port.transports
      ensures Valid() && written == old(written) && passed == old(passed)
      ensures out.State() == B.OpStep(old(out.State()), B.SizeOp(samples))
    {
      Operate(B.SizeOp(samples));
    }

    method Flush()
      requires Valid()
      modifies this, out, out.buffer, out.port`streams, out.port.transports
      ensures Valid() && written == old(written) && passed == old(passed)
      ensures out.State() == B.OpStep(old(out.State()), B.FlushOp)
    {
      Operate(B.FlushOp);
    }

    method SetSri(sri: Sri)
      requires Valid() && out.port.Fitting(sri)
      modifies this, out, out.buffer, out.port`streams, out.port.transports
      ensures Valid() && written == old(written) && passed == old(passed)
      ensures out.State() == B.OpStep(old(out.State()), B.SriOp(sri))
    {
      Operate(B.SriOp(sri));
    }

    /** An operation of another stream of the output port, which may share the connection. */
    method OperateOther(other: BufferedOutputStream, op: B.Op)
      requires Valid() && other.Valid() && other.Attached() && other.port == out.port
      requires other != out && other.buffer != out.buffer && (op.SriOp? ==> out.port.Fitting(op.sri))
      modifies other, other.buffer, out.port`streams, out.port.transports
      ensures Valid() && other.Valid() && other.Attached() && (other.buffer == old(other.buffer) || fresh(other.buffer))
      ensures other.State() == B.OpStep(old(other.State()), op)
      ensures out.State() == old(out.State()) && stream.Segs() == old(stream.Segs())
    {
      hide Conserved, SenderOk, ReceiverOk, OutPort.TookOp, OutPort.Took, OutPort.TookSri, OutPort.Fitting,
           OutPort.RoutedTo, OutPort.Valid, B.OpStep, UpToDate, NoEos, BufferedInputStream.Good,
           BufferedInputStream.Segs, BufferedInputStream.Closed;
      SenderReady(out, connection);
      ReceiverReady(stream, out.streamID);
      ghost var s, was, segs := other.State(), out.port.Conns(), stream.Segs();
      other.Apply(op);
      OtherOpMoved(out, connection, was, s, op, written, passed, segs, delivered);
    }

    /** Another stream of the output port is closed. */
    method CloseOther(other: BufferedOutputStream)
      requires Valid() && other.Valid() && other.Attached() && other.port == out.port
      requires other != out && other.buffer != out.buffer
      modifies other, out.port`streams, out.port.transports
      ensures Valid() && other.streamID !in out.port.streams
      ensures out.State() == old(out.State()) && stream.Segs() == old(stream.Segs())
    {
      hide Conserved, SenderOk, ReceiverOk, OutPort.TookOp, OutPort.Took, OutPort.TookSri, OutPort.Fitting,
           OutPort.RoutedTo, OutPort.Valid, B.OpStep, UpToDate, NoEos, BufferedInputStream.Good,
           BufferedInputStream.Segs, BufferedInputStream.Closed;
      SenderReady(out, connection);
      ReceiverReady(stream, out.streamID);
      ghost var s, was, segs := other.State(), out.port.Conns(), stream.Segs();
      other.Close();
      OtherCloseMoved(out, connection, was, s, written, passed, segs, delivered);
    }

    /** An SRI of another stream is pushed at the output port. */
    method AnnounceOther(sri: Sri)
      requires Valid() && out.port.Wired() && out.port.Fitting(sri) && sri.streamID != out.streamID
      requires sri.streamID in out.port.streams ==>
                 var other := out.port.streams[sri.streamID];
                 other.Valid() && other.CanRestate(sri)
      modifies out.port`streams, out.port.transports
      modifies if sri.streamID in out.port.streams then {out.port.streams[sri.streamID]} else {}
      ensures Valid() && out.port.Wired()
      ensures sri.streamID in out.port.streams && out.port.streams[sri.streamID].sri == sri
      ensures out.State() == old(out.State()) && stream.Segs() == old(stream.Segs())
    {
      hide Conserved, SenderOk, ReceiverOk, OutPort.TookOp, OutPort.Took, OutPort.TookSri, OutPort.Fitting,
           OutPort.RoutedTo, OutPort.Valid, B.OpStep, UpToDate, NoEos, BufferedInputStream.Good,
           BufferedInputStream.Segs, BufferedInputStream.Closed, OutPort.Wired, BufferedOutputStream.CanRestate,
           BufferedOutputStream.Valid, BufferedOutputStream.Attached, BufferedOutputStream.State;
      SenderReady(out, connection);
      ReceiverReady(stream, out.streamID);
      ghost var was, segs := out.port.Conns(), stream.Segs();
      Announce(out, sri);
      OtherSriMoved(out, connection, was, sri, out.port.streams[sri.streamID].modcount, written, passed, segs,
                    delivered);
    }

    /** The next message that the transport has sent reaches the input port. */
    method Deliver() returns (taken: bool)
      requires Valid() && delivered < |out.port.transports[connection].log| && HasRoom(stream.port)
      modifies this, stream.port
      ensures Valid() && written == old(written) && passed == old(passed)
      ensures delivered == old(delivered) + if taken then 1 else 0
      ensures taken <==> !old(MustWait(stream.port, out.port.transports[connection].log[delivered]))
      ensures taken ==> HandedOver(stream.port, old(out.port.transports[connection].log[delivered]), stream.streamID,
                                   old(stream.port.currentHs), old(stream.port.packetQueue))
    {
      hide Conserved, SenderOk, ReceiverOk, UpToDate, Arriving, MustWait, BufferedInputStream.Good,
           BufferedInputStream.Segs, HandedOver;
      SenderReady(out, connection);
      ReceiverReady(stream, out.streamID);
      ghost var segs := stream.Segs();
      var coming := out.port.transports[connection].log[delivered..];
      NotEnding(out.port.transports[connection].log, delivered, out.streamID);
      taken := TakeMessage(stream, coming[0]);
      ReceiverReady(stream, out.streamID);
      if taken {
        ArrivalConserves(written, passed, segs, coming, out.State(), stream.Segs());
        delivered := delivered + 1;
      } else {
        StillConserves(written, passed, segs, coming, out.State(), stream.Segs());
      }
    }

    /** read and tryread. Where samples are scalars and all that is read is consumed, the blocks
        are what was written, in order and without a gap. */
    method Read(count: nat, consume: nat, blocking: bool) returns (block: DataBlock?)
      requires Valid()
      modifies this, stream, stream.port`packetQueue, stream.port`blocking, stream.port`streams,
               stream.port`pendingStreams
      ensures Valid() && written == old(written) && passed <= written
      ensures var o := ReadOutcome(old(stream.Visible()), old(stream.Ended()),
                                   old(SB.Item(stream.State(), stream.MyLane())),
                                   count, consume, blocking);
              && passed == old(passed) + Passing(old(stream.Segs()), o.passed)
              && (block == null <==> o.block.None?) && (block != null ==> block.buffer == o.block.value)
      ensures block != null && count == consume && old(SB.Item(stream.State(), stream.MyLane())) == 1 ==>
                passed == old(passed) + block.buffer
    {
      hide Assembly.Cut, Assembly.CutPacket, BufferedInputStream.ToCome, Cursors.Past, Cursors.Told, InPort.CellOf;
      hide Conserved, SenderOk, UpToDate, Arriving, BufferedInputStream.Good, BufferedInputStream.Segs,
           BufferedInputStream.Closed, BufferedInputStream.Visible, BufferedInputStream.Ended,
           BufferedInputStream.Leaves, InPort.Sound, SB.Item, ReadOutcome, AdvanceBy, Passing, WholeSamples,
           SkipOutcome;
      SenderReady(out, connection);
      ReceiverReady(stream, out.streamID);
      ghost var segs, coming := stream.Segs(), out.port.transports[connection].log[delivered..];
      ghost var visible, item := stream.Visible(), SB.Item(stream.State(), stream.MyLane());
      ghost var o := ReadOutcome(visible, stream.Ended(), item, count, consume, blocking);
      VisibleFirst(stream);
      ReadPasses(segs, visible, stream.Ended(), item, count, blocking);
      ghost var held, newstream, sri;
      block, held, newstream, sri := stream.Read(count, consume, blocking);
      ReaderConserves(written, passed, segs, coming, out.State(), o.passed);
      passed := passed + Passing(segs, o.passed);
      PassedIsWritten(written, passed, stream.Segs(), coming, out.State());
    }

    /** read and tryread of one packet. */
    method ReadPacket() returns (block: DataBlock?)
      requires Valid()
      modifies this, stream, stream.port`packetQueue, stream.port`blocking, stream.port`streams,
               stream.port`pendingStreams
      ensures Valid() && written == old(written) && old(passed) <= passed <= written
      ensures block != null && old(SB.Item(stream.State(), stream.MyLane())) == 1 ==>
              passed == old(passed) + block.buffer
    {
      hide Assembly.Cut, Assembly.CutPacket, BufferedInputStream.ToCome, Cursors.Past, Cursors.Told, InPort.CellOf;
      hide Conserved, SenderOk, UpToDate, Arriving, BufferedInputStream.Good, BufferedInputStream.Segs,
           BufferedInputStream.Closed, BufferedInputStream.Visible, BufferedInputStream.Ended,
           BufferedInputStream.Leaves, InPort.Sound, SB.Item, ReadOutcome, AdvanceBy, Passing, WholeSamples,
           SkipOutcome;
      SenderReady(out, connection);
      ReceiverReady(stream, out.streamID);
      ghost var segs, coming := stream.Segs(), out.port.transports[connection].log[delivered..];
      ghost var visible, item := stream.Visible(), SB.Item(stream.State(), stream.MyLane());
      VisibleFirst(stream);
      ghost var held, newstream, sri;
      block, held, newstream, sri := stream.ReadPacket();
      ghost var n := if block == null then 0 else WholeSamples(|block.buffer|, item);
      AdvanceNone(segs);
      ReaderConserves(written, passed, segs, coming, out.State(), n);
      if block != null { PacketPasses(segs, visible, block.buffer, item); }
      passed := passed + Passing(segs, n);
      PassedIsWritten(written, passed, stream.Segs(), coming, out.State());
    }

    method Skip(count: nat) returns (skipped: nat)
      requires Valid()
      modifies this, stream, stream.port`packetQueue, stream.port`blocking
      ensures Valid() && written == old(written) && passed <= written
      ensures var n := SkipOutcome(old(stream.Visible()), old(SB.Item(stream.State(), stream.MyLane())), count);
              passed == old(passed) + Passing(old(stream.Segs()), n)
    {
      hide Assembly.Cut, Assembly.CutPacket, BufferedInputStream.ToCome, Cursors.Past, Cursors.Told, InPort.CellOf;
      hide Conserved, SenderOk, UpToDate, Arriving, BufferedInputStream.Good, BufferedInputStream.Segs,
           BufferedInputStream.Closed, BufferedInputStream.Visible, BufferedInputStream.Ended,
           BufferedInputStream.Leaves, InPort.Sound, SB.Item, ReadOutcome, AdvanceBy, Passing, WholeSamples,
           SkipOutcome;
      SenderReady(out, connection);
      ReceiverReady(stream, out.streamID);
      ghost var segs, coming := stream.Segs(), out.port.transports[connection].log[delivered..];
      ghost var n := SkipOutcome(stream.Visible(), SB.Item(stream.State(), stream.MyLane()), count);
      skipped := stream.Skip(count);
      ReaderConserves(written, passed, segs, coming, out.State(), n);
      passed := passed + Passing(segs, n);
      PassedIsWritten(written, passed, stream.Segs(), coming, out.State());
    }
  }

  // ---------- setting up ----------

  /** An output port with one connection to which nothing has been sent. */
  method OpenPort(connectionId: string, maxSamplesPerPush: nat) returns (port: OutPort)
    ensures fresh(port) && fresh(port.transports) && port.Valid() && port.Wired() && port.streams == map[]
    ensures |port.transports| == 1 && port.transports[0].maxSamplesPerPush == maxSamplesPerPush
    ensures port.transports[0].State() == Conn(map[], true, [], []) && forall id :: port.RoutedTo(id, 0)
  {
    port := new OutPort("out");
    var transport := new Transport(maxSamplesPerPush, []);
    var _ := port.ConnectPort(connectionId, transport);
    assert port.transports == [transport];
  }

  /** The first SRI of a stream on a new connection. */
  lemma FirstSri(sri: Sri)
    ensures var c, s := OutPort.SriTo(Conn(map[], true, [], []), sri, 0, true), B.Sender(sri, 0, 0, [], NotSet());
            c.log == [SriMessage(sri)] && UpToDate(c, s) && NoEos(c.log, sri.streamID)
  {
    var log := [SriMessage(sri)];
    assert [] + log == log && LastSri(log, sri.streamID) == Some(sri);
    hide LastSri;
  }

  /** An output port with one connection, and a stream whose SRI has been pushed. */
  method OpenSender(sri: Sri, connectionId: string, maxSamplesPerPush: nat) returns (out: BufferedOutputStream)
    requires Room(sri, maxSamplesPerPush)
    ensures fresh({out, out.buffer, out.port}) && fresh(out.port.transports)
    ensures SenderOk(out, 0) && out.streamID == sri.streamID
    ensures out.State() == B.Sender(sri, 0, 0, [], NotSet())
    ensures out.port.transports[0].log == [SriMessage(sri)]
  {
    hide OutPort.SriTo, UpToDate, NoEos, OutPort.RoutedTo, Room;
    var port := OpenPort(connectionId, maxSamplesPerPush);
    port.PushSri(sri);
    out := port.streams[sri.streamID];
    FirstSri(sri);
  }

  /** An input port that has received an SRI, and the stream it opened for it. */
  method OpenReceiver(sri: Sri, maxQueue: nat, compareSri: Option<(Sri, Sri) -> bool>)
      returns (stream: BufferedInputStream)
    requires sri.streamID != ""
    ensures fresh({stream, stream.port}) && stream.sri == sri
    ensures ReceiverOk(stream, sri.streamID) && stream.Segs() == []
    ensures stream.port.Sound() && stream.port.maxQueue == maxQueue
  {
    hide BufferedInputStream.Good, BufferedInputStream.Segs, BufferedInputStream.Closed, InPort.Sound, InPort.CellOf,
         SriStep;
    var port := new InPort(maxQueue, compareSri);
    port.PushSri(sri);
    stream := port.streams[sri.streamID];
    stream.Opened();
  }

  /** A pipeline from nothing: the SRI pushed by the one port has reached the other. */
  method Connect(sri: Sri, connectionId: string, maxSamplesPerPush: nat, maxQueue: nat,
                 compareSri: Option<(Sri, Sri) -> bool>)
    returns (p: Pipeline)
    requires sri.streamID != "" && Room(sri, maxSamplesPerPush)
    ensures fresh({p, p.out, p.out.buffer, p.out.port, p.stream, p.stream.port}) && fresh(p.out.port.transports)
    ensures p.Valid() && p.written == [] && p.passed == [] && p.connection == 0
    ensures p.out.State() == B.Sender(sri, 0, 0, [], NotSet()) && p.stream.sri == sri
    ensures p.out.port.transports[0].log == [SriMessage(sri)] && p.delivered == 1
  {
    hide SenderOk, ReceiverOk, BufferedInputStream.Segs, InPort.Sound;
    var out := OpenSender(sri, connectionId, maxSamplesPerPush);
    SenderReady(out, 0);
    var message := out.port.transports[0].log[0];
    var stream := OpenReceiver(message.sri, maxQueue, compareSri);
    p := new Pipeline(out, 0, stream, 1);
  }

  /** An SRI for a registered stream ID and then a packet, for which there is room. If the port's
      comparison finds the SRI different the packet goes with it, and as one with a new SRI; otherwise it
      goes with the SRI that was registered. */
  method SriThenPacket(port: InPort, H: Sri, data: seq<Sample>, T: Time, EOS: bool)
    requires port.Sound() && H.streamID in port.currentHs
    requires (data != [] || EOS) && |port.packetQueue| < port.maxQueue
    modifies port
    ensures port.Sound()
    ensures var r := old(port.currentHs)[H.streamID];
            var differs := port.compareSri.Some? && !port.compareSri.value(H, r.sri);
            port.packetQueue == old(port.packetQueue)
              + [Packet(H.streamID, data, T, EOS, if differs then H else r.sri, differs || r.changed, false)]
  {
    hide InPort.CellOf, InPort.Created, SriStep, ArriveStep, CellOk, InPort.SriFor, InPort.QueueAfter;
    port.PushSri(H);
    var _ := port.QueuePacket(data, T, EOS, H.streamID);
  }

  // ---------- reading ----------

  /** What is visible is the beginning of the current segment. */
  lemma VisibleFirst(stream: BufferedInputStream)
    requires stream.Good()
    ensures stream.Visible() != [] ==> stream.Segs() != [] && stream.Visible() <= stream.Segs()[0]
  {
    var b, lane := stream.State(), stream.MyLane();
    if b.queue != [] { SB.ReadyIsFirst(b, lane); }
  }

  lemma ReadPasses(segs: seq<seq<Sample>>, visible: seq<Sample>, ended: bool, item: nat, count: nat, blocking: bool)
    requires item > 0 && (visible != [] ==> segs != [] && visible <= segs[0])
    ensures var o := ReadOutcome(visible, ended, item, count, count, blocking);
            o.block.Some? && item == 1 ==> Passing(segs, o.passed) == o.block.value
  {
  }

  lemma PacketPasses(segs: seq<seq<Sample>>, visible: seq<Sample>, block: seq<Sample>, item: nat)
    requires block != [] && block <= visible && segs != [] && visible <= segs[0]
    ensures item == 1 ==> Passing(segs, WholeSamples(|block|, item)) == block
  {
  }

  lemma SenderReady(out: BufferedOutputStream, connection: nat)
    requires SenderOk(out, connection)
    ensures out.Valid() && out.Attached() && out.State().Valid() && connection < |out.port.transports|
    ensures out.port.Fitting(out.sri) && out.sri.streamID == out.streamID && out.port.RoutedTo(out.streamID, connection)
    ensures UpToDate(out.port.transports[connection].State(), out.State())
    ensures NoEos(out.port.transports[connection].log, out.streamID)
  {
  }

  lemma ReceiverReady(stream: BufferedInputStream, id: string)
    requires ReceiverOk(stream, id)
    ensures stream.Good() && stream.streamID == id && !stream.Closed()
  {
  }

  // ---------- arrival ----------

  lemma NotEnding(log: seq<Message>, k: nat, id: string)
    requires NoEos(log, id) && k < |log|
    ensures log[k..][0] == log[k] && log[k..][1..] == log[k + 1..]
    ensures log[k].PacketMessage? && log[k].streamID == id ==> !log[k].EOS
  {
    assert log[k] in log;
  }

  /** The next message is handed to the input port. A port that blocks may make the packet wait;
      one that does not must not be full, or it would drop packets. */
  method TakeMessage(stream: BufferedInputStream, m: Message) returns (taken: bool)
    requires ReceiverOk(stream, stream.streamID) && HasRoom(stream.port)
    requires m.PacketMessage? && m.streamID == stream.streamID ==> !m.EOS
    modifies stream.port
    ensures ReceiverOk(stream, stream.streamID)
    ensures Joined(stream.Segs()) == Joined(old(stream.Segs())) + if taken then Carries(m, stream.streamID) else []
    ensures taken <==> !old(MustWait(stream.port, m))
    ensures taken ==>
              HandedOver(stream.port, m, stream.streamID, old(stream.port.currentHs), old(stream.port.packetQueue))
  {
    hide Joined, ReceiverOk, BufferedInputStream.Good, BufferedInputStream.Segs;
    ReceiverReady(stream, stream.streamID);
    ghost var joined := Joined(stream.Segs());
    assert joined + [] == joined;
    match m
    case SriMessage(sri) =>
      TakeSri(stream, sri);
      taken := true;
    case PacketMessage(data, T, EOS, id) =>
      var waiting := TakePacket(stream, data, T, EOS, id);
      taken := !waiting;
  }

  /** The message is a packet for a blocking port that is full. */
  /** What an input port that is in order for one ID does with a message: it registers an SRI that is
      new to it, or for that ID one its comparator tells apart, and queues a packet it has room for. */
  ghost predicate HandedOver(port: InPort, m: Message, own: string, hs: map<string, Registration>, queue: seq<Packet>)
    reads port
  {
    match m
    case SriMessage(sri) =>
      && sri.streamID in port.currentHs
      && (sri.streamID !in hs ==> port.currentHs[sri.streamID] == Registration(sri, true))
      && (sri.streamID in hs && sri.streamID == own ==>
            port.currentHs[own] == if port.compareSri.Some? && !port.compareSri.value(sri, hs[own].sri)
                                   then Registration(sri, true) else hs[own])
    case PacketMessage(data, T, EOS, id) =>
      (data != [] || EOS) && |queue| < port.maxQueue ==>
        port.packetQueue == queue + [Packet(id, data, T, EOS, if id in hs then hs[id].sri else
                                            Sri(id, 1.0, 0, 0, false, 0), id in hs ==> hs[id].changed, false)]
  }

  predicate MustWait(port: InPort, m: Message)
    reads port
  {
    m.PacketMessage? && port.Queues(m.data, m.EOS) && port.blocking && |port.packetQueue| >= port.maxQueue
  }

  /** The port keeps what it is given. */
  predicate HasRoom(port: InPort)
    reads port
  {
    port.maxQueue > 0 && (port.blocking || |port.packetQueue| < port.maxQueue)
  }

  method TakeSri(stream: BufferedInputStream, sri: Sri)
    requires ReceiverOk(stream, stream.streamID)
    modifies stream.port
    ensures ReceiverOk(stream, stream.streamID) && stream.Segs() == old(stream.Segs())
    ensures HandedOver(stream.port, SriMessage(sri), stream.streamID, old(stream.port.currentHs),
                       old(stream.port.packetQueue))
  {
    hide SriStep, CellOk, SB.Segs, SB.Rep, SB.Closed;
    Announced(stream, stream.port.Differs(sri));
    stream.port.PushSri(sri);
  }

  /** An SRI changes nothing for the active stream of its ID. */
  lemma Announced(stream: BufferedInputStream, differs: bool)
    requires ReceiverOk(stream, stream.streamID)
    ensures stream.eosState == EosNone
    ensures var c := stream.port.CellOf(stream.streamID);
            && c.active == Some(EosNone) && c.lane == stream.MyLane()
            && CellOk(SriStep(c, differs)) && SriStep(c, differs).lane == c.lane
               && SriStep(c, differs).active == c.active
            && (stream.streamID in stream.port.currentHs ==> !StreamCells.AllEnded(c))
  {
    var c := stream.port.CellOf(stream.streamID);
    LaneSingle(stream.port.packetQueue, stream.streamID);
    StepOk(c, SriPushed(differs), stream.streamID);
    if c.registered.Some? { NeverAllEnded(c); }
  }

  method TakePacket(stream: BufferedInputStream, data: seq<Sample>, T: Time, EOS: bool, id: string)
      returns (waiting: bool)
    requires ReceiverOk(stream, stream.streamID) && HasRoom(stream.port) && (id == stream.streamID ==> !EOS)
    modifies stream.port
    ensures ReceiverOk(stream, stream.streamID)
    ensures Joined(stream.Segs()) == Joined(old(stream.Segs())) + if !waiting && id == stream.streamID then data else []
    ensures waiting <==> old(MustWait(stream.port, PacketMessage(data, T, EOS, id)))
    ensures HandedOver(stream.port, PacketMessage(data, T, EOS, id), stream.streamID, old(stream.port.currentHs),
                       old(stream.port.packetQueue))
  {
    hide ArriveStep, CellOk, SB.Segs, SB.Rep, SB.Closed, Joined;
    ghost var joined := Joined(stream.Segs());
    assert joined + [] == joined;
    ghost var p := Packet(id, data, T, EOS, stream.port.SriFor(id), false, false);
    if id == stream.streamID && data != [] { Arrived(stream, p); }
    waiting := stream.port.QueuePacket(data, T, EOS, id);
  }

  /** A packet adds its payload to what is to be read. */
  lemma Arrived(stream: BufferedInputStream, p: Packet)
    requires ReceiverOk(stream, stream.streamID) && p.streamID == stream.streamID && GoodPush(p) && !p.EOS
             && p.buffer != []
    ensures stream.eosState == EosNone
    ensures var c := stream.port.CellOf(stream.streamID);
            var d := ArriveStep(c, p, false);
            && c.active == Some(EosNone) && c.lane == stream.MyLane() && CellOk(d) && d.active == c.active
            && !SB.Closed(stream.State(), d.lane)
            && Joined(SB.Segs(stream.State(), d.lane)) == Joined(stream.Segs()) + p.buffer
  {
    var c := stream.port.CellOf(stream.streamID);
    LaneSingle(stream.port.packetQueue, stream.streamID);
    StepOk(c, Arrive(p, false), stream.streamID);
    var q := p.(sriChanged := c.registered.None? || c.registered.value);
    SB.ArriveView(stream.State(), c.lane, q);
    JoinedAdd(stream.Segs(), q);
  }

  /** What an operation of the output stream does to a pipeline. */
  lemma SenderMoved(out: BufferedOutputStream, connection: nat, was: seq<Conn>, s: B.Sender, op: B.Op,
                    written: seq<Sample>, passed: seq<Sample>, segs: seq<seq<Sample>>, delivered: nat)
    requires out.Valid() && out.Attached() && connection < |out.port.transports| == |was|
    requires out.port.RoutedTo(out.streamID, connection) && s.sri.streamID == out.streamID
    requires s.Valid() && out.port.Fitting(s.sri) && (op.SriOp? ==> out.port.Fitting(op.sri))
    requires UpToDate(was[connection], s) && NoEos(was[connection].log, out.streamID)
             && delivered <= |was[connection].log|
    requires Conserved(written, passed, segs, was[connection].log[delivered..], s)
    requires out.State() == B.OpStep(s, op) && out.port.TookOp(was, out.port.Conns(), s, op)
    ensures SenderOk(out, connection) && delivered <= |out.port.transports[connection].log|
    ensures Conserved(written + B.Written(op), passed, segs, out.port.transports[connection].log[delivered..],
                      out.State())
  {
    hide BufferedOutputStream.Valid, BufferedOutputStream.Attached, Room, UpToDate, NoEos, OpConn, Conserved,
         B.OpStep, OutPort.RoutedTo;
    WriterConserves(written, passed, segs, was[connection], delivered, s, op,
                    out.port.transports[connection].maxSamplesPerPush);
  }

  /** pushSRI for another stream leaves an open stream as it was. */
  method Announce(out: BufferedOutputStream, sri: Sri)
    requires out.Valid() && out.Attached() && out.port.Wired() && out.port.Fitting(sri) && sri.streamID != out.streamID
    requires sri.streamID in out.port.streams ==>
               var other := out.port.streams[sri.streamID]; other.Valid() && other.CanRestate(sri)
    modifies out.port`streams, out.port.transports
    modifies if sri.streamID in out.port.streams then {out.port.streams[sri.streamID]} else {}
    ensures out.Valid() && out.Attached() && out.State() == old(out.State()) && out.port.Wired()
    ensures sri.streamID in out.port.streams && out.port.streams[sri.streamID].sri == sri
    ensures out.port.TookSri(old(out.port.Conns()), out.port.Conns(), sri, out.port.streams[sri.streamID].modcount)
  {
    hide OutPort.TookSri, OutPort.Fitting;
    out.port.PushSri(sri);
  }

  /** A pipeline whose output port has been busy with other streams since the connections were in
      the given states. */
  ghost predicate BeforeOthers(out: BufferedOutputStream, connection: nat, was: seq<Conn>, written: seq<Sample>,
                               passed: seq<Sample>, segs: seq<seq<Sample>>, delivered: nat)
    reads out, out.buffer, out.port
  {
    && out.Valid() && out.Attached() && connection < |out.port.transports| == |was|
    && out.port.RoutedTo(out.streamID, connection)
    && UpToDate(was[connection], out.State()) && NoEos(was[connection].log, out.streamID)
    && delivered <= |was[connection].log|
    && Conserved(written, passed, segs, was[connection].log[delivered..], out.State())
  }

  lemma OthersMoved(out: BufferedOutputStream, connection: nat, was: seq<Conn>, written: seq<Sample>,
                    passed: seq<Sample>, segs: seq<seq<Sample>>, delivered: nat)
    requires BeforeOthers(out, connection, was, written, passed, segs, delivered)
    requires var d := out.port.transports[connection].State();
             UpToDate(d, out.State()) && Beside(was[connection], d, out.streamID)
    ensures SenderOk(out, connection) && delivered <= |out.port.transports[connection].log|
    ensures Conserved(written, passed, segs, out.port.transports[connection].log[delivered..], out.State())
  {
    hide UpToDate, NoEos, Conserved, OutPort.RoutedTo, OutPort.Fitting;
    var d := out.port.transports[connection].State();
    OthersConserve(written, passed, segs, was[connection], d, delivered, out.State());
  }

  lemma OtherOpMoved(out: BufferedOutputStream, connection: nat, was: seq<Conn>, s: B.Sender, op: B.Op,
                     written: seq<Sample>, passed: seq<Sample>, segs: seq<seq<Sample>>, delivered: nat)
    requires BeforeOthers(out, connection, was, written, passed, segs, delivered)
    requires s.Valid() && out.port.Fitting(s.sri) && s.sri.streamID != out.streamID
    requires out.port.TookOp(was, out.port.Conns(), s, op)
    ensures SenderOk(out, connection) && delivered <= |out.port.transports[connection].log|
    ensures Conserved(written, passed, segs, out.port.transports[connection].log[delivered..], out.State())
  {
    hide UpToDate, NoEos, Conserved, OutPort.RoutedTo, Beside, Room, OpConn, B.CloseEmit, OutPort.SriTo,
         Bracketing.Step;
    OtherOp(was[connection], s, op, out.port.RoutedTo(s.sri.streamID, connection),
            out.port.transports[connection].maxSamplesPerPush, out.State());
    OthersMoved(out, connection, was, written, passed, segs, delivered);
  }

  lemma OtherCloseMoved(out: BufferedOutputStream, connection: nat, was: seq<Conn>, s: B.Sender,
                     written: seq<Sample>, passed: seq<Sample>, segs: seq<seq<Sample>>, delivered: nat)
    requires BeforeOthers(out, connection, was, written, passed, segs, delivered)
    requires s.Valid() && out.port.Fitting(s.sri) && s.sri.streamID != out.streamID && B.CloseEmit(s).sri == s.sri
    requires out.port.Took(was, out.port.Conns(), B.CloseEmit(s))
    ensures SenderOk(out, connection) && delivered <= |out.port.transports[connection].log|
    ensures Conserved(written, passed, segs, out.port.transports[connection].log[delivered..], out.State())
  {
    hide UpToDate, NoEos, Conserved, OutPort.RoutedTo, Beside, Room, OpConn, B.CloseEmit, OutPort.SriTo,
         Bracketing.Step;
    var limit := out.port.transports[connection].maxSamplesPerPush;
    var p, routed := B.CloseEmit(s), out.port.RoutedTo(s.sri.streamID, connection);
    RoomFits(p, routed, limit);
    OtherStep(was[connection], EventOf(p, routed), limit, out.State());
    OthersMoved(out, connection, was, written, passed, segs, delivered);
  }

  lemma OtherSriMoved(out: BufferedOutputStream, connection: nat, was: seq<Conn>, sri: Sri, version: int,
                     written: seq<Sample>, passed: seq<Sample>, segs: seq<seq<Sample>>, delivered: nat)
    requires BeforeOthers(out, connection, was, written, passed, segs, delivered)
    requires sri.streamID != out.streamID && out.port.TookSri(was, out.port.Conns(), sri, version)
    ensures SenderOk(out, connection) && delivered <= |out.port.transports[connection].log|
    ensures Conserved(written, passed, segs, out.port.transports[connection].log[delivered..], out.State())
  {
    hide UpToDate, NoEos, Conserved, OutPort.RoutedTo, Beside, Room, OpConn, B.CloseEmit, OutPort.SriTo,
         Bracketing.Step;
    var routed := out.port.RoutedTo(sri.streamID, connection);
    OtherStep(was[connection], SriEvent(sri.streamID, sri, version, routed), 1, out.State());
    SriIsStep(was[connection], sri, version, routed);
    OthersMoved(out, connection, was, written, passed, segs, delivered);
  }

  lemma SriIsStep(c: Conn, sri: Sri, version: int, routed: bool)
    ensures OutPort.SriTo(c, sri, version, routed)
            == Bracketing.Step(c, SriEvent(sri.streamID, sri, version, routed), 1)
  {
  }

  /** The stream is open, and the connection is alive, loses nothing and takes the stream. */
  ghost predicate SenderOk(out: BufferedOutputStream, connection: nat)
    reads out, out.buffer, out.port, out.port.transports
  {
    && out.Valid() && out.Attached()
    && connection < |out.port.transports| && out.port.RoutedTo(out.streamID, connection)
    && UpToDate(out.port.transports[connection].State(), out.State())
    && NoEos(out.port.transports[connection].log, out.streamID)
  }

  /** The input stream is the one its port knows by the ID, and no end-of-stream has come. */
  ghost predicate ReceiverOk(stream: BufferedInputStream, id: string)
    reads stream, stream.port, stream.port.streams.Values
  {
    stream.streamID == id && stream.Good() && !stream.Closed()
  }
}
