/** Output ports and buffered output streams. */
module OutStreams {
  import opened BulkioTypes
  import opened PrecisionTime
  import opened Chunking
  import opened Wire
  import opened Bracketing
  import opened Filters
  import opened Transports
  import opened Buffering
  import Emissions
  import opened Delivery
  import opened DataBlocks
  import opened TimedWrites

  class OutPort {
    const name: string
    var filterTable: seq<Row>
    var connectionIds: seq<string>
    var transports: seq<Transport>
    var streams: map<string, BufferedOutputStream>
    var active: bool

    constructor (name: string)
      ensures Valid() && Wired() && this.name == name && filterTable == [] && transports == [] && streams == map[]
    {
      this.name := name;
      filterTable, connectionIds, transports, streams, active := [], [], [], map[], false;
    }

    ghost predicate Valid()
      reads `connectionIds, `transports, `active
    {
      && |connectionIds| == |transports| && (active <==> transports != [])
      && (forall i, j :: 0 <= i < j < |transports| ==> transports[i] != transports[j])
      && (forall i, j :: 0 <= i < j < |connectionIds| ==> connectionIds[i] != connectionIds[j])
    }

    /** The streams belong to the port, each under its own ID. */
    ghost predicate Wired()
      reads `streams
    {
      forall id :: id in streams ==> streams[id].port == this && streams[id].streamID == id
    }

    /** Whether a stream goes to the i-th connection. */
    ghost predicate RoutedTo(id: string, i: nat)
      requires i < |connectionIds|
      reads `filterTable, `connectionIds
    {
      Routed(filterTable, name, id, connectionIds[i])
    }

    /** Every connection's pushes have room for a frame of the SRI. */
    ghost predicate Fitting(sri: Sri)
      reads `transports
    {
      forall i :: 0 <= i < |transports| ==> Room(sri, transports[i].maxSamplesPerPush)
    }

    /** The part of _sendPacket and its catch clauses that concerns one connection. */
    method SendTo(i: nat, p: Push)
      requires Valid() && i < |transports| && Room(p.sri, transports[i].maxSamplesPerPush)
      modifies transports[i]
      ensures transports[i].State() == Deliver(old(transports[i].State()), p, RoutedTo(p.sri.streamID, i),
                                               transports[i].maxSamplesPerPush)
    {
      hide PushSize, FrameSize, Chunks, Wire.PushSri, Wire.PushPacket, PushAllOutcome, Routed;
      var transport := transports[i];
      RoomFits(p, true, transport.maxSamplesPerPush);
      if !transport.alive {
        return;
      }
      var routed := IsStreamRoutedToConnection(filterTable, name, p.sri.streamID, connectionIds[i]);
      if !routed {
        return;
      }
      var outcome := transport.PushSri(p.sri.streamID, p.sri, p.version);
      if outcome == Delivered {
        outcome := transport.PushPacket(p.data, p.T, p.EOS, p.sri.streamID, p.sri);
      }
      if outcome == Fatal {
        transport.alive := false;
      }
    }

    /** The SRI and version a packet of a stream ID goes out with: those of the stream, or the
        default ones of a stream made for the occasion. */
    function SriOf(id: string): Sri
      reads `streams, if id in streams then {streams[id]} else {}
    {
      if id in streams then streams[id].sri else DefaultSri(id)
    }

    function VersionOf(id: string): int
      reads `streams, if id in streams then {streams[id]} else {}
    {
      if id in streams then streams[id].modcount else 0
    }

    method GetStream(id: string) returns (stream: BufferedOutputStream)
      modifies this`streams
      ensures id in old(streams) ==> stream == old(streams)[id] && streams == old(streams)
      ensures id !in old(streams) ==> fresh(stream) && fresh(stream.buffer) && streams == old(streams)[id := stream]
                                      && stream.port == this && stream.streamID == id
                                      && stream.Valid() && stream.State() == Sender(DefaultSri(id), 0, 0, [], NotSet())
                                      && stream.sri == Sri(id, 1.0, 0, 0, false, 0) && stream.modcount == 0
                                      && stream.bufferOffset == 0 && stream.bufferSize == 0
      ensures old(Wired()) ==> Wired() && stream.port == this && stream.streamID == id
    {
      if id in streams {
        return streams[id];
      }
      stream := new BufferedOutputStream(DefaultSri(id), this);
      streams := streams[id := stream];
    }

    /** The connections' states. */
    ghost function Conns(): (cs: seq<Conn>)
      reads `transports, transports
      ensures |cs| == |transports| && forall i :: 0 <= i < |cs| ==> cs[i] == transports[i].State()
    {
      var ts := transports;
      seq(|ts|, i requires 0 <= i < |ts| reads ts => ts[i].State())
    }

    /** Every connection has taken a packet, since the given states. */
    ghost predicate Took(was: seq<Conn>, now: seq<Conn>, p: Push)
      requires Valid() && Fitting(p.sri)
      reads `connectionIds, `transports, `active, `filterTable
    {
      |was| == |transports| == |now| &&
      forall i :: 0 <= i < |transports| ==>
        now[i] == Deliver(was[i], p, RoutedTo(p.sri.streamID, i), transports[i].maxSamplesPerPush)
    }

    /** Every connection has taken what an operation of a stream makes of it, since the given states. */
    ghost predicate TookOp(was: seq<Conn>, now: seq<Conn>, s: Sender, op: Op)
      requires Valid() && s.Valid() && Fitting(s.sri)
      reads `connectionIds, `transports, `active, `filterTable
    {
      |was| == |transports| == |now| &&
      forall i :: 0 <= i < |transports| ==>
        now[i] == OpConn(was[i], s, op, RoutedTo(s.sri.streamID, i), transports[i].maxSamplesPerPush)
    }

    ghost predicate TookAll(was: seq<Conn>, now: seq<Conn>, sri: Sri, version: int, ps: seq<Push>)
      requires Valid() && Fitting(sri) && AllWith(ps, sri, version)
      reads `connectionIds, `transports, `active, `filterTable
    {
      |was| == |transports| == |now| &&
      forall i :: 0 <= i < |transports| ==>
        now[i] == DeliverAll(was[i], ps, RoutedTo(sri.streamID, i), transports[i].maxSamplesPerPush)
    }

    lemma AllIsOp(was: seq<Conn>, now: seq<Conn>, s: Sender, op: Op)
      requires Valid() && s.Valid() && Fitting(s.sri) && AllWith(OpEmits(s, op), s.sri, s.modcount)
      requires TookAll(was, now, s.sri, s.modcount, OpEmits(s, op))
      ensures TookOp(was, now, s, op)
    {
      hide DeliverAll, RoutedTo, OpEmits, Room;
    }

    lemma OpIsAll(was: seq<Conn>, now: seq<Conn>, s: Sender, op: Op)
      requires Valid() && s.Valid() && Fitting(s.sri) && AllWith(OpEmits(s, op), s.sri, s.modcount)
      requires TookOp(was, now, s, op)
      ensures TookAll(was, now, s.sri, s.modcount, OpEmits(s, op))
    {
      hide DeliverAll, RoutedTo, OpEmits, Room;
    }

    /** What an operation sends, if it is at most one packet. */
    lemma SentFigures(was: seq<Conn>, now: seq<Conn>, s: Sender, op: Op)
      requires Valid() && s.Valid() && Fitting(s.sri) && TookOp(was, now, s, op)
      ensures OpEmits(s, op) == [] ==> now == was
      ensures |OpEmits(s, op)| == 1 && OpEmits(s, op)[0].sri == s.sri ==> Took(was, now, OpEmits(s, op)[0])
    {
      hide RoutedTo, OpEmits, Room, Deliver;
      var ps := OpEmits(s, op);
      if |ps| == 1 && ps[0].sri == s.sri {
        assert ps == [ps[0]] && ps[1..] == [];
        forall i | 0 <= i < |transports|
          ensures now[i] == Deliver(was[i], ps[0], RoutedTo(s.sri.streamID, i), transports[i].maxSamplesPerPush)
        {
          var limit := transports[i].maxSamplesPerPush;
          assert now[i] == OpConn(was[i], s, op, RoutedTo(s.sri.streamID, i), limit);
          assert DeliverAll(was[i], ps, RoutedTo(s.sri.streamID, i), limit)
                 == DeliverAll(Deliver(was[i], ps[0], RoutedTo(s.sri.streamID, i), limit), [],
                               RoutedTo(s.sri.streamID, i), limit);
        }
      }
    }

    lemma BothTook(was: seq<Conn>, mid: seq<Conn>, now: seq<Conn>, sri: Sri, version: int, a: seq<Push>, b: seq<Push>)
      requires Valid() && Fitting(sri) && AllWith(a, sri, version) && AllWith(b, sri, version)
               && AllWith(a + b, sri, version)
      requires TookAll(was, mid, sri, version, a) && TookAll(mid, now, sri, version, b)
      ensures TookAll(was, now, sri, version, a + b)
    {
      hide RoutedTo, Room, DeliverAll;
      forall i | 0 <= i < |transports|
        ensures now[i] == DeliverAll(was[i], a + b, RoutedTo(sri.streamID, i), transports[i].maxSamplesPerPush)
      {
        DeliverAllConcat(was[i], a, b, RoutedTo(sri.streamID, i), transports[i].maxSamplesPerPush);
      }
    }

    lemma NoneTook(was: seq<Conn>, sri: Sri, version: int)
      requires Valid() && Fitting(sri) && |was| == |transports|
      ensures TookAll(was, was, sri, version, [])
    {
      hide RoutedTo, Room;
    }

    lemma OneTook(was: seq<Conn>, now: seq<Conn>, sri: Sri, version: int, p: Push)
      requires Valid() && Fitting(sri) && AllWith([p], sri, version)
      requires p.sri == sri && Took(was, now, p)
      ensures TookAll(was, now, sri, version, [p])
    {
      hide RoutedTo, Room, Deliver;
      forall i | 0 <= i < |transports|
        ensures now[i] == DeliverAll(was[i], [p], RoutedTo(sri.streamID, i), transports[i].maxSamplesPerPush)
      {
        assert [p][1..] == [];
      }
    }

    lemma ThenTook(was: seq<Conn>, mid: seq<Conn>, now: seq<Conn>, sri: Sri, version: int, p: Push, ps: seq<Push>)
      requires Valid() && Fitting(sri) && AllWith([p] + ps, sri, version) && AllWith(ps, sri, version)
      requires p.sri == sri && Took(was, mid, p) && TookAll(mid, now, sri, version, ps)
      ensures TookAll(was, now, sri, version, [p] + ps)
    {
      hide RoutedTo, Room, Deliver;
      forall i | 0 <= i < |transports|
        ensures now[i] == DeliverAll(was[i], [p] + ps, RoutedTo(sri.streamID, i), transports[i].maxSamplesPerPush)
      {
        assert ([p] + ps)[1..] == ps;
      }
    }

    method SendAll(p: Push)
      requires Valid() && Fitting(p.sri)
      modifies transports
      ensures Took(old(Conns()), Conns(), p)
    {
      hide Deliver, Routed, Room;
      ghost var was := Conns();
      for i := 0 to |transports|
        invariant forall j :: 0 <= j < i ==>
          transports[j].State() == Deliver(was[j], p, RoutedTo(p.sri.streamID, j), transports[j].maxSamplesPerPush)
        invariant forall j :: i <= j < |transports| ==> transports[j].State() == was[j]
      {
        SendTo(i, p);
      }
    }

    /** OutPort::_sendPacket. */
    method SendPacket(data: seq<Sample>, T: Time, EOS: bool, id: string)
      requires Valid() && SriOf(id).streamID == id && Fitting(SriOf(id))
      modifies this`streams, transports
      ensures Valid()
      ensures Took(old(Conns()), Conns(), Push(data, T, EOS, old(SriOf(id)), old(VersionOf(id))))
      ensures if id in old(streams)
              then old(SriOf(id)) == old(streams[id].sri) && old(VersionOf(id)) == old(streams[id].modcount)
              else old(SriOf(id)) == Sri(id, 1.0, 0, 0, false, 0) && old(VersionOf(id)) == 0
      ensures if EOS then streams == old(streams) - {id}
              else if id in old(streams) then streams == old(streams)
              else id in streams && fresh(streams[id]) && streams == old(streams)[id := streams[id]]
      ensures old(Wired()) ==> Wired()
    {
      hide Took, Fitting;
      var stream := GetStream(id);
      if active {
        SendAll(Push(data, T, EOS, stream.sri, stream.modcount));
      } else {
        NotActive(Conns(), Push(data, T, EOS, stream.sri, stream.modcount));
      }
      if EOS {
        streams := streams - {id};
      }
    }

    /** createStream, and the part of pushSRI before the pushes. A stream that exists must have
        nothing buffered if its SRI changes: the flush would wait for the lock that is held already. */
    method CreateStream(sri: Sri) returns (stream: BufferedOutputStream)
      requires Valid() && Wired() && Fitting(sri)
      requires sri.streamID in streams ==> streams[sri.streamID].Valid() && streams[sri.streamID].CanRestate(sri)
      modifies `streams, if sri.streamID in streams then {streams[sri.streamID]} else {}
      ensures Wired() && sri.streamID in streams && streams[sri.streamID] == stream && stream.Valid()
      ensures if sri.streamID in old(streams)
              then streams == old(streams) && stream.State() == Restated(old(streams[sri.streamID].State()), sri)
              else fresh(stream) && fresh(stream.buffer) && streams == old(streams)[sri.streamID := stream]
                   && stream.State() == Sender(sri, 0, 0, [], NotSet())
      ensures sri.streamID in old(streams) ==> stream.buffer == old(streams[sri.streamID].buffer)
      ensures stream.sri == sri && stream.modcount == if sri.streamID !in old(streams) then 0 else
                old(streams[sri.streamID].modcount) + if sri == old(streams[sri.streamID].sri) then 0 else 1
    {
      if sri.streamID in streams {
        stream := streams[sri.streamID];
        stream.Restate(sri);
      } else {
        stream := new BufferedOutputStream(sri, this);
        streams := streams[sri.streamID := stream];
      }
    }

    /** A stream takes over an SRI without a flush. */
    static function Restated(s: Sender, sri: Sri): Sender {
      if s.sri == sri then s else s.(sri := sri, modcount := s.modcount + 1)
    }

    /** OutPort::pushSRI. */
    method PushSri(sri: Sri)
      requires Valid() && Wired() && Fitting(sri)
      requires sri.streamID in streams ==> streams[sri.streamID].Valid() && streams[sri.streamID].CanRestate(sri)
      modifies `streams, (if sri.streamID in streams then {streams[sri.streamID]} else {}), transports
      ensures Valid() && Wired() && sri.streamID in streams
      ensures var stream := streams[sri.streamID];
              && stream.Valid() && (sri.streamID in old(streams) ==> stream.buffer == old(streams[sri.streamID].buffer))
              && stream.sri == sri && stream.modcount == (if sri.streamID !in old(streams) then 0 else
                   old(streams[sri.streamID].modcount) + if sri == old(streams[sri.streamID].sri) then 0 else 1)
              && if sri.streamID in old(streams)
                 then streams == old(streams) && stream.State() == Restated(old(streams[sri.streamID].State()), sri)
                 else fresh(stream) && fresh(stream.buffer) && streams == old(streams)[sri.streamID := stream]
                      && stream.State() == Sender(sri, 0, 0, [], NotSet())
      ensures TookSri(old(Conns()), Conns(), sri, streams[sri.streamID].modcount)
    {
      hide Fitting, TookSri;
      var stream := CreateStream(sri);
      SendSriAll(sri, stream.modcount);
    }

    method SendSriAll(sri: Sri, version: int)
      requires Valid()
      modifies transports
      ensures TookSri(old(Conns()), Conns(), sri, version)
    {
      hide SriTo, Routed;
      ghost var was := Conns();
      for i := 0 to |transports|
        invariant forall j :: 0 <= j < i ==>
          transports[j].State() == SriTo(was[j], sri, version, RoutedTo(sri.streamID, j))
        invariant forall j :: i <= j < |transports| ==> transports[j].State() == was[j]
      {
        SendSriTo(i, sri, version);
      }
    }

    /** What pushSRI does to one connection. */
    static function SriTo(c: Conn, sri: Sri, version: int, routed: bool): Conn {
      if routed then SendSri(c, sri.streamID, sri, version) else c
    }

    ghost predicate TookSri(was: seq<Conn>, now: seq<Conn>, sri: Sri, version: int)
      requires Valid()
      reads `connectionIds, `transports, `active, `filterTable
    {
      |was| == |transports| == |now| &&
      forall i :: 0 <= i < |transports| ==> now[i] == SriTo(was[i], sri, version, RoutedTo(sri.streamID, i))
    }

    method SendSriTo(i: nat, sri: Sri, version: int)
      requires Valid() && i < |transports|
      modifies transports[i]
      ensures transports[i].State() == SriTo(old(transports[i].State()), sri, version, RoutedTo(sri.streamID, i))
    {
      hide Wire.PushSri, Routed;
      if !transports[i].alive {
        return;
      }
      var routed := IsStreamRoutedToConnection(filterTable, name, sri.streamID, connectionIds[i]);
      if routed {
        var outcome := transports[i].PushSri(sri.streamID, sri, version);
      }
    }

    /** connectPort. A connection ID that is taken is refused. */
    method ConnectPort(connectionId: string, transport: Transport) returns (occupied: bool)
      requires Valid() && transport !in transports
      modifies `connectionIds, `transports, `active
      ensures Valid() && occupied == (connectionId in old(connectionIds))
      ensures if occupied then connectionIds == old(connectionIds) && transports == old(transports)
              else connectionIds == old(connectionIds) + [connectionId] && transports == old(transports) + [transport]
    {
      occupied := connectionId in connectionIds;
      if !occupied {
        connectionIds, transports, active := connectionIds + [connectionId], transports + [transport], true;
      }
    }

    /** disconnectPort. The connection goes, whether or not its streams could be ended. */
    method DisconnectPort(connectionId: string) returns (invalid: bool, ghost order: seq<string>)
      requires Valid()
      modifies `connectionIds, `transports, `active, transports
      ensures Valid() && invalid == (connectionId !in old(connectionIds))
      ensures invalid ==>
                connectionIds == old(connectionIds) && transports == old(transports) && Conns() == old(Conns())
      ensures !invalid ==> (exists k :: 0 <= k < |old(transports)| && old(connectionIds)[k] == connectionId
                             && connectionIds == old(connectionIds)[..k] + old(connectionIds)[k + 1..]
                             && transports == old(transports)[..k] + old(transports)[k + 1..]
                             && Enumerates(order, old(transports[k].sriVersions).Keys)
                             && old(transports)[k].State() == Wire.Disconnect(old(transports[k].State()), order))
      ensures !invalid ==> (forall t :: t in transports ==> t.State() == old(t.State()))
    {
      hide Wire.Disconnect, Enumerates;
      order := [];
      var k := 0;
      while k < |connectionIds| && connectionIds[k] != connectionId
        invariant k <= |connectionIds| && connectionId !in connectionIds[..k]
      {
        k := k + 1;
      }
      invalid := k == |connectionIds|;
      if invalid {
        assert connectionIds[..k] == connectionIds;
      } else {
        order := transports[k].Disconnect();
        connectionIds, transports := connectionIds[..k] + connectionIds[k + 1..], transports[..k] + transports[k + 1..];
        active := transports != [];
      }
    }

    lemma NotActive(was: seq<Conn>, p: Push)
      requires Valid() && Fitting(p.sri) && !active && |was| == |transports|
      ensures Took(was, was, p)
    {
    }
  }

  class BufferedOutputStream {
    const streamID: string
    const port: OutPort
    var sri: Sri
    var modcount: int
    var buffer: array<Sample>
    var bufferTime: Time
    var bufferSize: nat
    var bufferOffset: nat

    constructor (sri: Sri, port: OutPort)
      ensures Valid() && fresh(buffer) && this.port == port && streamID == sri.streamID
      ensures State() == Sender(sri, 0, 0, [], NotSet())
    {
      streamID, this.port, this.sri, modcount := sri.streamID, port, sri, 0;
      buffer, bufferTime, bufferSize, bufferOffset := new Sample[0], NotSet(), 0, 0;
    }

    ghost predicate Valid()
      reads this, buffer
    {
      && bufferSize <= buffer.Length && (bufferOffset == 0 || bufferOffset < bufferSize)
      && sri.streamID == streamID
    }

    function State(): Sender
      requires bufferOffset <= buffer.Length
      reads this, buffer
    {
      Sender(sri, modcount, bufferSize, buffer[..bufferOffset], bufferTime)
    }

    /** The stream is the one its port knows by its ID. */
    ghost predicate Attached()
      reads `sri, port
    {
      port.Valid() && port.Fitting(sri) && sri.streamID == streamID
      && streamID in port.streams && port.streams[streamID] == this
    }

    method Send(data: seq<Sample>, time: Time, eos: bool)
      requires Attached() && bufferOffset <= buffer.Length
      modifies port`streams, port.transports
      ensures port.Valid() && port.Took(old(port.Conns()), port.Conns(), State().Emit(data, time, eos))
      ensures port.streams == if eos then old(port.streams) - {streamID} else old(port.streams)
      ensures !eos ==> Attached()
    {
      hide OutPort.Took, OutPort.Fitting;
      port.SendPacket(data, time, eos, streamID);
    }

    /** _flush. */
    method PushBuffer(eos: bool)
      requires Attached() && bufferOffset <= buffer.Length
      modifies this, port`streams, port.transports
      ensures Valid() && fresh(buffer) && State() == Emptied(old(State()))
      ensures port.Valid()
      ensures port.Took(old(port.Conns()), port.Conns(), old(State().Emit(State().buffer, bufferTime, eos)))
      ensures port.streams == if eos then old(port.streams) - {streamID} else old(port.streams)
      ensures !eos ==> Attached()
    {
      hide OutPort.Took, OutPort.Fitting;
      Send(buffer[..bufferOffset], bufferTime, eos);
      buffer := new Sample[bufferSize];
      bufferOffset := 0;
    }

    /** The part of _doBuffer that fills the buffer. */
    method Fill(data: seq<Sample>, time: Time) returns (count: nat)
      requires Valid() && bufferOffset < bufferSize
      modifies `bufferTime, `bufferOffset, buffer
      ensures bufferOffset <= bufferSize
      ensures count == Count(old(State()), data) && State() == Filled(old(State()), data, time)
    {
      if bufferOffset == 0 {
        bufferTime := time;
      }
      count := Min(|data|, bufferSize - bufferOffset);
      forall i | 0 <= i < count {
        buffer[bufferOffset + i] := data[i];
      }
      bufferOffset := bufferOffset + count;
      assert buffer[..bufferOffset] == old(buffer[..bufferOffset]) + data[..count];
    }

    method DoBuffer(data: seq<Sample>, time: Time)
      requires Valid() && Attached() && bufferOffset < bufferSize
      modifies this, buffer, port`streams, port.transports
      decreases |data|
      ensures Valid() && Attached() && (buffer == old(buffer) || fresh(buffer)) && port.streams == old(port.streams)
      ensures State() == Buffering.DoBuffer(old(State()), data, time)
      ensures AllWith(DoBufferEmits(old(State()), data, time), sri, modcount)
      ensures port.TookAll(old(port.Conns()), port.Conns(), sri, modcount, DoBufferEmits(old(State()), data, time))
    {
      hide OutPort.Took, OutPort.TookAll, OutPort.Valid, OutPort.Fitting, AllWith, Later, Count, Filled,
           Buffering.DoBuffer, DoBufferEmits;
      ghost var s, was := State(), port.Conns();
      DoBufferKeeps(s, data, time);
      DoBufferCases(s, data, time);
      var count := Fill(data, time);
      ghost var filled := State();
      if bufferOffset >= bufferSize {
        PushBuffer(false);
        ghost var p := filled.Emit(filled.buffer, filled.time, false);
        if count == |data| {
          port.OneTook(was, port.Conns(), sri, modcount, p);
        }
      } else {
        port.NoneTook(was, sri, modcount);
      }
      if count < |data| {
        ghost var mid := port.Conns();
        DoBuffer(data[count..], Later(time, count, sri.xdelta));
        port.ThenTook(was, mid, port.Conns(), sri, modcount, filled.Emit(filled.buffer, filled.time, false),
                      DoBufferEmits(Emptied(filled), data[count..], Later(time, count, sri.xdelta)));
      }
    }

    method Write(data: seq<Sample>, time: Time)
      requires Valid() && Attached()
      modifies this, buffer, port`streams, port.transports
      ensures Valid() && Attached() && (buffer == old(buffer) || fresh(buffer)) && port.streams == old(port.streams)
      ensures State() == OpStep(old(State()), WriteOp(data, time))
      ensures port.Fitting(old(sri)) && port.TookOp(old(port.Conns()), port.Conns(), old(State()), WriteOp(data, time))
      ensures sri == old(sri) && modcount == old(modcount) && bufferSize == old(bufferSize)
      ensures old(bufferSize) == 0 || (old(bufferOffset) == 0 && |data| >= old(bufferSize)) ==>
                && bufferOffset == old(bufferOffset)
                && port.Took(old(port.Conns()), port.Conns(), Push(data, time, false, old(sri), old(modcount)))
      ensures old(bufferOffset) + |data| < old(bufferSize) ==>
                buffer[..bufferOffset] == old(buffer[..bufferOffset]) + data && port.Conns() == old(port.Conns())
    {
      hide OutPort.Took, OutPort.TookAll, OutPort.TookOp, OutPort.Valid, OutPort.Fitting, AllWith, Scalars,
           Buffering.DoBuffer, DoBufferEmits;
      ghost var s, was := State(), port.Conns();
      OpKeeps(s, WriteOp(data, time));
      if bufferSize == 0 || (bufferOffset == 0 && |data| >= bufferSize) {
        Send(data, time, false);
        port.OneTook(was, port.Conns(), sri, modcount, s.Emit(data, time, false));
      } else {
        DoBuffer(data, time);
      }
      port.AllIsOp(was, port.Conns(), s, WriteOp(data, time));
      Emissions.WriteFigures(s, data, time);
      if |s.buffer| + |data| < s.size { Emissions.NothingSent(s, data, time); }
      port.SentFigures(was, port.Conns(), s, WriteOp(data, time));
    }

    /** What flush does, wherever it is called from. */
    method FlushBuffer()
      requires Attached() && bufferOffset <= buffer.Length
      modifies this, port`streams, port.transports
      ensures Attached() && (buffer == old(buffer) || fresh(buffer)) && bufferOffset == 0
              && port.streams == old(port.streams)
      ensures old(bufferOffset) > 0 || old(Valid()) ==> Valid()
      ensures State() == Emptied(old(State())) && AllWith(FlushEmits(old(State())), sri, modcount)
      ensures port.TookAll(old(port.Conns()), port.Conns(), sri, modcount, FlushEmits(old(State())))
    {
      hide OutPort.Took, OutPort.TookAll, OutPort.Valid, OutPort.Fitting;
      ghost var s, was := State(), port.Conns();
      if bufferOffset == 0 {
        port.NoneTook(was, sri, modcount);
        return;
      }
      PushBuffer(false);
      port.OneTook(was, port.Conns(), sri, modcount, s.Emit(s.buffer, s.time, false));
    }

    method Flush()
      requires Valid() && Attached()
      modifies this, port`streams, port.transports
      ensures Valid() && Attached() && (buffer == old(buffer) || fresh(buffer)) && port.streams == old(port.streams)
      ensures State() == OpStep(old(State()), FlushOp)
      ensures port.Fitting(old(sri)) && port.TookOp(old(port.Conns()), port.Conns(), old(State()), FlushOp)
      ensures bufferOffset == 0 && bufferSize == old(bufferSize) && sri == old(sri) && modcount == old(modcount)
      ensures if old(bufferOffset) == 0 then port.Conns() == old(port.Conns())
              else port.Took(old(port.Conns()), port.Conns(),
                             Push(old(buffer[..bufferOffset]), old(bufferTime), false, old(sri), old(modcount)))
    {
      hide OutPort.Took, OutPort.TookAll, OutPort.TookOp, OutPort.Valid, OutPort.Fitting;
      ghost var s, was := State(), port.Conns();
      FlushBuffer();
      port.AllIsOp(was, port.Conns(), s, FlushOp);
      Emissions.ChangeFigures(s, FlushOp);
      port.SentFigures(was, port.Conns(), s, FlushOp);
    }

    method SetBufferSize(samples: nat)
      requires Valid() && Attached()
      modifies this, port`streams, port.transports
      ensures Valid() && Attached() && (buffer == old(buffer) || fresh(buffer)) && port.streams == old(port.streams)
      ensures State() == OpStep(old(State()), SizeOp(samples))
      ensures port.Fitting(old(sri)) && port.TookOp(old(port.Conns()), port.Conns(), old(State()), SizeOp(samples))
      ensures bufferSize == samples && sri == old(sri) && modcount == old(modcount)
      ensures if samples <= old(bufferOffset) then bufferOffset == 0
              else buffer[..bufferOffset] == old(buffer[..bufferOffset]) && bufferTime == old(bufferTime)
      ensures if old(bufferOffset) == 0 || samples > old(bufferOffset) then port.Conns() == old(port.Conns())
              else port.Took(old(port.Conns()), port.Conns(),
                             Push(old(buffer[..bufferOffset]), old(bufferTime), false, old(sri), old(modcount)))
    {
      hide OutPort.Took, OutPort.TookAll, OutPort.TookOp, OutPort.Valid, OutPort.Fitting, Scalars;
      ghost var s, was := State(), port.Conns();
      OpKeeps(s, SizeOp(samples));
      if samples == bufferSize {
        port.NoneTook(was, sri, modcount);
      } else {
        bufferSize := samples;
        if bufferSize <= bufferOffset {
          FlushBuffer();
        } else {
          port.NoneTook(was, sri, modcount);
          if bufferSize > buffer.Length {
            Resize(bufferSize);
          }
        }
      }
      port.AllIsOp(was, port.Conns(), s, SizeOp(samples));
      Emissions.ChangeFigures(s, SizeOp(samples));
      port.SentFigures(was, port.Conns(), s, SizeOp(samples));
    }

    /** _buffer.resize: a longer buffer with the same contents. */
    method Resize(length: nat)
      requires bufferOffset <= buffer.Length <= length
      modifies `buffer
      ensures fresh(buffer) && buffer.Length == length && buffer[..bufferOffset] == old(buffer[..bufferOffset])
    {
      var resized := new Sample[length];
      forall i | 0 <= i < buffer.Length {
        resized[i] := buffer[i];
      }
      buffer := resized;
    }

    /** _setStreamMetadata, for whichever fields differ: what is buffered goes out first. */
    method SetMetadata(next: Sri)
      requires Valid() && Attached() && next.streamID == streamID && port.Fitting(next)
      modifies this, port`streams, port.transports
      ensures Valid() && Attached() && (buffer == old(buffer) || fresh(buffer)) && port.streams == old(port.streams)
      ensures State() == OpStep(old(State()), SriOp(next))
      ensures port.Fitting(old(sri)) && port.TookOp(old(port.Conns()), port.Conns(), old(State()), SriOp(next))
      ensures sri == next && modcount == old(modcount) + if next == old(sri) then 0 else 1
      ensures bufferSize == old(bufferSize) && bufferTime == old(bufferTime)
      ensures if next == old(sri) then buffer[..bufferOffset] == old(buffer[..bufferOffset]) else bufferOffset == 0
      ensures if next == old(sri) || old(bufferOffset) == 0 then port.Conns() == old(port.Conns())
              else port.Took(old(port.Conns()), port.Conns(),
                             Push(old(buffer[..bufferOffset]), old(bufferTime), false, old(sri), old(modcount)))
    {
      hide OutPort.Took, OutPort.TookAll, OutPort.TookOp, OutPort.Valid, OutPort.Fitting, Scalars;
      ghost var s, was := State(), port.Conns();
      OpKeeps(s, SriOp(next));
      if sri != next {
        FlushBuffer();
        sri := next;
        modcount := modcount + 1;
      } else {
        port.NoneTook(was, sri, modcount);
      }
      port.AllIsOp(was, port.Conns(), s, SriOp(next));
      Emissions.ChangeFigures(s, SriOp(next));
      port.SentFigures(was, port.Conns(), s, SriOp(next));
    }

    /** Taking over an SRI of the stream's ID needs no flush. */
    predicate CanRestate(newSri: Sri)
      reads this
    {
      bufferOffset == 0 || sri == newSri
    }

    /** sri(), where it needs no flush. */
    method Restate(newSri: Sri)
      requires Valid() && CanRestate(newSri) && newSri.streamID == streamID
      modifies `sri, `modcount
      ensures Valid() && State() == OutPort.Restated(old(State()), newSri)
    {
      if sri != newSri {
        sri := newSri;
        modcount := modcount + 1;
      }
    }

    /** sri(): everything but the stream ID is taken over. */
    method SetSri(newSri: Sri)
      requires Valid() && Attached() && port.Fitting(newSri)
      modifies this, port`streams, port.transports
      ensures Valid() && Attached() && (buffer == old(buffer) || fresh(buffer)) && port.streams == old(port.streams)
      ensures State() == OpStep(old(State()), SriOp(newSri))
      ensures port.Fitting(old(sri)) && port.TookOp(old(port.Conns()), port.Conns(), old(State()), SriOp(newSri))
      ensures sri == newSri.(streamID := streamID)
      ensures modcount == old(modcount) + if newSri.(streamID := streamID) == old(sri) then 0 else 1
      ensures bufferSize == old(bufferSize) && bufferTime == old(bufferTime)
      ensures if sri == old(sri) then buffer[..bufferOffset] == old(buffer[..bufferOffset]) else bufferOffset == 0
      ensures if sri == old(sri) || old(bufferOffset) == 0 then port.Conns() == old(port.Conns())
              else port.Took(old(port.Conns()), port.Conns(),
                             Push(old(buffer[..bufferOffset]), old(bufferTime), false, old(sri), old(modcount)))
    {
      hide OutPort.Took, OutPort.TookAll, OutPort.Valid;
      FrameOf(newSri, streamID);
      SetMetadata(newSri.(streamID := streamID));
    }

    /** Any of the operations that leave the stream open. */
    method Apply(op: Op)
      requires Valid() && Attached() && (op.SriOp? ==> port.Fitting(op.sri))
      modifies this, buffer, port`streams, port.transports
      ensures Valid() && Attached() && (buffer == old(buffer) || fresh(buffer)) && port.streams == old(port.streams)
      ensures State() == OpStep(old(State()), op)
      ensures port.Fitting(old(sri)) && port.TookOp(old(port.Conns()), port.Conns(), old(State()), op)
    {
      hide OutPort.TookOp, OutPort.Fitting, OpStep;
      match op
      case WriteOp(data, time) => Write(data, time);
      case SizeOp(samples) => SetBufferSize(samples);
      case SriOp(next) => SetSri(next);
      case FlushOp => Flush();
    }

    /** One of a list of writes. */
    method WriteNext(data: seq<Sample>, time: Time, ghost s: Sender, ghost was: seq<Conn>, ghost writes: seq<Op>,
                     ghost rest: seq<Op>, ghost sent: seq<Push>) returns (ghost more: seq<Push>)
      requires Valid() && Attached() && sri == s.sri && modcount == s.modcount
      requires Writing(s, writes, State(), [WriteOp(data, time)] + rest, sent)
      requires AllWith(sent, sri, modcount) && port.TookAll(was, port.Conns(), sri, modcount, sent)
      modifies this, buffer, port`streams, port.transports
      ensures Valid() && Attached() && (buffer == old(buffer) || fresh(buffer)) && port.streams == old(port.streams)
      ensures sri == s.sri && modcount == s.modcount
      ensures Writing(s, writes, State(), rest, more) && AllWith(more, sri, modcount)
      ensures port.TookAll(was, port.Conns(), sri, modcount, more)
    {
      hide OutPort.Took, OutPort.TookAll, OutPort.TookOp, OutPort.Valid, OutPort.Fitting, AllWith, Writing, OpEmits,
           OpStep, Scalars;
      ghost var at, mid, op := State(), port.Conns(), WriteOp(data, time);
      OpKeeps(at, op);
      WritingNext(s, writes, at, op, rest, sent);
      Write(data, time);
      more := sent + OpEmits(at, op);
      port.OpIsAll(mid, port.Conns(), at, op);
      port.BothTook(was, mid, port.Conns(), sri, modcount, sent, OpEmits(at, op));
    }

    /** _writeMultiple, for scalar data: the data cut at the timestamps' offsets, which count
        samples. An empty list is an error. */
    method WriteMultiple(data: seq<Sample>, times: seq<SampleTimestamp>) returns (error: bool)
      requires Valid() && Attached() && (times != [] ==> Fits(times, |data|, sri.ItemSize()))
      modifies this, buffer, port`streams, port.transports
      ensures Valid() && Attached() && (buffer == old(buffer) || fresh(buffer)) && port.streams == old(port.streams)
      ensures port.Fitting(old(sri)) && (error <==> times == [])
      ensures error ==> State() == old(State()) && port.Conns() == old(port.Conns())
      ensures !error ==> Inside(times, 0, |data|, old(sri).ItemSize())
      ensures !error ==>
                var writes := CutWrites(data, times, 0, old(sri).ItemSize());
                && State() == Buffering.Run(old(State()), writes)
                && AllWith(RunEmits(old(State()), writes), old(sri), old(modcount))
                && port.TookAll(old(port.Conns()), port.Conns(), old(sri), old(modcount),
                                RunEmits(old(State()), writes))
    {
      hide OutPort.Took, OutPort.TookAll, OutPort.TookOp, OutPort.Valid, OutPort.Fitting, AllWith, Buffering.Run,
           RunEmits, OpStep, OpEmits, CutWrites, Inside, Fits, Writing, AtCut, Sri.ItemSize;
      if |times| == 0 {
        return true;
      }
      error := false;
      InsideExactly(times, |data|, sri.ItemSize());
      ghost var s, was, writes := State(), port.Conns(), CutWrites(data, times, 0, sri.ItemSize());
      var timestamp, first := 0, 0;
      ghost var rest, sent: seq<Push> := writes, [];
      CutWritesWrite(data, times, 0, sri.ItemSize());
      WritesKeepSri(s, writes);
      StartWriting(s, writes);
      StartCut(data, times, sri, writes);
      port.NoneTook(was, sri, modcount);
      while first < |data|
        invariant Valid() && Attached() && (buffer == old(buffer) || fresh(buffer)) && port.streams == old(port.streams)
        invariant sri == s.sri && modcount == s.modcount
        invariant timestamp <= |times| && AtCut(data, times[timestamp..], first, s.sri.ItemSize(), rest)
        invariant Writing(s, writes, State(), rest, sent)
        invariant AllWith(sent, sri, modcount) && port.TookAll(was, port.Conns(), sri, modcount, sent)
        decreases |times| - timestamp
      {
        CutRound(data, times, timestamp, first, s.sri.ItemSize(), rest);
        var when := times[timestamp].time;
        timestamp := timestamp + 1;
        var last := CutPoint(times, timestamp, first, |data|, sri);
        rest := rest[1..];
        sent := WriteNext(data[first..last], when, s, was, writes, rest, sent);
        first := last;
      }
      EndCut(data, times[timestamp..], first, s.sri.ItemSize(), rest);
      EndWriting(s, writes, State(), sent);
    }

    method Close()
      requires Valid() && Attached()
      modifies this, port`streams, port.transports
      ensures port.Valid() && port.streams == old(port.streams) - {streamID} && bufferOffset == 0
      ensures port.Took(old(port.Conns()), port.Conns(), CloseEmit(old(State())))
      ensures CloseEmit(old(State()))
              == Push(old(buffer[..bufferOffset]),
                      if old(bufferOffset) == 0 then Time(0, TcsInvalid, 0.0, 0.0, 0.0) else old(bufferTime),
                      true, old(sri), old(modcount))
    {
      hide OutPort.Took, OutPort.Valid, OutPort.Fitting;
      if bufferOffset > 0 {
        PushBuffer(true);
      } else {
        Send([], NotSet(), true);
      }
    }
  }

  /** Part way through a list of writes. */
  ghost predicate Writing(s: Sender, writes: seq<Op>, now: Sender, rest: seq<Op>, sent: seq<Push>) {
    && s.Valid() && now.Valid() && AllWith(sent, s.sri, s.modcount)
    && Buffering.Run(s, writes) == Buffering.Run(now, rest)
    && RunEmits(s, writes) == sent + RunEmits(now, rest)
  }

  lemma StartWriting(s: Sender, writes: seq<Op>)
    requires s.Valid()
    ensures AllWith([], s.sri, s.modcount)
    ensures Writing(s, writes, s, writes, [])
  {
    assert [] + RunEmits(s, writes) == RunEmits(s, writes);
  }

  lemma WritingNext(s: Sender, writes: seq<Op>, now: Sender, op: Op, rest: seq<Op>, sent: seq<Push>)
    requires Writing(s, writes, now, [op] + rest, sent) && op.WriteOp? && now.sri == s.sri && now.modcount == s.modcount
    ensures Writing(s, writes, OpStep(now, op), rest, sent + OpEmits(now, op))
    ensures AllWith(sent + OpEmits(now, op), s.sri, s.modcount)
  {
    hide OpStep, OpEmits, Scalars;
    RunFirst(now, op, rest);
    OpKeeps(now, op);
    Regroup(sent, OpEmits(now, op), RunEmits(OpStep(now, op), rest));
  }

  lemma EndWriting(s: Sender, writes: seq<Op>, now: Sender, sent: seq<Push>)
    requires Writing(s, writes, now, [], sent)
    ensures Buffering.Run(s, writes) == now && RunEmits(s, writes) == sent
  {
    assert sent + [] == sent;
  }

  /** The end of the write before a timestamp: for timestamps that fit the data it is neither
      before the write's beginning nor beyond the data, and the timestamps behind it fit again. */
  method CutPoint(times: seq<SampleTimestamp>, timestamp: nat, first: nat, size: nat, sri: Sri) returns (last: nat)
    requires 0 < timestamp <= |times| && first < size
    requires Inside(times[timestamp - 1..], first, size, sri.ItemSize())
    ensures first <= last <= size
    ensures if timestamp == |times| then last == size
            else last == CutAt(times[timestamp].offset, size, sri.ItemSize())
                 && Inside(times[timestamp..], last, size, sri.ItemSize())
  {
    assert times[timestamp - 1..][1..] == times[timestamp..];
    if timestamp == |times| {
      last := size;
    } else {
      last := Min(times[timestamp].offset, size);
      if sri.Complex() {
        last := last * 2;
      }
    }
  }

  /** The writes still to be made, before the loop's next round. */
  ghost predicate AtCut(data: seq<Sample>, times: seq<SampleTimestamp>, first: nat, item: nat, rest: seq<Op>) {
    && first <= |data| && (item == 1 || item == 2)
    && if first == |data| then rest == []
       else times != [] && Inside(times, first, |data|, item) && rest == CutWrites(data, times, first, item)
  }

  lemma StartCut(data: seq<Sample>, times: seq<SampleTimestamp>, sri: Sri, writes: seq<Op>)
    requires times != [] && Inside(times, 0, |data|, sri.ItemSize())
             && writes == CutWrites(data, times, 0, sri.ItemSize())
    ensures times[0..] == times && AtCut(data, times, 0, sri.ItemSize(), writes)
  {
  }

  lemma EndCut(data: seq<Sample>, times: seq<SampleTimestamp>, first: nat, item: nat, rest: seq<Op>)
    requires AtCut(data, times, first, item, rest) && first >= |data|
    ensures rest == []
  {
  }

  lemma CutRound(data: seq<Sample>, times: seq<SampleTimestamp>, timestamp: nat, first: nat, item: nat, rest: seq<Op>)
    requires timestamp <= |times| && first < |data| && AtCut(data, times[timestamp..], first, item, rest)
    ensures timestamp < |times| && Inside(times[timestamp..], first, |data|, item)
    ensures var last := if timestamp + 1 == |times| then |data| else CutAt(times[timestamp + 1].offset, |data|, item);
            && first <= last <= |data| && rest == [WriteOp(data[first..last], times[timestamp].time)] + rest[1..]
            && AtCut(data, times[timestamp + 1..], last, item, rest[1..])
  {
    assert times[timestamp..][1..] == times[timestamp + 1..];
  }
}
