/** The input port and its buffered input streams, as the objects they are. */
module InputStreams {
  import opened BulkioTypes
  import opened PrecisionTime
  import opened PacketQueue
  import opened QueueLoops
  import opened StreamCells
  import opened Segments
  import opened DataBlocks
  import L = Ledger
  import SB = StreamBuffer
  import Assembly
  import Availability
  import Cursors

  datatype Registration = Registration(sri: Sri, changed: bool)

  class InPort {
    const compareSri: Option<(Sri, Sri) -> bool>
    var maxQueue: nat
    var blocking: bool
    var breakBlock: bool
    var packetQueue: seq<Packet>
    var currentHs: map<string, Registration>
    var streams: map<string, BufferedInputStream>
    /** A stream waiting behind an active one of the same ID, as the SRI it is created with. */
    var pendingStreams: map<string, seq<Sri>>

    constructor (maxQueue: nat, compareSri: Option<(Sri, Sri) -> bool>)
      ensures Sound() && forall id :: CellOf(id) == Cell([], None, None, 0)
      ensures packetQueue == [] && currentHs == map[] && streams == map[] && pendingStreams == map[]
      ensures this.maxQueue == maxQueue && !blocking && !breakBlock
    {
      this.compareSri, this.maxQueue := compareSri, maxQueue;
      blocking, breakBlock := false, false;
      packetQueue, currentHs, streams, pendingStreams := [], map[], map[], map[];
    }

    /** The active streams belong where they are filed. */
    ghost predicate Wired()
      reads `streams, `pendingStreams
    {
      && (forall id :: id in streams ==> streams[id].streamID == id && streams[id].port == this)
      && (forall id :: id in pendingStreams ==> pendingStreams[id] != [])
    }

    ghost function CellOf(id: string): Cell
      reads `packetQueue, `currentHs, `streams, `pendingStreams, streams.Values
    {
      Cell(Lane(packetQueue, id),
           if id in currentHs then Some(currentHs[id].changed) else None,
           if id in streams then Some(streams[id].eosState) else None,
           if id in pendingStreams then |pendingStreams[id]| else 0)
    }

    /** For every stream ID the streams held are accounted for. */
    ghost predicate Sound()
      reads `packetQueue, `currentHs, `streams, `pendingStreams, streams.Values
    {
      Wired() && forall id :: CellOk(CellOf(id))
    }

    /** The account stays in order where it stays the same. */
    twostate lemma SoundThroughout(id: string)
      requires old(Sound()) && Wired() && CellOk(CellOf(id))
      requires forall x :: x != id ==> CellOf(x) == old(CellOf(x)) || CellOk(CellOf(x))
      ensures Sound()
    {
      hide CellOf, Wired, CellOk;
      forall x ensures CellOk(CellOf(x)) {
        if x != id { assert CellOk(old(CellOf(x))); }
      }
    }

    method CreateStream(streamID: string, sri: Sri)
      requires Wired()
      modifies this`streams, this`pendingStreams
      ensures Wired()
      ensures forall x :: x in old(streams) ==> x in streams && streams[x] == old(streams)[x]
      ensures forall x :: CellOf(x) == if x == streamID then AddStream(old(CellOf(x))) else old(CellOf(x))
      ensures Created(streamID, sri, old(streams), old(pendingStreams))
      ensures if streamID in old(streams) then
                streamID in pendingStreams && pendingStreams[streamID]
                  == (if streamID in old(pendingStreams) then old(pendingStreams)[streamID] else []) + [sri]
              else
                && streamID in streams && fresh(streams[streamID]) && streams[streamID].sri == sri
                && streams[streamID].queue == [] && streams[streamID].pending == None
                && streams[streamID].samplesQueued == 0 && streams[streamID].sampleOffset == 0
                && streams[streamID].eosState == EosNone && streams[streamID].newstream
    {
      if streamID !in streams {
        var stream := new BufferedInputStream(streamID, sri, this);
        streams := streams[streamID := stream];
      } else {
        var waiting := if streamID in pendingStreams then pendingStreams[streamID] else [];
        pendingStreams := pendingStreams[streamID := waiting + [sri]];
      }
    }

    /** A stream of this SRI has become the active one of its ID, holding nothing, or waits last
        behind it. */
    ghost predicate Created(id: string, sri: Sri, active: map<string, BufferedInputStream>,
                            waiting: map<string, seq<Sri>>)
      reads `streams, `pendingStreams, streams.Values
    {
      if id in active then
        streams == active && pendingStreams == waiting[id := (if id in waiting then waiting[id] else []) + [sri]]
      else
        && streams.Keys == active.Keys + {id} && pendingStreams == waiting
        && streams[id].sri == sri && streams[id].State() == SB.EMPTY
    }

    /** The registered SRI differs from H by the port's comparison. */
    predicate Differs(H: Sri)
      reads `currentHs
    {
      H.streamID in currentHs && compareSri.Some? && !compareSri.value(H, currentHs[H.streamID].sri)
    }

    /** The SRI that goes with a packet of a stream ID. */
    function SriFor(streamID: string): Sri
      reads this
    {
      if streamID in currentHs then currentHs[streamID].sri else DefaultSri(streamID)
    }

    method Register(streamID: string, sri: Sri, changed: bool)
      requires Wired()
      modifies this`currentHs
      ensures Wired()
      ensures forall x :: CellOf(x) == if x == streamID then old(CellOf(x)).(registered := Some(changed))
              else old(CellOf(x))
      ensures currentHs == old(currentHs)[streamID := Registration(sri, changed)]
    {
      currentHs := currentHs[streamID := Registration(sri, changed)];
    }

    method PushSri(H: Sri)
      requires Wired()
      modifies this
      ensures Wired()
      ensures forall x :: x in old(streams) ==> x in streams && streams[x] == old(streams)[x]
      ensures forall x :: x != H.streamID ==> CellOf(x) == old(CellOf(x))
      ensures CellOf(H.streamID) == SriStep(old(CellOf(H.streamID)), old(Differs(H)))
      ensures var opens := H.streamID !in old(currentHs) || AllEnded(old(CellOf(H.streamID)));
              if opens then Created(H.streamID, H, old(streams), old(pendingStreams))
              else streams == old(streams) && pendingStreams == old(pendingStreams)
      ensures currentHs == if H.streamID !in old(currentHs) || (old(Differs(H)) && !AllEnded(old(CellOf(H.streamID))))
                           then old(currentHs)[H.streamID := Registration(H, true)] else old(currentHs)
      ensures H.streamID !in old(currentHs) ==>
                H.streamID in currentHs && currentHs[H.streamID] == Registration(H, true)
      ensures H.streamID in old(currentHs) && old(Sound()) ==>
                && H.streamID in currentHs
                && currentHs[H.streamID]
                   == if compareSri.Some? && !compareSri.value(H, old(currentHs)[H.streamID].sri)
                      then Registration(H, true) else old(currentHs)[H.streamID]
      ensures old(Sound()) ==> Sound()
      ensures packetQueue == old(packetQueue) && blocking == (old(blocking) || H.blocking)
      ensures maxQueue == old(maxQueue) && breakBlock == old(breakBlock)
    {
      hide CellOf, Wired, Sound, Created, AllEnded, SriStep, CellOk, Differs;
      var differs := Differs(H);
      ghost var sound := Sound();
      if sound {
        assert CellOk(CellOf(H.streamID)) by { SoundAt(H.streamID); }
        Announced(H, differs);
        if H.streamID in currentHs { NotEnded(H); }
      }
      if H.blocking {
        blocking := true;
      }
      Announce(H, differs);
      if sound { SoundThroughout(H.streamID); }
    }

    /** A registered stream ID has a stream that has not ended, so what counts is the comparison. */
    lemma NotEnded(H: Sri)
      requires Sound() && H.streamID in currentHs
      ensures !AllEnded(CellOf(H.streamID))
      ensures Differs(H) <==> compareSri.Some? && !compareSri.value(H, currentHs[H.streamID].sri)
    {
      SoundAt(H.streamID);
      NeverAllEnded(CellOf(H.streamID));
    }

    lemma SoundAt(id: string)
      requires Sound()
      ensures CellOk(CellOf(id))
    {
    }

    lemma Announced(H: Sri, differs: bool)
      requires CellOk(CellOf(H.streamID))
      ensures CellOk(SriStep(CellOf(H.streamID), differs))
    {
      LaneSingle(packetQueue, H.streamID);
      StepOk(CellOf(H.streamID), SriPushed(differs), H.streamID);
    }

    /** The registry and stream part of pushSRI. */
    method Announce(H: Sri, differs: bool)
      requires Wired()
      modifies this`currentHs, this`streams, this`pendingStreams
      ensures Wired()
      ensures forall x :: x in old(streams) ==> x in streams && streams[x] == old(streams)[x]
      ensures forall x :: x != H.streamID ==> CellOf(x) == old(CellOf(x))
      ensures CellOf(H.streamID) == SriStep(old(CellOf(H.streamID)), differs)
      ensures var opens := H.streamID !in old(currentHs) || AllEnded(old(CellOf(H.streamID)));
              if opens then Created(H.streamID, H, old(streams), old(pendingStreams))
              else streams == old(streams) && pendingStreams == old(pendingStreams)
      ensures currentHs == if H.streamID !in old(currentHs) || (differs && !AllEnded(old(CellOf(H.streamID))))
                           then old(currentHs)[H.streamID := Registration(H, true)] else old(currentHs)
    {
      hide Created, AllEnded;
      var streamID := H.streamID;
      if streamID !in currentHs {
        Register(streamID, H, true);
        CreateStream(streamID, H);
      } else {
        Renew(H, differs);
      }
    }

    /** pushSRI for a registered stream ID. */
    method Renew(H: Sri, differs: bool)
      requires Wired() && H.streamID in currentHs
      modifies this`currentHs, this`streams, this`pendingStreams
      ensures Wired()
      ensures forall x :: x in old(streams) ==> x in streams && streams[x] == old(streams)[x]
      ensures forall x :: x != H.streamID ==> CellOf(x) == old(CellOf(x))
      ensures CellOf(H.streamID) == SriStep(old(CellOf(H.streamID)), differs)
      ensures if AllEnded(old(CellOf(H.streamID))) then Created(H.streamID, H, old(streams), old(pendingStreams))
              else streams == old(streams) && pendingStreams == old(pendingStreams)
      ensures currentHs == if differs && !AllEnded(old(CellOf(H.streamID)))
                           then old(currentHs)[H.streamID := Registration(H, true)] else old(currentHs)
    {
      var streamID := H.streamID;
      var eosCount := CountEosLoop(packetQueue, streamID);
      var additional := 1 + if streamID in pendingStreams then |pendingStreams[streamID]| else 0;
      assert (additional == eosCount) == AllEnded(CellOf(streamID));
      if additional == eosCount {
        CreateStream(streamID, H);
      } else if differs {
        Register(streamID, H, true);
      }
    }

    /** The registry part of queuePacket: the SRI of the packet and whether it is news. */
    method Accept(streamID: string) returns (sri: Sri, sriChanged: bool)
      requires Wired()
      modifies this`currentHs, this`streams, this`pendingStreams
      ensures Wired()
      ensures forall x :: x in old(streams) ==> x in streams && streams[x] == old(streams)[x]
      ensures sri == old(SriFor(streamID))
      ensures var c := old(CellOf(streamID));
              && sriChanged == (c.registered.None? || c.registered.value)
              && CellOf(streamID) == (if c.registered.None? then AddStream(c) else c).(registered := Some(false))
      ensures forall x :: x != streamID ==> CellOf(x) == old(CellOf(x))
      ensures currentHs == old(currentHs)[streamID := Registration(sri, false)]
      ensures if streamID in old(currentHs) then streams == old(streams) && pendingStreams == old(pendingStreams)
              else Created(streamID, sri, old(streams), old(pendingStreams))
    {
      if streamID in currentHs {
        sri, sriChanged := currentHs[streamID].sri, currentHs[streamID].changed;
        Register(streamID, sri, false);
      } else {
        sri, sriChanged := DefaultSri(streamID), true;
        Register(streamID, sri, false);
        CreateStream(streamID, sri);
      }
    }

    method FlushQueue()
      modifies this`packetQueue
      ensures packetQueue == Collapse(old(packetQueue))
    {
      packetQueue := FlushLoop(packetQueue);
    }

    /** The queue part of queuePacket. */
    method Enqueue(p: Packet)
      requires p.streamID in currentHs && !currentHs[p.streamID].changed && !p.inputQueueFlushed
      modifies this`packetQueue, this`currentHs
      ensures currentHs == old(currentHs)
      ensures packetQueue == QueueAfter(old(packetQueue), p)
    {
      var packet := p;
      if |packetQueue| >= maxQueue {
        FlushQueue();
        var saved, rest := ReplaceLoop(packetQueue, p.streamID);
        if saved.Some? {
          currentHs := currentHs[p.streamID := currentHs[p.streamID].(changed := false)];
          packet := packet.(sriChanged := saved.value.sriChanged, inputQueueFlushed := true);
          packetQueue := rest;
        }
      }
      packetQueue := packetQueue + [packet];
    }

    /** The queue after a push. */
    function QueueAfter(q: seq<Packet>, p: Packet): seq<Packet>
      reads this`maxQueue
    {
      if |q| >= maxQueue then PushFull(q, p) else q + [p]
    }

    function LaneAfter(lane: seq<Packet>, p: Packet, full: bool, own: bool): seq<Packet> {
      if own then Pushed(lane, p, full) else if full then Collapse(lane) else lane
    }

    /** The lanes after a push onto a queue. */
    lemma LanesPushed(q: seq<Packet>, p: Packet, full: bool, x: string)
      ensures Lane(if full then PushFull(q, p) else q + [p], x) ==
              LaneAfter(Lane(q, x), p, full, x == p.streamID)
    {
      LanePushFull(q, p, x);
      LaneSnoc(q, p, x);
    }

    method Deregister(streamID: string)
      requires Wired()
      modifies this`currentHs
      ensures Wired()
      ensures forall x :: CellOf(x) == if x == streamID then old(CellOf(x)).(registered := None) else old(CellOf(x))
      ensures currentHs == old(currentHs) - {streamID}
    {
      currentHs := currentHs - {streamID};
    }

    method EnqueueInLane(p: Packet)
      requires Wired() && p.streamID in currentHs && !currentHs[p.streamID].changed && !p.inputQueueFlushed
      modifies this`packetQueue, this`currentHs
      ensures Wired()
      ensures var full := |old(packetQueue)| >= maxQueue;
              forall x :: CellOf(x) == old(CellOf(x)).(lane := LaneAfter(old(CellOf(x)).lane, p, full, x == p.streamID))
      ensures currentHs == old(currentHs) && packetQueue == QueueAfter(old(packetQueue), p)
    {
      ghost var q := packetQueue;
      Enqueue(p);
      forall x { LanesPushed(q, p, |q| >= maxQueue, x); }
    }

    /** Registration, queue and deregistration for a packet that is let in. */
    method Admit(data: seq<Sample>, T: Time, EOS: bool, streamID: string)
      requires Wired()
      modifies this`packetQueue, this`currentHs, this`streams, this`pendingStreams
      ensures Wired()
      ensures forall x :: x in old(streams) ==> x in streams && streams[x] == old(streams)[x]
      ensures var full := |old(packetQueue)| >= maxQueue;
              var p := Packet(streamID, data, T, EOS, old(SriFor(streamID)), false, false);
              CellOf(streamID) == ArriveStep(old(CellOf(streamID)), p, full) &&
              forall x :: x != streamID ==>
                CellOf(x) == if full then old(CellOf(x)).(lane := Collapse(old(CellOf(x)).lane)) else old(CellOf(x))
      ensures var c := old(CellOf(streamID));
              packetQueue == QueueAfter(old(packetQueue), Packet(streamID, data, T, EOS, old(SriFor(streamID)),
                                                                 c.registered.None? || c.registered.value, false))
      ensures var kept := old(currentHs)[streamID := Registration(old(SriFor(streamID)), false)];
              currentHs == if EOS then kept - {streamID} else kept
      ensures if streamID in old(currentHs) then streams == old(streams) && pendingStreams == old(pendingStreams)
              else Created(streamID, DefaultSri(streamID), old(streams), old(pendingStreams))
    {
      hide Created;
      var sri, sriChanged := Accept(streamID);
      assert streamID in currentHs
             && !currentHs[streamID].changed by { assert CellOf(streamID).registered == Some(false); }
      EnqueueInLane(Packet(streamID, data, T, EOS, sri, sriChanged, false));
      if EOS { Deregister(streamID); }
    }

    /** Pushes a packet. At a blocking port with a full queue the call waits, which is all that
        happens until there is room. */
    method QueuePacket(data: seq<Sample>, T: Time, EOS: bool, streamID: string) returns (waiting: bool)
      requires Wired()
      modifies this`packetQueue, this`currentHs, this`streams, this`pendingStreams
      ensures Wired()
      ensures forall x :: x in old(streams) ==> x in streams && streams[x] == old(streams)[x]
      ensures waiting <==> Queues(data, EOS) && blocking && |old(packetQueue)| >= maxQueue
      ensures waiting || !Queues(data, EOS) ==>
                packetQueue == old(packetQueue) && forall x :: CellOf(x) == old(CellOf(x))
      ensures !waiting && Queues(data, EOS) ==>
                var full := |old(packetQueue)| >= maxQueue;
                var p := Packet(streamID, data, T, EOS, old(SriFor(streamID)), false, false);
                CellOf(streamID) == ArriveStep(old(CellOf(streamID)), p, full) &&
                forall x :: x != streamID ==>
                  CellOf(x) == if full then old(CellOf(x)).(lane := Collapse(old(CellOf(x)).lane)) else old(CellOf(x))
      ensures !waiting && Queues(data, EOS) ==>
                var c := old(CellOf(streamID));
                && packetQueue == QueueAfter(old(packetQueue), Packet(streamID, data, T, EOS, old(SriFor(streamID)),
                                                                      c.registered.None? || c.registered.value, false))
                && var kept := old(currentHs)[streamID := Registration(old(SriFor(streamID)), false)];
                   currentHs == if EOS then kept - {streamID} else kept
      ensures waiting || !Queues(data, EOS) || streamID in old(currentHs) ==>
                streams == old(streams) && pendingStreams == old(pendingStreams)
      ensures !waiting && Queues(data, EOS) && streamID !in old(currentHs) ==>
                Created(streamID, DefaultSri(streamID), old(streams), old(pendingStreams))
      ensures waiting || !Queues(data, EOS) ==> currentHs == old(currentHs)
      ensures waiting <==> maxQueue > 0 && (data != [] || EOS) && blocking && |old(packetQueue)| >= maxQueue
      ensures (data != [] || EOS) && |old(packetQueue)| < maxQueue ==>
                packetQueue == old(packetQueue)
                  + [Packet(streamID, data, T, EOS, if streamID in old(currentHs) then old(currentHs)[streamID].sri
                                                    else Sri(streamID, 1.0, 0, 0, false, 0),
                            streamID in old(currentHs) ==> old(currentHs)[streamID].changed, false)]
      ensures old(Sound()) ==> Sound()
    {
      waiting := false;
      if maxQueue == 0 { return; }
      if |data| == 0 && !EOS { return; }
      if blocking && |packetQueue| >= maxQueue {
        waiting := true;
        return;
      }
      hide CellOf, Wired, Sound, Created, ArriveStep, CellOk, Collapse, QueueAfter, SriFor;
      ghost var sound, full := Sound(), |packetQueue| >= maxQueue;
      if sound { Arrived(Packet(streamID, data, T, EOS, SriFor(streamID), false, false), full); }
      if !full { RoomFor(data, T, EOS, streamID); }
      Admit(data, T, EOS, streamID);
      if sound { SoundThroughout(streamID); }
    }

    /** A packet for which there is room is queued as it is, with the SRI registered for its stream ID
        and whether that is news. */
    lemma RoomFor(data: seq<Sample>, T: Time, EOS: bool, streamID: string)
      requires |packetQueue| < maxQueue
      ensures var c := CellOf(streamID);
              QueueAfter(packetQueue, Packet(streamID, data, T, EOS, SriFor(streamID),
                                             c.registered.None? || c.registered.value, false))
              == packetQueue + [Packet(streamID, data, T, EOS, if streamID in currentHs then currentHs[streamID].sri
                                                               else Sri(streamID, 1.0, 0, 0, false, 0),
                                       streamID in currentHs ==> currentHs[streamID].changed, false)]
    {
    }

    /** An arrival keeps the account of its stream ID and, at a full port, those of all others. */
    lemma Arrived(p: Packet, full: bool)
      requires Sound() && GoodPush(p)
      ensures CellOk(ArriveStep(CellOf(p.streamID), p, full))
      ensures full ==> forall id :: CellOk(CellOf(id).(lane := Collapse(CellOf(id).lane)))
    {
      LaneSingle(packetQueue, p.streamID);
      StepOk(CellOf(p.streamID), Arrive(p, full), p.streamID);
      forall id ensures CellOk(CellOf(id).(lane := Collapse(CellOf(id).lane))) {
        LaneSingle(packetQueue, id);
        StepOk(CellOf(id), Squeeze, id);
      }
    }

    /** The ledger's queue is the port's: it takes a push, or lets it wait or drop, as the port does. */
    lemma LedgerPushes(p: Packet, pushed: seq<Packet>, delivered: seq<Packet>)
      ensures var kept := maxQueue == 0 || (p.buffer == [] && !p.EOS) || (blocking && |packetQueue| >= maxQueue);
              L.QueueStep(L.QueueRun(packetQueue, pushed, delivered), L.Push(p, maxQueue, blocking)).queue
              == if kept then packetQueue else QueueAfter(packetQueue, p)
    {
      hide PushFull;
    }

    /** And it gives up what a fetch takes. */
    lemma LedgerFetches(id: string, pushed: seq<Packet>, delivered: seq<Packet>)
      ensures var packet := Taken(packetQueue, id);
              var r := L.QueueStep(L.QueueRun(packetQueue, pushed, delivered), L.Fetch(id));
              && r.queue == LeftOf(packetQueue, packet) && r.pushed == pushed
              && r.delivered == delivered + if packet.Some? then [packet.value] else []
    {
      hide Lane, Without, Has;
      HasLane(packetQueue, id);
      if id != "" {
        LaneSingle(packetQueue, id);
      } else if packetQueue != [] {
        HasLane(packetQueue, packetQueue[0].streamID);
        TakenFromLane(packetQueue, id);
        FirstInLane(packetQueue);
      }
    }

    predicate Queues(data: seq<Sample>, EOS: bool)
      reads this`maxQueue
    {
      maxQueue > 0 && (data != [] || EOS)
    }

    /** Takes the first packet of a stream ID, or of any when the ID is empty. */
    method FetchPacket(streamID: string) returns (packet: Option<Packet>)
      modifies this`packetQueue
      ensures streamID == "" ==>
                if old(packetQueue) == [] then packet == None && packetQueue == []
                else packet == Some(old(packetQueue)[0]) && packetQueue == old(packetQueue)[1..]
      ensures streamID != "" ==>
                && packetQueue == Without(old(packetQueue), streamID)
                && packet == FirstOf(old(Lane(packetQueue, streamID)))
                && (packet.None? ==> packetQueue == old(packetQueue))
    {
      if |streamID| == 0 {
        if |packetQueue| == 0 { return None; }
        packet := Some(packetQueue[0]);
        packetQueue := packetQueue[1..];
        return;
      }
      packet, packetQueue := FetchLoop(packetQueue, streamID);
    }

    /** Once an end-of-stream is taken, the port stops blocking unless the stream ID is
        registered and some registered SRI asks for blocking. */
    method HandleEos(streamID: string) returns (turnOffBlocking: bool)
      ensures turnOffBlocking <==> NoneBlocks(streamID)
      ensures !turnOffBlocking <==> streamID in currentHs && exists k :: k in currentHs && currentHs[k].sri.blocking
    {
      turnOffBlocking := true;
      if streamID in currentHs {
        var left := currentHs.Keys;
        while left != {}
          invariant left <= currentHs.Keys
          invariant forall k :: k in currentHs && k !in left ==> !currentHs[k].sri.blocking
        {
          var k :| k in left;
          if currentHs[k].sri.blocking {
            turnOffBlocking := false;
            break;
          }
          left := left - {k};
        }
      }
    }

    ghost predicate NoneBlocks(streamID: string)
      reads this`currentHs
    {
      streamID !in currentHs || forall k :: k in currentHs ==> !currentHs[k].sri.blocking
    }

    method FetchFromLane(streamID: string) returns (packet: Option<Packet>)
      requires Wired()
      modifies this`packetQueue
      ensures Wired() && packet == Taken(old(packetQueue), streamID)
      ensures forall x :: CellOf(x) == old(CellOf(x)).(lane := Rest(old(CellOf(x)).lane, Takes(packet, x)))
      ensures packetQueue == LeftOf(old(packetQueue), packet)
    {
      hide LaneOk, CellOk;
      ghost var q := packetQueue;
      packet := FetchPacket(streamID);
      TakenFromLane(q, streamID);
      if packet.Some? {
        forall x { LaneWithout(q, packet.value.streamID, x); }
      }
    }

    method NextPacket(streamID: string) returns (packet: Option<Packet>)
      requires Wired()
      modifies this`packetQueue, this`blocking
      ensures Wired()
      ensures packet == if breakBlock then None else Taken(old(packetQueue), streamID)
      ensures forall x :: CellOf(x) == old(CellOf(x)).(lane := Rest(old(CellOf(x)).lane, Takes(packet, x)))
      ensures packetQueue == LeftOf(old(packetQueue), packet)
      ensures blocking ==
              (old(blocking) && !(packet.Some? && packet.value.EOS && NoneBlocks(packet.value.streamID)))
    {
      if breakBlock { return None; }
      packet := FetchFromLane(streamID);
      if packet.Some? && packet.value.EOS {
        var turnOffBlocking := HandleEos(packet.value.streamID);
        if turnOffBlocking { blocking := false; }
      }
    }

    method RemoveStream(streamID: string)
      requires Wired()
      modifies this`streams, this`pendingStreams, (if streamID in streams then {streams[streamID]} else {})`eosState
      ensures Wired()
      ensures streamID in old(streams) ==> old(streams)[streamID].eosState == EosReported
      ensures CellOf(streamID) == StreamCells.RemoveStream(old(CellOf(streamID)))
      ensures forall x :: x != streamID ==> CellOf(x) == old(CellOf(x))
      ensures Removed(streamID, old(streams), old(pendingStreams))
      ensures streamID in streams ==> fresh(streams[streamID])
    {
      Drop(streamID);
      MoveUp(streamID);
    }

    /** The active stream is closed and leaves. */
    method Drop(streamID: string)
      requires Wired()
      modifies this`streams, (if streamID in streams then {streams[streamID]} else {})`eosState
      ensures Wired() && streams == old(streams) - {streamID}
      ensures streamID in old(streams) ==> old(streams)[streamID].eosState == EosReported
      ensures forall x :: CellOf(x) == if x == streamID then old(CellOf(x)).(active := None) else old(CellOf(x))
    {
      hide Lane;
      if streamID in streams {
        streams[streamID].Close();
        streams := streams - {streamID};
      }
    }

    /** The first stream that waits for the ID becomes active. */
    method MoveUp(streamID: string)
      requires Wired() && streamID !in streams
      modifies this`streams, this`pendingStreams
      ensures Wired()
      ensures CellOf(streamID) == StreamCells.RemoveStream(old(CellOf(streamID)))
      ensures forall x :: x != streamID ==> CellOf(x) == old(CellOf(x))
      ensures Removed(streamID, old(streams), old(pendingStreams))
      ensures streamID in streams ==> fresh(streams[streamID])
    {
      hide Lane;
      if streamID in pendingStreams {
        var next := pendingStreams[streamID];
        var stream := new BufferedInputStream(streamID, next[0], this);
        streams := streams[streamID := stream];
        pendingStreams := if |next| == 1 then pendingStreams - {streamID} else pendingStreams[streamID := next[1..]];
      }
    }

    /** The active stream of this ID is gone, and the first one that waited behind it, if any, is
        active in its place, holding nothing. */
    ghost predicate Removed(id: string, active: map<string, BufferedInputStream>, waiting: map<string, seq<Sri>>)
      requires id in waiting ==> waiting[id] != []
      reads `streams, `pendingStreams, streams.Values
    {
      && (forall x :: x != id ==> (x in streams <==> x in active) && (x in streams ==> streams[x] == active[x]))
      && if id in waiting then
           && id in streams && streams[id].sri == waiting[id][0] && streams[id].State() == SB.EMPTY
           && pendingStreams == if |waiting[id]| == 1 then waiting - {id} else waiting[id := waiting[id][1..]]
         else
           id !in streams && pendingStreams == waiting
    }

    method SamplesAvailable(streamID: string, firstPacket: bool) returns (samples: nat)
      ensures var ps := Unbroken(Lane(packetQueue, streamID), firstPacket);
              samples == Total(ps) / (if AnyComplex(ps) then 2 else 1)
    {
      samples := SamplesAvailableLoop(packetQueue, streamID, firstPacket);
    }
  }

  function Rest(lane: seq<Packet>, taken: bool): seq<Packet> {
    if taken && lane != [] then lane[1..] else lane
  }

  function FirstOf(lane: seq<Packet>): Option<Packet> {
    if lane == [] then None else Some(lane[0])
  }

  /** What a fetch for a stream ID takes: its first packet, or for the empty ID the first of all. */
  function Taken(q: seq<Packet>, id: string): Option<Packet> { if id == "" then FirstOf(q) else FirstOf(Lane(q, id)) }

  predicate Takes(packet: Option<Packet>, id: string) { packet.Some? && packet.value.streamID == id }

  /** The queue without the packet taken, which is the first of its own stream ID. */
  function LeftOf(q: seq<Packet>, packet: Option<Packet>): seq<Packet> {
    if packet.Some? then Without(q, packet.value.streamID) else q
  }

  lemma TakenFromLane(q: seq<Packet>, id: string)
    ensures Taken(q, id).Some? ==>
              && FirstOf(Lane(q, Taken(q, id).value.streamID)) == Taken(q, id)
              && LeftOf(q, Taken(q, id)) == if id == "" then q[1..] else Without(q, id)
  {
    if id != "" {
      LaneSingle(q, id);
    } else if q != [] {
      assert q == [q[0]] + q[1..];
      LaneCons(q[0], q[1..], q[0].streamID);
    }
  }

  lemma FirstInLane(q: seq<Packet>)
    requires q != []
    ensures Lane(q, q[0].streamID) != [] && Lane(q, q[0].streamID)[0] == q[0]
  {
  }

  /** A fetch takes another stream's packet exactly when it is for the empty ID and the queue's
      first packet has one. */
  lemma EmptyIdTakesAny(q: seq<Packet>, id: string)
    ensures Taken(q, id).Some? && Taken(q, id).value.streamID != id <==> id == "" && q != [] && q[0].streamID != ""
  {
    LaneSingle(q, id);
  }

  class BufferedInputStream {
    const streamID: string
    const port: InPort
    var sri: Sri
    var newstream: bool
    var queue: seq<Packet>
    var pending: Option<Packet>
    var samplesQueued: int
    var sampleOffset: nat
    var eosState: EosState

    constructor (streamID: string, sri: Sri, port: InPort)
      ensures this.streamID == streamID && this.port == port && this.sri == sri && newstream
      ensures State() == SB.EMPTY
    {
      this.streamID, this.port, this.sri, newstream := streamID, port, sri, true;
      queue, pending, samplesQueued, sampleOffset, eosState := [], None, 0, 0, EosNone;
    }

    /** The port considers the end reported. */
    method Close()
      modifies this`eosState
      ensures eosState == EosReported
    {
      eosState := EosReported;
    }

    ghost function State(): SB.Buffer
      reads this
    {
      SB.Buffer(queue, pending, samplesQueued, sampleOffset, eosState)
    }

    // ---------- what the stream means ----------

    ghost function MyLane(): seq<Packet>
      reads port
    {
      Lane(port.packetQueue, streamID)
    }

    /** The port knows this stream as the active one until its end is reported. */
    ghost predicate Attached()
      reads this, port
    {
      eosState != EosReported ==> streamID in port.streams && port.streams[streamID] == this
    }

    /** The invariant of a stream at its port; stated as an equation so that the verifier takes
        it as one fact. */
    ghost predicate Good()
      reads this, port, port.streams.Values
    {
      (streamID != "" && port.Wired() && Attached() && CellOk(port.CellOf(streamID)) && SB.Rep(State())) == true
    }

    /** The segments still to be read. */
    ghost function Segs(): seq<seq<Sample>>
      reads this, port, port.streams.Values
      requires Good()
    {
      SB.Segs(State(), MyLane())
    }

    ghost predicate Closed()
      reads this, port
    {
      SB.Closed(State(), MyLane())
    }

    /** A stream that has just been opened, or has just moved up behind one that ended, is ready:
        what there is to read of it is what the port holds for its ID. */
    lemma Opened()
      requires streamID != "" && State() == SB.EMPTY
      requires port.Sound() && streamID in port.streams && port.streams[streamID] == this
      ensures Good() && Segs() == SB.Segs(SB.EMPTY, MyLane())
      ensures MyLane() == [] ==> Segs() == [] && !Closed()
    {
      SB.EmptyRep();
      port.SoundAt(streamID);
    }

    // ---------- fetching ----------

    /** InputStream::Impl::_fetchPacket. */
    method BaseFetchPacket() returns (packet: Option<Packet>)
      requires Good() && pending.None?
      modifies this`eosState, port`packetQueue, port`blocking
      ensures port.Wired() && Attached() && CellOk(port.CellOf(streamID))
      ensures forall x :: x != streamID ==> port.CellOf(x) == old(port.CellOf(x))
      ensures packet == if old(eosState) != EosNone || port.breakBlock then None else FirstOf(old(MyLane()))
      ensures eosState == if packet.Some? && packet.value.EOS then EosReceived else old(eosState)
      ensures MyLane() == Rest(old(MyLane()), packet.Some?)
    {
      hide SB.Rep;
      if eosState != EosNone { return None; }
      ghost var c := port.CellOf(streamID);
      LaneSingle(port.packetQueue, streamID);
      StepOk(c, Take, streamID);
      packet := port.NextPacket(streamID);
      if packet.Some? && packet.value.EOS {
        eosState := EosReceived;
      }
      assert port.CellOf(streamID) == if packet.Some? then Step(c, Take) else c;
    }

    method QueuePacket(packet: Packet) returns (queued: bool)
      modifies this`queue, this`samplesQueued, this`eosState
      ensures State() == SB.Queued(old(State()), packet)
      ensures queued <==> !(packet.EOS && packet.buffer == [])
    {
      if packet.EOS && |packet.buffer| == 0 {
        if |queue| == 0 {
          eosState := EosReached;
        } else {
          var last := |queue| - 1;
          queue := queue[last := queue[last].(EOS := true)];
        }
        return false;
      } else {
        samplesQueued := samplesQueued + |packet.buffer|;
        queue := queue + [packet];
        return true;
      }
    }

    /** A packet that was fetched goes to the queue or is set aside. */
    method Place(packet: Packet) returns (queued: bool)
      modifies this`queue, this`samplesQueued, this`eosState, this`pending
      ensures State() == SB.Placed(old(State()), packet)
      ensures queued <==> (old(queue) == [] || packet.Bridges()) && !(packet.EOS && packet.buffer == [])
    {
      if |queue| == 0 || CanBridge(packet) {
        queued := QueuePacket(packet);
      } else {
        pending := Some(packet);
        queued := false;
      }
    }

    /** The end-of-stream state moves on, and the port's books stay in order. */
    lemma StateMoved(before: Cell)
      requires streamID != "" && port.Wired() && Attached() && eosState != EosReported
      requires CellOk(before) && SingleLane(before.lane, streamID)
      requires before.(active := Some(eosState)) == port.CellOf(streamID)
      requires before.active == Some(eosState) || (before.active == Some(EosReceived) && eosState == EosReached)
      ensures CellOk(port.CellOf(streamID))
    {
      StepOk(before, Reach, streamID);
    }

    method PlaceAttached(packet: Packet) returns (queued: bool)
      requires streamID != "" && port.Wired() && Attached() && CellOk(port.CellOf(streamID))
      requires eosState == (if packet.EOS then EosReceived else EosNone) && (packet.EOS || packet.buffer != [])
      modifies this`queue, this`samplesQueued, this`eosState, this`pending
      ensures Attached() && CellOk(port.CellOf(streamID))
      ensures forall x :: x != streamID ==> port.CellOf(x) == old(port.CellOf(x))
      ensures State() == SB.Placed(old(State()), packet)
      ensures queued <==> (old(queue) == [] || packet.Bridges()) && packet.buffer != []
    {
      ghost var c := port.CellOf(streamID);
      LaneSingle(port.packetQueue, streamID);
      queued := Place(packet);
      StateMoved(c);
    }

    method PullPacket() returns (packet: Option<Packet>, queued: bool)
      requires Good() && pending.None?
      modifies this`queue, this`samplesQueued, this`eosState, this`pending, port`packetQueue, port`blocking
      ensures port.Wired() && Attached() && CellOk(port.CellOf(streamID))
      ensures forall x :: x != streamID ==> port.CellOf(x) == old(port.CellOf(x))
      ensures packet == if old(eosState) != EosNone || port.breakBlock then None else FirstOf(old(MyLane()))
      ensures MyLane() == Rest(old(MyLane()), packet.Some?)
      ensures if packet.None? then State() == old(State()) && !queued
              else State() == SB.Fetched(old(State()), packet.value) &&
                   (queued <==> (old(queue) == [] || packet.value.Bridges()) && packet.value.buffer != [])
    {
      assert LaneOk(MyLane()) by { assert LaneOk(port.CellOf(streamID).lane); }
      packet := BaseFetchPacket();
      queued := false;
      if packet.Some? {
        queued := PlaceAttached(packet.value);
      }
    }

    /** BufferedInputStream::Impl::_fetchPacket: to the reader, nothing has changed; a failure
        means that the current segment is held completely, unless the port is stopped. */
    method FetchPacket() returns (fetched: bool)
      requires Good()
      modifies this`queue, this`samplesQueued, this`eosState, this`pending, port`packetQueue, port`blocking
      ensures Good() && Rank(old(eosState)) <= Rank(eosState)
      ensures forall x :: x != streamID ==> port.CellOf(x) == old(port.CellOf(x))
      ensures Segs() == old(Segs()) && Closed() == old(Closed())
      ensures ToCome() == old(ToCome())
      ensures if fetched then samplesQueued > old(samplesQueued) && |MyLane()| < |old(MyLane())|
              else samplesQueued == old(samplesQueued)
      ensures !fetched && !port.breakBlock ==> pending.Some? || eosState != EosNone || MyLane() == []
      ensures port.breakBlock ==> !fetched && State() == old(State()) && MyLane() == old(MyLane())
      ensures SB.SameFront(old(queue), queue)
      ensures fetched && old(queue) == [] ==> queue == [old(MyLane())[0]] && old(eosState) == EosNone
    {
      if pending.Some? { return false; }
      ghost var b, lane := State(), MyLane();
      var packet;
      packet, fetched := PullPacket();
      if packet.Some? {
        SB.FetchedView(b, lane);
        SB.FetchedMore(b, lane[0]);
        Cursors.FetchedComing(b, lane);
      }
    }

    /** The packets still to come, and how far the cursor is in the first. */
    ghost function ToCome(): Cursors.Cursor
      reads this, port
    {
      Cursors.CursorOf(State(), MyLane())
    }

    predicate CanBridge(packet: Packet) {
      !(packet.sriChanged || packet.inputQueueFlushed)
    }

    /** What a reader can get of the current segment, and whether that is all there will be. */
    ghost function Visible(): seq<Sample>
      reads this, port, port.streams.Values
      requires Good()
    {
      SB.Visible(State(), MyLane(), port.breakBlock)
    }

    ghost predicate Ended()
      reads this, port, port.streams.Values
      requires Good()
    {
      SB.Ended(State(), MyLane(), port.breakBlock)
    }

    /** What a reader can get, in the port's packets: of those held, set aside and queued for the
        stream ID, in this order, the payloads up to the first one behind the front that has payload and
        is marked with an SRI change or a flush, or up to an end-of-stream. */
    lemma VisiblePackets() returns (n: nat)
      requires Good() && !port.breakBlock
      ensures var ps := queue + (if pending.Some? then [pending.value] else [])
                        + (if eosState == EosNone then MyLane() else []);
              && n <= |ps| && sampleOffset <= |SB.Flat(ps[..n])| && Visible() == SB.Flat(ps[..n])[sampleOffset..]
              && (forall i :: 0 < i < n && ps[i].buffer != [] ==> !ps[i].sriChanged && !ps[i].inputQueueFlushed)
              && (forall i :: 0 <= i < n - 1 ==> !ps[i].EOS)
              && (n < |ps| ==> n > 0 && (ps[n - 1].EOS
                                         || (ps[n].buffer != [] && (ps[n].sriChanged || ps[n].inputQueueFlushed))))
              && (Ended() ==
                  (n < |ps| || (n > 0 && ps[n - 1].EOS) || eosState == EosReached || eosState == EosReported))
    {
      HeldOk();
      hide Good, MyLane, LaneOk, SB.Rep, SB.Flat, SB.Visible, SB.Ended;
      n := SB.VisibleIs(State(), MyLane());
    }

    /** The packets to come, in the port's packets. */
    lemma ToComeIs() returns (m: nat, at: seq<nat>)
      requires Good()
      ensures var ps := queue + (if pending.Some? then [pending.value] else [])
                        + (if eosState == EosNone then MyLane() else []);
              var coming := ToCome().packets;
              && m <= |ps| && (forall i :: 0 <= i < m - 1 ==> !ps[i].EOS) && (m < |ps| ==> m > 0 && ps[m - 1].EOS)
              && |at| == |coming| && (forall k, l :: 0 <= k < l < |at| ==> at[k] < at[l])
              && (forall k :: 0 <= k < |at| ==> at[k] < m && coming[k] == ps[at[k]].(EOS := false))
              && (forall i :: 0 <= i < m ==> (ps[i].buffer != [] <==> i in at))
    {
      HeldOk();
      hide Good, MyLane, LaneOk, SB.Rep;
      m, at := Cursors.ComingIs(State(), MyLane());
    }

    lemma HeldOk()
      requires Good()
      ensures SB.Rep(State()) && LaneOk(MyLane())
    {
      assert LaneOk(port.CellOf(streamID).lane);
    }

    method FetchLoop(requested: nat)
      requires Good()
      modifies this`queue, this`samplesQueued, this`eosState, this`pending, port`packetQueue, port`blocking
      ensures Good() && Rank(old(eosState)) <= Rank(eosState)
      ensures forall x :: x != streamID ==> port.CellOf(x) == old(port.CellOf(x))
      ensures Segs() == old(Segs()) && Closed() == old(Closed())
      ensures ToCome() == old(ToCome())
      ensures port.breakBlock ==> State() == old(State()) && MyLane() == old(MyLane())
      ensures SB.SameFront(old(queue), queue) && samplesQueued >= old(samplesQueued)
      ensures samplesQueued < requested ==> port.breakBlock || pending.Some? || eosState != EosNone || MyLane() == []
    {
      hide Good, Closed, Segs, ToCome;
      while samplesQueued < requested
        invariant Good() && Rank(old(eosState)) <= Rank(eosState)
        invariant forall x :: x != streamID ==> port.CellOf(x) == old(port.CellOf(x))
        invariant Segs() == old(Segs()) && Closed() == old(Closed()) && ToCome() == old(ToCome())
        invariant port.breakBlock ==> State() == old(State()) && MyLane() == old(MyLane())
        invariant SB.SameFront(old(queue), queue) && samplesQueued >= old(samplesQueued)
        decreases |MyLane()|
      {
        var fetched := FetchPacket();
        if !fetched { break; }
      }
    }

    /** Fetches until enough samples are held or no more can be had. */
    method FetchUntil(requested: nat)
      requires Good()
      modifies this`queue, this`samplesQueued, this`eosState, this`pending, port`packetQueue, port`blocking
      ensures Good() && Rank(old(eosState)) <= Rank(eosState)
      ensures forall x :: x != streamID ==> port.CellOf(x) == old(port.CellOf(x))
      ensures Segs() == old(Segs()) && Closed() == old(Closed())
      ensures ToCome() == old(ToCome())
      ensures Visible() == old(Visible()) && Ended() == old(Ended())
      ensures SB.SameFront(old(queue), queue) && samplesQueued >= old(samplesQueued)
      ensures samplesQueued < requested ==>
                samplesQueued == |Visible()| && (Ended() <==> pending.Some? || eosState != EosNone)
      ensures samplesQueued <= |Visible()|
      ensures queue != [] ==> 0 < samplesQueued == |SB.Ready(State())| && SB.Ready(State()) <= Visible()
    {
      FetchLoop(requested);
      SB.HeldIsVisible(State(), MyLane(), port.breakBlock);
    }

    // ---------- passing samples ----------

    method ConsumePacket()
      requires queue != []
      modifies this`queue, this`samplesQueued, this`eosState, this`pending
      ensures var b := old(State());
              var c := b.(queue := b.queue[1..], eos := if b.queue[0].EOS then EosReached else b.eos);
              State() == if c.queue == [] && c.pending.Some? then SB.Queued(c.(pending := None), c.pending.value) else c
    {
      if queue[0].EOS {
        eosState := EosReached;
      }
      queue := queue[1..];
      if |queue| == 0 && pending.Some? {
        var packet := pending.value;
        pending := None;
        var _ := QueuePacket(packet);
      }
    }

    /** One round of _consumeData. */
    method ConsumeRound(count: nat) returns (pass: nat)
      requires Good() && 0 < count <= samplesQueued
      modifies this`queue, this`samplesQueued, this`eosState, this`pending, this`sampleOffset
      ensures Good() && Rank(old(eosState)) <= Rank(eosState)
      ensures forall x :: x != streamID ==> port.CellOf(x) == old(port.CellOf(x))
      ensures 0 < pass <= count && (pass < count ==> samplesQueued == old(samplesQueued) - pass)
      ensures Segs() == AdvanceBy(old(Segs()), pass) && Closed() == old(Closed())
      ensures ToCome() == Cursors.Past(old(ToCome()), pass)
    {
      hide AdvanceBy, LaneOk;
      ghost var b, c := State(), port.CellOf(streamID);
      LaneSingle(port.packetQueue, streamID);
      assert queue != [];
      var available := |queue[0].buffer| - sampleOffset;
      pass := Min(available, count);
      SB.ConsumedView(b, pass, MyLane());
      Cursors.ConsumedComing(b, pass, MyLane());
      PassInFront(pass);
      StateMoved(c);
    }

    method PassInFront(pass: nat)
      requires queue != [] && sampleOffset + pass <= |queue[0].buffer|
      modifies this`queue, this`samplesQueued, this`eosState, this`pending, this`sampleOffset
      ensures State() == SB.Consumed(old(State()), pass)
    {
      var size := |queue[0].buffer|;
      sampleOffset := sampleOffset + pass;
      samplesQueued := samplesQueued - pass;
      if sampleOffset >= size {
        ConsumePacket();
        sampleOffset := 0;
      }
    }

    lemma HeldWithin()
      requires Good()
      ensures SB.Rep(State())
      ensures samplesQueued > 0 ==> Segs() != [] && samplesQueued <= |Segs()[0]|
    {
      SB.HeldIsVisible(State(), MyLane(), false);
    }

    /** The cursor is inside the first packet to come. */
    lemma InFront()
      requires Good()
      ensures Cursors.Past(ToCome(), 0) == ToCome()
    {
      if queue != [] {
        Cursors.HeldFirst(State(), MyLane());
      } else {
        Cursors.FullHasPayload(SB.Behind(State(), MyLane()));
        assert [] + Cursors.Full(SB.Behind(State(), MyLane())) == Cursors.Full(SB.Behind(State(), MyLane()));
      }
    }

    method ConsumeData(count: nat)
      requires Good() && count <= samplesQueued
      modifies this`queue, this`samplesQueued, this`eosState, this`pending, this`sampleOffset
      ensures Good() && Rank(old(eosState)) <= Rank(eosState)
      ensures forall x :: x != streamID ==> port.CellOf(x) == old(port.CellOf(x))
      ensures Closed() == old(Closed())
      ensures Segs() == AdvanceBy(old(Segs()), count) && ToCome() == Cursors.Past(old(ToCome()), count)
    {
      hide Good, Closed, Segs, MyLane, ToCome, Cursors.Past;
      ghost var segs, ahead := Segs(), ToCome();
      InFront();
      HeldWithin();
      var left := count;
      while left > 0
        invariant Good() && Rank(old(eosState)) <= Rank(eosState)
        invariant forall x :: x != streamID ==> port.CellOf(x) == old(port.CellOf(x))
        invariant 0 <= left <= count && (left > 0 ==> left <= samplesQueued)
        invariant Closed() == old(Closed()) && Segs() == AdvanceBy(segs, count - left)
        invariant ToCome() == Cursors.Past(ahead, count - left)
      {
        ghost var done := count - left;
        var pass := ConsumeRound(left);
        AdvanceTwice(segs, done, pass);
        Cursors.PastTwice(ahead, done, pass);
        left := left - pass;
      }
    }

    /** _nextSRI: makes sure that a packet is held, if one can be had. */
    method NextSri() returns (found: bool)
      requires Good()
      modifies this`queue, this`samplesQueued, this`eosState, this`pending, port`packetQueue, port`blocking
      ensures Good() && Rank(old(eosState)) <= Rank(eosState)
      ensures forall x :: x != streamID ==> port.CellOf(x) == old(port.CellOf(x))
      ensures Segs() == old(Segs()) && Closed() == old(Closed())
      ensures ToCome() == old(ToCome())
      ensures Visible() == old(Visible()) && Ended() == old(Ended())
      ensures found <==> queue != []
      ensures found <==> Visible() != []
      ensures found ==> queue[0].SRI.ItemSize() == old(SB.Item(State(), MyLane()))
      ensures SB.SameFront(old(queue), queue)
      ensures found && old(queue) == [] ==> old(MyLane()) != [] && queue == [old(MyLane())[0]]
    {
      found := true;
      if |queue| == 0 {
        found := FetchPacket();
      }
      SB.HeldIsVisible(State(), MyLane(), port.breakBlock);
    }

    method Skip(count: nat) returns (skipped: nat)
      requires Good()
      modifies this`queue, this`samplesQueued, this`eosState, this`pending, this`sampleOffset, port`packetQueue,
               port`blocking
      ensures Good() && Rank(old(eosState)) <= Rank(eosState)
      ensures forall x :: x != streamID ==> port.CellOf(x) == old(port.CellOf(x))
      ensures Closed() == old(Closed())
      ensures var n := SkipOutcome(old(Visible()), old(SB.Item(State(), MyLane())), count);
              Segs() == AdvanceBy(old(Segs()), n) && ToCome() == Cursors.Past(old(ToCome()), n)
              && skipped == if old(SB.Item(State(), MyLane())) == 2 then n / 2 else n
      ensures skipped == Min(count, |old(Visible())| / old(SB.Item(State(), MyLane())))
      ensures old(port.Sound()) ==> port.Sound()
    {
      hide Good, Segs, Closed, Visible, Ended, MyLane, ToCome, Cursors.Past, InPort.CellOf, InPort.Sound;
      InFront();
      skipped := 0;
      var found := NextSri();
      if found {
        var itemSize := queue[0].SRI.ItemSize();
        var scalars := count * itemSize;
        FetchUntil(scalars);
        scalars := Min(scalars, samplesQueued);
        ConsumeData(scalars);
        skipped := scalars / itemSize;
      }
      if old(port.Sound()) { StillSound(); }
    }

    method Report()
      requires Good() && eosState == EosReached
      modifies this`eosState, port`streams, port`pendingStreams
      ensures port.Wired() && CellOk(port.CellOf(streamID))
      ensures forall x :: x != streamID ==> port.CellOf(x) == old(port.CellOf(x))
      ensures State() == old(State()).(eos := EosReported)
      ensures port.Removed(streamID, old(port.streams), old(port.pendingStreams))
    {
      LaneSingle(port.packetQueue, streamID);
      StepOk(port.CellOf(streamID), StreamCells.Report, streamID);
      port.RemoveStream(streamID);
    }

    /** The port has the streams it had, but for this one if its end has been reported since. */
    ghost predicate Leaves(eos: EosState, active: map<string, BufferedInputStream>, waiting: map<string, seq<Sri>>)
      requires streamID in waiting ==> waiting[streamID] != []
      reads this, port, port.streams.Values
    {
      if eos != EosReported && eosState == EosReported then port.Removed(streamID, active, waiting)
      else port.streams == active && port.pendingStreams == waiting
    }

    /** A stream that its port still knows has not been reported as ended. */
    twostate lemma NotReported()
      requires old(Good()) && Good() && port.streams == old(port.streams)
      ensures old(eosState) != EosReported ==> eosState != EosReported
    {
    }

    /** The accounts of all stream IDs are in order if those of the others are the same. */
    twostate lemma StillSound()
      requires old(port.Sound()) && Good()
      requires forall x :: x != streamID ==> port.CellOf(x) == old(port.CellOf(x))
      ensures port.Sound()
    {
      port.SoundThroughout(streamID);
    }

    /** A stream whose end has been reported gives way to the first one waiting behind it, which is
        ready to read what the port holds for the ID. */
    twostate lemma MovedUp()
      requires old(Good()) && port.Sound() && streamID in old(port.pendingStreams)
      requires old(eosState) != EosReported && eosState == EosReported
      requires Leaves(old(eosState), old(port.streams), old(port.pendingStreams))
      ensures streamID in port.streams && port.streams[streamID].sri == old(port.pendingStreams)[streamID][0]
      ensures var next := port.streams[streamID]; next.Good() && next.Segs() == SB.Segs(SB.EMPTY, MyLane())
      ensures var waiting := old(port.pendingStreams)[streamID];
              if |waiting| == 1 then streamID !in port.pendingStreams
              else streamID in port.pendingStreams && port.pendingStreams[streamID] == waiting[1..]
    {
      port.streams[streamID].Opened();
    }

    /** Once the end has been reached, tells the port, which then forgets the stream. */
    method ReportIfEosReached()
      requires Good()
      modifies this`eosState, port`streams, port`pendingStreams
      ensures Good() && Rank(old(eosState)) <= Rank(eosState)
      ensures forall x :: x != streamID ==> port.CellOf(x) == old(port.CellOf(x))
      ensures Segs() == old(Segs()) && Closed() == old(Closed())
      ensures ToCome() == old(ToCome())
      ensures eosState == if old(eosState) == EosReached then EosReported else old(eosState)
      ensures Leaves(old(eosState), old(port.streams), old(port.pendingStreams))
    {
      if eosState == EosReached {
        ghost var b := State();
        SB.ReportedView(b, MyLane(), MyLane());
        Cursors.ReportedComing(b, MyLane());
        Report();
      }
    }

    // ---------- reading ----------

    /** The block itself: flags, payload and timestamps; the front packet's flags are used up. */
    method MakeBlock(count: nat) returns (data: DataBlock)
      requires SB.Rep(State()) && queue != [] && count <= samplesQueued
      modifies this`queue, this`sri, this`newstream
      ensures State() == SB.Acknowledged(old(State()))
      ensures fresh(data) && data.Says() == Assembly.BlockOf(old(State()), old(newstream), old(sri), count)
      ensures !newstream && sri == if old(queue)[0].sriChanged then data.sri else old(sri)
    {
      hide SB.Rep, SB.Flat, Stamps, Assembly.BlockPieces;
      ghost var b := State();
      var front := queue[0];
      data := new DataBlock(front.SRI);
      SetBlockFlags(data, front);
      if front.sriChanged {
        sri := front.SRI;
      }
      queue := queue[0 := front.(sriChanged := false, inputQueueFlushed := false)];
      ReadyToFill(b, count);
      Assembly.Fill(data, queue, sampleOffset, count);
    }

    lemma ReadyToFill(b: SB.Buffer, count: nat)
      requires SB.Rep(b) && b.queue != [] && count <= b.samplesQueued
      ensures var q := SB.Acknowledged(b).queue;
              && b.offset < |q[0].buffer| && b.offset + count <= |SB.Flat(q)|
              && (forall i :: 0 <= i < |q| ==> q[i].buffer != [])
              && SB.Flat(q)[b.offset..b.offset + count] == SB.Ready(b)[..count]
              && Assembly.BlockPieces(q, b.offset, count) == Assembly.BlockPieces(b.queue, b.offset, count)
    {
      SB.AcknowledgedView(b, []);
      Assembly.AcknowledgedPieces(b, b.offset, count);
    }

    method SetBlockFlags(block: DataBlock, packet: Packet)
      requires !block.sriChanged && !block.inputQueueFlushed
      modifies block`sriChanged, block`inputQueueFlushed, this`newstream
      ensures block.inputQueueFlushed == packet.inputQueueFlushed && !newstream
      ensures block.sriChanged <==> old(newstream) || (packet.sriChanged && sri != packet.SRI)
    {
      if packet.sriChanged {
        block.sriChanged := sri != packet.SRI;
      }
      if newstream {
        newstream := false;
        block.sriChanged := true;
      }
      if packet.inputQueueFlushed {
        block.inputQueueFlushed := true;
      }
    }

    /** A block is made; to the reader nothing has changed. */
    method TakeBlock(count: nat) returns (data: DataBlock)
      requires Good() && queue != [] && count <= samplesQueued
      modifies this`queue, this`sri, this`newstream
      ensures Good() && Rank(old(eosState)) <= Rank(eosState)
      ensures forall x :: x != streamID ==> port.CellOf(x) == old(port.CellOf(x))
      ensures Segs() == old(Segs()) && Closed() == old(Closed())
      ensures ToCome() == Cursors.Told(old(ToCome()))
      ensures Visible() == old(Visible()) && SB.Item(State(), MyLane()) == old(SB.Item(State(), MyLane()))
      ensures fresh(data) && data.Says() == Assembly.BlockOf(old(State()), old(newstream), old(sri), count)
      ensures data.sri == old(queue)[0].SRI && data.buffer == old(SB.Ready(State()))[..count]
      ensures data.inputQueueFlushed == old(queue)[0].inputQueueFlushed
      ensures data.sriChanged <==> old(newstream) || (old(queue)[0].sriChanged && old(sri) != old(queue)[0].SRI)
      ensures samplesQueued == old(samplesQueued) && samplesQueued <= |Visible()|
    {
      SB.AcknowledgedView(State(), MyLane());
      SB.HeldIsVisible(State(), MyLane(), port.breakBlock);
      Cursors.AcknowledgedComing(State(), MyLane());
      data := MakeBlock(count);
      assert MyLane() == old(MyLane());
    }

    /** _readData: a block of `count` scalars; `consume` scalars, in whole samples, are passed. */
    method ReadData(count: nat, consume: nat) returns (data: DataBlock)
      requires Good() && queue != [] && count <= samplesQueued && consume <= samplesQueued
      modifies this, port`packetQueue, port`blocking
      ensures Good() && Rank(old(eosState)) <= Rank(eosState)
      ensures forall x :: x != streamID ==> port.CellOf(x) == old(port.CellOf(x))
      ensures fresh(data) && data.Says() == Assembly.BlockOf(old(State()), old(newstream), old(sri), count)
      ensures data.sri == old(queue)[0].SRI && data.buffer == old(SB.Ready(State()))[..count]
      ensures data.inputQueueFlushed == old(queue)[0].inputQueueFlushed
      ensures data.sriChanged <==> old(newstream) || (old(queue)[0].sriChanged && old(sri) != old(queue)[0].SRI)
      ensures Closed() == old(Closed())
      ensures var n := WholeSamples(consume, old(queue)[0].SRI.ItemSize());
              && Segs() == AdvanceBy(old(Segs()), n)
              && ToCome() == Cursors.Past(Cursors.Told(old(ToCome())), n)
    {
      hide Good, Segs, Closed, Visible, MyLane, ToCome, Cursors.Past, Cursors.Told, AdvanceBy, Assembly.BlockOf,
           InPort.Sound, InPort.CellOf;
      data := TakeBlock(count);
      var samples := if data.sri.mode != 0 then consume / 2 else consume;
      var _ := Skip(samples);
    }

    /** read and tryread with a sample count: the plain segment reader on what is visible. The
        ghost results are what the stream held, and what its handle showed, when it cut the block. */
    method Read(count: nat, consume: nat, blocking: bool)
      returns (block: DataBlock?, ghost held: SB.Buffer, ghost newstream: bool, ghost sri: Sri)
      requires Good()
      modifies this, port`packetQueue, port`blocking, port`streams, port`pendingStreams
      ensures Good() && Rank(old(eosState)) <= Rank(eosState)
      ensures forall x :: x != streamID ==> port.CellOf(x) == old(port.CellOf(x))
      ensures var o := ReadOutcome(old(Visible()), old(Ended()), old(SB.Item(State(), MyLane())), count, consume,
                                   blocking);
              && Segs() == AdvanceBy(old(Segs()), o.passed)
              && ToCome() == (if block == null then old(ToCome())
                              else Cursors.Past(Cursors.Told(old(ToCome())), o.passed))
              && (block == null <==> o.block.None?)
              && (block != null ==> block.buffer == o.block.value)
      ensures Closed() == old(Closed())
      ensures block != null ==> fresh(block) && Assembly.Cut(block.Says(), held, newstream, sri)
      ensures block != null ==> old(queue) != [] || old(MyLane()) != []
      ensures block != null ==>
                var first := if old(queue) != [] then old(queue)[0] else old(MyLane())[0];
                block.sri == first.SRI && block.inputQueueFlushed == first.inputQueueFlushed
                && (block.sriChanged <==> old(this.newstream) || (first.sriChanged && old(this.sri) != first.SRI))
      ensures Leaves(old(eosState), old(port.streams), old(port.pendingStreams))
      ensures old(port.Sound()) ==> port.Sound()
    {
      hide Good, Segs, Closed, Visible, Ended, MyLane, ToCome, Cursors.Past, Cursors.Told, AdvanceBy, Assembly.Cut,
           InPort.CellOf, InPort.Sound, InPort.Removed;
      var found := NextSri();
      if !found {
        NotReported();
        ReportIfEosReached();
        AdvanceNone(Segs());
        block, held, newstream, sri := null, State(), this.newstream, this.sri;
      } else {
        block, held, newstream, sri := ReadOn(count, consume, blocking);
        NotReported();
      }
      if old(port.Sound()) { StillSound(); }
    }

    /** read once there is a packet in front. */
    method ReadOn(count: nat, consume: nat, blocking: bool)
      returns (block: DataBlock?, ghost held: SB.Buffer, ghost newstream: bool, ghost sri: Sri)
      requires Good() && queue != []
      modifies this, port`packetQueue, port`blocking
      ensures Good() && Rank(old(eosState)) <= Rank(eosState)
      ensures forall x :: x != streamID ==> port.CellOf(x) == old(port.CellOf(x))
      ensures var o := ReadOutcome(old(Visible()), old(Ended()), old(queue)[0].SRI.ItemSize(), count, consume,
                                   blocking);
              && Segs() == AdvanceBy(old(Segs()), o.passed)
              && ToCome() == (if block == null then old(ToCome())
                              else Cursors.Past(Cursors.Told(old(ToCome())), o.passed))
              && (block == null <==> o.block.None?)
              && (block != null ==> block.buffer == o.block.value)
      ensures Closed() == old(Closed())
      ensures block != null ==> fresh(block) && Assembly.Cut(block.Says(), held, newstream, sri)
      ensures block != null ==>
                var first := old(queue)[0];
                block.sri == first.SRI && block.inputQueueFlushed == first.inputQueueFlushed
                && (block.sriChanged <==> old(this.newstream) || (first.sriChanged && old(this.sri) != first.SRI))
    {
      hide Good, Segs, Closed, Visible, Ended, MyLane, ToCome, Cursors.Past, Cursors.Told, AdvanceBy, ReadOutcome,
           Assembly.BlockOf, SB.Ready;
      var itemSize := queue[0].SRI.ItemSize();
      var scalars, pass := count * itemSize, consume * itemSize;
      var requested := if pass > scalars then pass else scalars;
      FetchUntil(requested);
      OutcomeOfHeld(Visible(), Ended(), itemSize, count, consume, blocking, samplesQueued);
      var samples := Min(requested, samplesQueued);
      if samples < requested {
        if !blocking && pending.None? && eosState == EosNone {
          AdvanceNone(Segs());
          return null, State(), this.newstream, this.sri;
        }
        if pass != 0 {
          pass := samples;
        }
      }
      samples := Min(scalars, samplesQueued);
      held, newstream, sri := State(), this.newstream, this.sri;
      assert SB.Ready(held)[..samples] == Visible()[..samples];
      block := ReadData(samples, pass);
    }

    /** read and tryread without a sample count: the rest of one packet. */
    method ReadPacket() returns (block: DataBlock?, ghost held: SB.Buffer, ghost newstream: bool, ghost sri: Sri)
      requires Good()
      modifies this, port`packetQueue, port`blocking, port`streams, port`pendingStreams
      ensures Good() && Rank(old(eosState)) <= Rank(eosState)
      ensures forall x :: x != streamID ==> port.CellOf(x) == old(port.CellOf(x))
      ensures block == null <==> old(Visible()) == []
      ensures if block == null then Segs() == old(Segs()) && ToCome() == old(ToCome())
              else 0 < |block.buffer| && block.buffer <= old(Visible()) &&
                   var n := WholeSamples(|block.buffer|, old(SB.Item(State(), MyLane())));
                   Segs() == AdvanceBy(old(Segs()), n) && ToCome() == Cursors.Past(Cursors.Told(old(ToCome())), n)
      ensures Closed() == old(Closed())
      ensures block != null ==> fresh(block) && Assembly.CutPacket(block.Says(), held, newstream, sri)
      ensures block != null ==> old(queue) != [] || old(MyLane()) != []
      ensures block != null ==>
                var first := if old(queue) != [] then old(queue)[0] else old(MyLane())[0];
                block.sri == first.SRI && block.inputQueueFlushed == first.inputQueueFlushed
                && (block.sriChanged <==> old(this.newstream) || (first.sriChanged && old(this.sri) != first.SRI))
      ensures Leaves(old(eosState), old(port.streams), old(port.pendingStreams))
      ensures old(port.Sound()) ==> port.Sound()
    {
      hide Good, Segs, Closed, Visible, Ended, MyLane, ToCome, Cursors.Past, Cursors.Told, AdvanceBy, InPort.CellOf,
           InPort.Sound, InPort.Removed;
      var found := NextSri();
      if !found {
        NotReported();
        ReportIfEosReached();
        block, held, newstream, sri := null, State(), this.newstream, this.sri;
      } else {
        FetchUntil(0);
        FrontInside();
        var samples := |queue[0].buffer| - sampleOffset;
        held, newstream, sri := State(), this.newstream, this.sri;
        assert SB.Ready(held)[..samples] <= Visible();
        block := ReadData(samples, samples);
        NotReported();
      }
      if old(port.Sound()) { StillSound(); }
    }

    /** The front packet is not used up, and the rest of it is held. */
    lemma FrontInside()
      requires Good() && queue != []
      ensures SB.Rep(State()) && 0 < |queue[0].buffer| - sampleOffset <= samplesQueued
    {
      SB.FlatFront(queue);
    }

    /** Makes sure that an end that can be seen has been taken. */
    method LookAhead()
      requires Good()
      modifies this`queue, this`samplesQueued, this`eosState, this`pending, port`packetQueue, port`blocking
      ensures Good() && Rank(old(eosState)) <= Rank(eosState)
      ensures forall x :: x != streamID ==> port.CellOf(x) == old(port.CellOf(x))
      ensures Segs() == old(Segs()) && Closed() == old(Closed())
      ensures ToCome() == old(ToCome())
      ensures eosState == EosReached || eosState == EosReported ==> Segs() == [] && Closed()
      ensures !port.breakBlock && Segs() == [] && Closed() ==> eosState == EosReached || eosState == EosReported
    {
      if |queue| == 0 {
        var _ := FetchPacket();
      }
      SB.HeldIsVisible(State(), MyLane(), port.breakBlock);
    }

    /** eos(): true exactly when nothing is left and the end was received, unless a stopped port
        keeps the end back. */
    method Eos() returns (ended: bool)
      requires Good()
      modifies this`queue, this`samplesQueued, this`eosState, this`pending, port`packetQueue, port`blocking,
               port`streams, port`pendingStreams
      ensures Good() && Rank(old(eosState)) <= Rank(eosState)
      ensures forall x :: x != streamID ==> port.CellOf(x) == old(port.CellOf(x))
      ensures Segs() == old(Segs()) && Closed() == old(Closed())
      ensures ToCome() == old(ToCome())
      ensures ended <==> eosState == EosReported
      ensures ended ==> Segs() == [] && Closed()
      ensures !port.breakBlock && Segs() == [] && Closed() ==> ended
      ensures Leaves(old(eosState), old(port.streams), old(port.pendingStreams))
      ensures old(port.Sound()) ==> port.Sound()
    {
      hide Good, Segs, Closed, MyLane, ToCome, InPort.CellOf, InPort.Sound, InPort.Removed;
      LookAhead();
      NotReported();
      ReportIfEosReached();
      ended := eosState == EosReported;
      if old(port.Sound()) { StillSound(); }
    }

    method SamplesAvailable() returns (samples: int)
      requires Good()
      ensures samples == Availability.Available(State(), MyLane())
    {
      samples := samplesQueued;
      if samples > 0 && queue[0].SRI.Complex() {
        samples := samples / 2;
      }
      if pending.None? && eosState == EosNone {
        var more := port.SamplesAvailable(streamID, |queue| == 0);
        samples := samples + more;
      }
    }
  }
}
