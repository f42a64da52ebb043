/** Every sample reaches a connection with the SRI that was in force when it was written. */
module SriInForce {
  import opened BulkioTypes
  import opened PrecisionTime
  import opened Chunking
  import opened Wire
  import opened Bracketing

  /** A sample and the SRI it is to be read with. */
  datatype Tagged = Tagged(sample: Sample, sri: Option<Sri>)

  function Tag(data: seq<Sample>, sri: Option<Sri>): (t: seq<Tagged>)
    ensures |t| == |data|
  {
    if data == [] then [] else [Tagged(data[0], sri)] + Tag(data[1..], sri)
  }

  lemma {:induction false} TagConcat(a: seq<Sample>, b: seq<Sample>, sri: Option<Sri>)
    ensures Tag(a + b, sri) == Tag(a, sri) + Tag(b, sri)
  {
    if a == [] {
      assert a + b == b;
    } else {
      TagConcat(a[1..], b, sri);
      assert (a + b)[0] == a[0] && (a + b)[1..] == a[1..] + b;
      Regroup([Tagged(a[0], sri)], Tag(a[1..], sri), Tag(b, sri));
    }
  }

  /** The last SRI received for a stream ID. */
  function LastSri(log: seq<Message>, id: string): Option<Sri> {
    if log == [] then None
    else match log[|log| - 1]
      case SriMessage(sri) => if sri.streamID == id then Some(sri) else LastSri(log[..|log| - 1], id)
      case PacketMessage(_, _, _, _) => LastSri(log[..|log| - 1], id)
  }

  /** What a receiver makes of a stream ID's messages: each sample with the last SRI before it. */
  function Received(log: seq<Message>, id: string): seq<Tagged> {
    if log == [] then []
    else match log[|log| - 1]
      case SriMessage(_) => Received(log[..|log| - 1], id)
      case PacketMessage(data, _, _, of) =>
        Received(log[..|log| - 1], id) + if of == id then Tag(data, LastSri(log[..|log| - 1], id)) else []
  }

  lemma ReceivedSnoc(log: seq<Message>, m: Message, id: string)
    ensures LastSri(log + [m], id) == if m.SriMessage? && m.sri.streamID == id then Some(m.sri) else LastSri(log, id)
    ensures Received(log + [m], id) == Received(log, id)
              + if m.PacketMessage? && m.streamID == id then Tag(m.data, LastSri(log, id)) else []
  {
    assert (log + [m])[..|log|] == log;
  }

  /** Equal version means equal SRI: what is on record for the stream ID is what it was told last. */
  predicate InForce(c: Conn, id: string, sri: Sri, version: int) {
    Known(c, id, version) ==> LastSri(c.log, id) == Some(sri)
  }

  /** The samples of a packet's pushes that get through. */
  function Through(c: Conn, ms: seq<Message>): seq<Sample>
    decreases |ms|
  {
    if ms == [] || Coming(c) != Delivered then []
    else (if ms[0].PacketMessage? then ms[0].data else []) + Through(Remote(c, ms[0]), ms[1..])
  }

  lemma {:induction false} PushAllReceived(c: Conn, ms: seq<Message>, of: string, EOS: bool, id: string)
    requires IsPacket(ms, of, EOS)
    ensures PushAll(c, ms).versions == c.versions && PushAll(c, ms).alive == c.alive
    ensures LastSri(PushAll(c, ms).log, id) == LastSri(c.log, id)
    ensures Received(PushAll(c, ms).log, id)
            == Received(c.log, id) + if of == id then Tag(Through(c, ms), LastSri(c.log, id)) else []
    decreases |ms|
  {
    hide Tag, LastSri, Received;
    var sri := LastSri(c.log, id);
    ReceivedSnoc(c.log, ms[0], id);
    NoTag(sri);
    if Coming(c) != Delivered {
      assert Received(c.log, id) + [] == Received(c.log, id);
    } else if |ms| > 1 {
      var next := Remote(c, ms[0]);
      PushAllReceived(next, ms[1..], of, EOS, id);
      TagConcat(ms[0].data, Through(next, ms[1..]), sri);
      Regroup(Received(c.log, id), Tag(ms[0].data, sri), Tag(Through(next, ms[1..]), sri));
    } else {
      assert ms[1..] == [] && ms[0].data + [] == ms[0].data;
    }
  }

  lemma NoTag(sri: Option<Sri>)
    ensures Tag([], sri) == []
  {
  }

  /** What gets through is the beginning of the payload, and all of it unless a push fails. */
  lemma {:induction false} ThroughFirst(c: Conn, ms: seq<Message>)
    ensures Through(c, ms) <= Payload(ms)
    ensures PushAllOutcome(c, ms) == Delivered ==> Through(c, ms) == Payload(ms)
    ensures AllDelivered(c.script) ==> PushAllOutcome(c, ms) == Delivered && AllDelivered(PushAll(c, ms).script)
    decreases |ms|
  {
    hide AllDelivered;
    if ms != [] {
      ScriptRest(c, ms[0]);
      ThroughFirst(Remote(c, ms[0]), ms[1..]);
    }
  }

  /** The samples of an event that get through for a stream ID. */
  function Got(c: Conn, e: Event, limit: nat, id: string): seq<Sample>
    requires e.Fits(limit)
  {
    if !(e.PacketEvent? && e.id == id && e.routed && c.alive && SriOutcome(c, id, e.version) == Delivered) then []
    else Through(PushSri(c, id, e.sri, e.version), e.Pushes(limit))
  }

  /** The SRI that a receiver reads them with. */
  function Under(c: Conn, e: Event): Option<Sri> {
    if Known(c, e.id, e.version) then LastSri(c.log, e.id) else Some(e.sri)
  }

  /** Whatever fails, what gets through is the beginning of the packet, and is read with the last
      SRI received if the packet's version is on record, with the packet's own if it is not. */
  lemma StepReceived(c: Conn, e: Event, limit: nat, id: string)
    requires e.Fits(limit)
    ensures Received(Step(c, e, limit).log, id) == Received(c.log, id) + Tag(Got(c, e, limit, id), Under(c, e))
    ensures e.PacketEvent? ==> Got(c, e, limit, id) <= e.data
  {
    hide Tag, LastSri, Received, Chunks, PushSize, PushAll, PushAllOutcome, IsPacket, Payload, Through;
    NoTag(Under(c, e));
    assert Received(c.log, id) + [] == Received(c.log, id);
    if e.routed && c.alive {
      SriReceived(c, e.id, e.sri, e.version, id);
      if e.PacketEvent? && SriOutcome(c, e.id, e.version) == Delivered {
        var told := PushSri(c, e.id, e.sri, e.version);
        ChunksArePacket(e.data, e.T, e.EOS, e.id, PushSize(limit, e.sri), e.sri);
        ChunksPayload(e.data, e.T, e.EOS, e.id, PushSize(limit, e.sri), e.sri);
        PushAllReceived(told, e.Pushes(limit), e.id, e.EOS, id);
        ThroughFirst(told, e.Pushes(limit));
      }
    }
  }

  /** The samples of a packet that get through arrive with the packet's SRI exactly when there are
      none, or the version on record stands for that SRI. */
  lemma StepInForce(c: Conn, e: Event, limit: nat, id: string)
    requires e.Fits(limit)
    ensures Received(Step(c, e, limit).log, id) == Received(c.log, id) + Tag(Got(c, e, limit, id), Some(e.sri))
            <==> Got(c, e, limit, id) == [] || InForce(c, id, e.sri, e.version)
  {
    hide Received, Step, Got, LastSri;
    StepReceived(c, e, limit, id);
    var got, before := Got(c, e, limit, id), Received(c.log, id);
    GotOwn(c, e, limit, id);
    if got != [] && Under(c, e) != Some(e.sri) {
      assert (before + Tag(got, Some(e.sri)))[|before|].sri == Some(e.sri);
      assert (before + Tag(got, Under(c, e)))[|before|].sri == Under(c, e);
    }
  }

  lemma GotOwn(c: Conn, e: Event, limit: nat, id: string)
    requires e.Fits(limit)
    ensures Got(c, e, limit, id) != [] ==> e.PacketEvent? && e.id == id
  {
  }

  /** The samples of a stream ID that get through in a run, each with the SRI of its packet. */
  function Meant(c: Conn, es: seq<Event>, limit: nat, id: string): seq<Tagged>
    requires forall e :: e in es ==> e.Fits(limit)
  {
    if es == [] then []
    else
      var e, before := es[|es| - 1], Run(c, es[..|es| - 1], limit);
      Meant(c, es[..|es| - 1], limit, id) + Tag(Got(before, e, limit, id), Some(e.sri))
  }

  /** At no step of a run do samples get through on a version that stands for another SRI. */
  predicate AllInForce(c: Conn, es: seq<Event>, limit: nat, id: string)
    requires forall e :: e in es ==> e.Fits(limit)
  {
    es == [] ||
    var e, before := es[|es| - 1], Run(c, es[..|es| - 1], limit);
    && AllInForce(c, es[..|es| - 1], limit, id)
    && (Got(before, e, limit, id) == [] || InForce(before, id, e.sri, e.version))
  }

  /** In every run, with whatever failures, routing and re-use of the stream ID, the receiver reads
      every sample with the SRI of its packet exactly when no step is a stale one. */
  lemma {:induction false} RunInForceExactly(c: Conn, es: seq<Event>, limit: nat, id: string)
    requires forall e :: e in es ==> e.Fits(limit)
    ensures |Received(Run(c, es, limit).log, id)| == |Received(c.log, id)| + |Meant(c, es, limit, id)|
    ensures Received(Run(c, es, limit).log, id) == Received(c.log, id) + Meant(c, es, limit, id)
            <==> AllInForce(c, es, limit, id)
    decreases |es|
  {
    hide Received, Step, Got, InForce, Under;
    if es == [] {
      assert Received(c.log, id) + [] == Received(c.log, id);
    } else {
      var e, first := es[|es| - 1], es[..|es| - 1];
      var before := Run(c, first, limit);
      RunInForceExactly(c, first, limit, id);
      StepReceived(before, e, limit, id);
      StepInForce(before, e, limit, id);
      BothEqual(Received(before.log, id), Tag(Got(before, e, limit, id), Under(before, e)), Received(c.log, id),
                Meant(c, first, limit, id), Tag(Got(before, e, limit, id), Some(e.sri)));
    }
  }

  lemma BothEqual(now: seq<Tagged>, got: seq<Tagged>, was: seq<Tagged>, meant: seq<Tagged>, more: seq<Tagged>)
    requires |now| == |was| + |meant| && |got| == |more|
    ensures now + got == was + (meant + more) <==> now == was + meant && now + got == now + more
  {
    Regroup(was, meant, more);
    if now + got == was + meant + more {
      assert now == (now + got)[..|now|] == (was + meant + more)[..|now|] == was + meant;
    }
  }

  /** The version of a stream stops standing for its SRI only where an SRI is lost: on a step of the
      stream itself, when the push of an SRI that was not the last one received fails. */
  lemma InForceLost(c: Conn, e: Event, limit: nat, id: string, sri: Sri, version: int)
    requires e.Fits(limit) && (e.id == id ==> e.sri == sri && e.version == version) && InForce(c, id, sri, version)
    ensures !InForce(Step(c, e, limit), id, sri, version) <==>
              && e.id == id && e.routed && c.alive && SriOutcome(c, id, version) != Delivered
              && LastSri(c.log, id) != Some(sri)
  {
    hide LastSri, Received, Chunks, PushSize, PushAll, PushAllOutcome, IsPacket, Payload;
    if e.routed && c.alive {
      SriReceived(c, e.id, e.sri, e.version, id);
      if e.PacketEvent? && SriOutcome(c, e.id, e.version) == Delivered {
        ChunksArePacket(e.data, e.T, e.EOS, e.id, PushSize(limit, e.sri), e.sri);
        PushAllReceived(PushSri(c, e.id, e.sri, e.version), e.Pushes(limit), e.id, e.EOS, id);
      }
    }
  }

  /** The failing run, on a new connection: the end-of-stream of one stream is lost, and the samples
      of the next of the ID, whose version is 0 again, are read with the SRI of the first. */
  lemma LostEosMisleads(a: Sri, b: Sri, x: Sample, T: Time, limit: nat)
    requires a.streamID == b.streamID && a != b && FrameSize(b) <= limit
    ensures var end := PacketEvent(a.streamID, a, 0, [], NotSet(), true, true);
            var packet := PacketEvent(b.streamID, b, 0, [x], T, false, true);
            && end.Fits(limit) && packet.Fits(limit)
            && Received(Run(Conn(map[], true, [], [Delivered, TimedOut]), [end, packet], limit).log, b.streamID)
               == [Tagged(x, Some(a))]
  {
    hide Run, Step, Chunks, PushSize, FrameSize, Got;
    PushSizeWhole(limit, b);
    var id, c := a.streamID, Conn(map[], true, [], [Delivered, TimedOut]);
    var end, packet := PacketEvent(id, a, 0, [], NotSet(), true, true), PacketEvent(id, b, 0, [x], T, false, true);
    RunTwo(c, end, packet, limit);
    var stale := Conn(map[id := 0], true, [SriMessage(a)], [TimedOut][1..]);
    LostEos(a, limit);
    StepReceived(stale, packet, limit, id);
    AllThrough(stale, packet, limit);
    ReceivedSnoc([], SriMessage(a), id);
    assert [] + [SriMessage(a)] == [SriMessage(a)] && Tag([x], Some(a)) == [Tagged(x, Some(a))];
    assert Received([], id) == [] && LastSri([SriMessage(a)], id) == Some(a);
  }

  /** The first step of that run. */
  lemma LostEos(a: Sri, limit: nat)
    ensures Step(Conn(map[], true, [], [Delivered, TimedOut]),
                 PacketEvent(a.streamID, a, 0, [], NotSet(), true, true), limit)
            == Conn(map[a.streamID := 0], true, [SriMessage(a)], [TimedOut][1..])
  {
    hide PushSize;
    var id, c := a.streamID, Conn(map[], true, [], [Delivered, TimedOut]);
    var told := Conn(map[id := 0], true, [SriMessage(a)], [TimedOut]);
    assert c.script[1..] == [TimedOut] && [] + [SriMessage(a)] == [SriMessage(a)];
    assert PushSri(c, id, a, 0) == told;
    assert PushAll(told, [EosMessage(id)]) == Remote(told, EosMessage(id));
  }

  /** The second step of that run. */
  lemma AllThrough(c: Conn, e: Event, limit: nat)
    requires e.PacketEvent? && e.Fits(limit) && e.routed && c.alive && AllDelivered(c.script)
    ensures Got(c, e, limit, e.id) == e.data
  {
    hide Chunks, PushSize, PushAll, PushAllOutcome, Payload, Through, AllDelivered;
    SriReceived(c, e.id, e.sri, e.version, e.id);
    ChunksPayload(e.data, e.T, e.EOS, e.id, PushSize(limit, e.sri), e.sri);
    ThroughFirst(PushSri(c, e.id, e.sri, e.version), e.Pushes(limit));
  }

  /** A connection takes a packet while the version on record stands for the stream's SRI: what gets
      through arrives with that SRI. When no call fails that is all of the packet, and the SRI is on
      record afterwards unless the stream has ended. */
  lemma PacketReceived(c: Conn, e: Event, limit: nat)
    requires e.PacketEvent? && e.Fits(limit) && e.routed && c.alive && InForce(c, e.id, e.sri, e.version)
    ensures var after := Step(c, e, limit);
            && Received(after.log, e.id) == Received(c.log, e.id) + Tag(Got(c, e, limit, e.id), Some(e.sri))
            && Got(c, e, limit, e.id) <= e.data
            && (AllDelivered(c.script) ==>
                  && Got(c, e, limit, e.id) == e.data && after.alive && AllDelivered(after.script)
                  && after.versions == (if e.EOS then c.versions[e.id := e.version] - {e.id}
                                        else c.versions[e.id := e.version])
                  && LastSri(after.log, e.id) == Some(e.sri))
  {
    hide Tag, LastSri, Received, Chunks, PushSize, PushAll, PushAllOutcome, IsPacket, Payload, AllDelivered, Got;
    StepReceived(c, e, limit, e.id);
    StepInForce(c, e, limit, e.id);
    if AllDelivered(c.script) {
      AllThrough(c, e, limit);
      SriReceived(c, e.id, e.sri, e.version, e.id);
      var told := PushSri(c, e.id, e.sri, e.version);
      ChunksArePacket(e.data, e.T, e.EOS, e.id, PushSize(limit, e.sri), e.sri);
      PushAllReceived(told, e.Pushes(limit), e.id, e.EOS, e.id);
      ThroughFirst(told, e.Pushes(limit));
    }
  }

  /** Nothing changes for the other stream IDs, whatever fails. */
  lemma PacketElsewhere(c: Conn, e: Event, limit: nat, id: string)
    requires e.PacketEvent? && e.Fits(limit) && e.id != id
    ensures var after := Step(c, e, limit);
            && LastSri(after.log, id) == LastSri(c.log, id) && Received(after.log, id) == Received(c.log, id)
            && (id in after.versions <==> id in c.versions)
            && (id in c.versions ==> after.versions[id] == c.versions[id])
            && (c.alive && AllDelivered(c.script) ==> after.alive && AllDelivered(after.script))
  {
    hide Tag, LastSri, Received, Chunks, PushSize, PushAll, PushAllOutcome, IsPacket, Payload, AllDelivered;
    if e.routed && c.alive {
      var told := PushSri(c, e.id, e.sri, e.version);
      SriReceived(c, e.id, e.sri, e.version, id);
      ChunksArePacket(e.data, e.T, e.EOS, e.id, PushSize(limit, e.sri), e.sri);
      PushAllReceived(told, e.Pushes(limit), e.id, e.EOS, id);
      ThroughFirst(told, e.Pushes(limit));
    }
  }

  lemma SriReceived(c: Conn, of: string, sri: Sri, version: int, id: string)
    requires sri.streamID == of
    ensures var told := PushSri(c, of, sri, version);
            && told.alive == c.alive && told.versions == c.versions[of := version]
            && LastSri(told.log, id)
               == (if of == id && !Known(c, of, version) && SriOutcome(c, of, version) == Delivered
                   then Some(sri) else LastSri(c.log, id))
            && Received(told.log, id) == Received(c.log, id)
            && (AllDelivered(c.script) ==> SriOutcome(c, of, version) == Delivered && AllDelivered(told.script))
  {
    hide Tag, LastSri, Received;
    ScriptRest(c, SriMessage(sri));
    ReceivedSnoc(c.log, SriMessage(sri), id);
    assert Received(c.log, id) + [] == Received(c.log, id);
    if Known(c, of, version) { assert c.versions[of := version] == c.versions; }
  }
}
