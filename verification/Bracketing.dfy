/** On every connection the messages of a stream ID come in groups: an SRI, then SRIs and packets
    without an end-of-stream, then one end-of-stream. Only the last group may be left open. */
module Bracketing {
  import opened BulkioTypes
  import opened PrecisionTime
  import opened Chunking
  import opened Wire

  datatype Phase = Idle | Open | Bad

  function Advance(p: Phase, m: Message, id: string): Phase {
    match m
    case SriMessage(sri) => if sri.streamID == id && p == Idle then Open else p
    case PacketMessage(_, _, EOS, of) => if of != id then p else if p != Open then Bad else if EOS then Idle else Open
  }

  /** Where a connection is in the groups of one stream ID: Bad once a packet came outside a group. */
  function PhaseOf(log: seq<Message>, id: string): Phase {
    if log == [] then Idle else Advance(PhaseOf(log[..|log| - 1], id), log[|log| - 1], id)
  }

  lemma PhaseSnoc(log: seq<Message>, m: Message, id: string)
    ensures PhaseOf(log + [m], id) == Advance(PhaseOf(log, id), m, id)
  {
    assert (log + [m])[..|log|] == log;
  }

  /** The version map says which groups are open. */
  predicate Tracks(c: Conn, id: string) {
    PhaseOf(c.log, id) == if id in c.versions then Open else Idle
  }

  /** A version is recorded, but its SRI was lost and no group is open. */
  predicate Phantom(c: Conn, id: string) {
    id in c.versions && PhaseOf(c.log, id) == Idle
  }

  lemma RemotePhase(c: Conn, m: Message, id: string)
    ensures PhaseOf(Remote(c, m).log, id)
            == if Coming(c) == Delivered then Advance(PhaseOf(c.log, id), m, id) else PhaseOf(c.log, id)
  {
    PhaseSnoc(c.log, m, id);
  }

  /** Telling a connection of an SRI. When that fails in a group not open, the version is left
      recorded without one. */
  lemma PushSriPhase(c: Conn, of: string, sri: Sri, version: int, id: string)
    requires sri.streamID == of && (Tracks(c, id) || Phantom(c, id))
    ensures id != of ==> (Tracks(c, id) <==> Tracks(PushSri(c, of, sri, version), id))
    ensures id != of ==> (Phantom(c, id) <==> Phantom(PushSri(c, of, sri, version), id))
    ensures id == of ==> id in PushSri(c, of, sri, version).versions
    ensures id == of ==> PhaseOf(PushSri(c, of, sri, version).log, id)
                         == if Known(c, of, version) || SriOutcome(c, of, version) != Delivered
                            then PhaseOf(c.log, id) else Open
  {
    hide PhaseOf;
    RemotePhase(c.(versions := c.versions[of := version]), SriMessage(sri), id);
  }

  /** The pushes of one packet: the end-of-stream on the last alone. */
  predicate IsPacket(ms: seq<Message>, id: string, EOS: bool) {
    && ms != [] && ms[0].PacketMessage? && ms[0].streamID == id
    && (if |ms| == 1 then ms[0].EOS == EOS else !ms[0].EOS && IsPacket(ms[1..], id, EOS))
  }

  lemma {:induction false} ChunksArePacket(data: seq<Sample>, T: Time, EOS: bool, id: string, size: nat, sri: Sri)
    requires size > 0 || data == []
    ensures IsPacket(Chunks(data, T, EOS, id, size, sri), id, EOS)
    decreases |data|
  {
    hide NextTime;
    var ms := Chunks(data, T, EOS, id, size, sri);
    if |data| > size {
      ChunksArePacket(data[size..], NextTime(T, size, sri), EOS, id, size, sri);
      assert ms[1..] == Chunks(data[size..], NextTime(T, size, sri), EOS, id, size, sri);
    }
  }

  lemma {:induction false} PushAllElsewhere(c: Conn, ms: seq<Message>, of: string, EOS: bool, id: string)
    requires IsPacket(ms, of, EOS) && id != of
    ensures PhaseOf(PushAll(c, ms).log, id) == PhaseOf(c.log, id)
    ensures PushAll(c, ms).versions == c.versions && PushAll(c, ms).alive == c.alive
    decreases |ms|
  {
    hide PhaseOf;
    RemotePhase(c, ms[0], id);
    if |ms| > 1 && Coming(c) == Delivered {
      PushAllElsewhere(Remote(c, ms[0]), ms[1..], of, EOS, id);
    }
  }

  lemma {:induction false} PushAllPhase(c: Conn, ms: seq<Message>, id: string, EOS: bool)
    requires IsPacket(ms, id, EOS) && PhaseOf(c.log, id) == Open
    ensures PhaseOf(PushAll(c, ms).log, id) == if PushAllOutcome(c, ms) == Delivered && EOS then Idle else Open
    ensures PushAll(c, ms).versions == c.versions && PushAll(c, ms).alive == c.alive
    decreases |ms|
  {
    hide PhaseOf;
    RemotePhase(c, ms[0], id);
    if |ms| > 1 && Coming(c) == Delivered {
      PushAllPhase(Remote(c, ms[0]), ms[1..], id, EOS);
    }
  }

  /** A packet pushed outside a group: nothing that follows makes up for it. */
  lemma {:induction false} PushAllOutside(c: Conn, ms: seq<Message>, id: string, EOS: bool)
    requires IsPacket(ms, id, EOS) && PhaseOf(c.log, id) != Open
    ensures PhaseOf(PushAll(c, ms).log, id) == if Coming(c) == Delivered then Bad else PhaseOf(c.log, id)
    ensures PushAll(c, ms).versions == c.versions && PushAll(c, ms).alive == c.alive
    decreases |ms|
  {
    hide PhaseOf;
    RemotePhase(c, ms[0], id);
    if |ms| > 1 && Coming(c) == Delivered {
      PushAllOutside(Remote(c, ms[0]), ms[1..], id, EOS);
    }
  }

  /** What an output port does to one connection. */
  datatype Event =
    | PacketEvent(id: string, sri: Sri, version: int, data: seq<Sample>, T: Time, EOS: bool, routed: bool)
    | SriEvent(id: string, sri: Sri, version: int, routed: bool)
  {
    /** The SRI is the stream's own, and a frame of it fits in a push. */
    predicate Fits(limit: nat) {
      sri.streamID == id && (PacketEvent? ==> PushSize(limit, sri) > 0 || data == [])
    }

    function Pushes(limit: nat): seq<Message>
      requires PacketEvent? && Fits(limit)
    {
      Chunks(data, T, EOS, id, PushSize(limit, sri), sri)
    }
  }

  function Step(c: Conn, e: Event, limit: nat): Conn
    requires e.Fits(limit)
  {
    if !e.routed then c
    else match e
      case PacketEvent(id, sri, version, data, T, EOS, _) => Send(c, id, sri, version, e.Pushes(limit), EOS)
      case SriEvent(id, sri, version, _) => SendSri(c, id, sri, version)
  }

  /** The packet goes out with no SRI before it, because its version is on record. */
  predicate Unannounced(c: Conn, e: Event, id: string) {
    c.alive && e.routed && e.PacketEvent? && e.id == id && Known(c, id, e.version) && Coming(c) == Delivered
  }

  /** The only way out of the groups: a packet that is delivered for a phantom version. */
  lemma StepBracketed(c: Conn, e: Event, limit: nat, id: string)
    requires e.Fits(limit) && (Tracks(c, id) || Phantom(c, id))
    ensures PhaseOf(Step(c, e, limit).log, id) == Bad <==> Phantom(c, id) && Unannounced(c, e, id)
    ensures PhaseOf(Step(c, e, limit).log, id) != Bad ==>
            Tracks(Step(c, e, limit), id) || Phantom(Step(c, e, limit), id)
    ensures Phantom(Step(c, e, limit), id) && !Phantom(c, id) ==>
              e.id == id && SriOutcome(c, id, e.version) != Delivered && (e.PacketEvent? ==> !Step(c, e, limit).alive)
  {
    if e.routed && c.alive {
      PushSriPhase(c, e.id, e.sri, e.version, id);
      if e.PacketEvent? && SriOutcome(c, e.id, e.version) == Delivered {
        PacketBracketed(c, e, limit, id);
      }
    }
  }

  lemma PacketBracketed(c: Conn, e: Event, limit: nat, id: string)
    requires e.PacketEvent? && e.routed && c.alive && e.Fits(limit) && (Tracks(c, id) || Phantom(c, id))
    requires SriOutcome(c, e.id, e.version) == Delivered
    ensures PhaseOf(Step(c, e, limit).log, id) == Bad <==> Phantom(c, id) && Unannounced(c, e, id)
    ensures PhaseOf(Step(c, e, limit).log, id) != Bad ==>
            Tracks(Step(c, e, limit), id) || Phantom(Step(c, e, limit), id)
    ensures Phantom(Step(c, e, limit), id) ==> Phantom(c, id)
  {
    hide PhaseOf, Chunks, IsPacket, PushSize, PushAll, PushAllOutcome, Remote;
    PushSriPhase(c, e.id, e.sri, e.version, id);
    var told := PushSri(c, e.id, e.sri, e.version);
    ChunksArePacket(e.data, e.T, e.EOS, e.id, PushSize(limit, e.sri), e.sri);
    if e.id != id {
      PushAllElsewhere(told, e.Pushes(limit), e.id, e.EOS, id);
    } else if PhaseOf(told.log, id) == Open {
      PushAllPhase(told, e.Pushes(limit), id, e.EOS);
    } else {
      PushAllOutside(told, e.Pushes(limit), id, e.EOS);
      assert told == c;
      if Coming(c) != Delivered { FirstFails(c, e.Pushes(limit), id, e.EOS); }
    }
  }

  lemma FirstFails(c: Conn, ms: seq<Message>, id: string, EOS: bool)
    requires IsPacket(ms, id, EOS) && Coming(c) != Delivered
    ensures PushAllOutcome(c, ms) != Delivered
  {
  }

  function Run(c: Conn, es: seq<Event>, limit: nat): Conn
    requires forall e :: e in es ==> e.Fits(limit)
  {
    if es == [] then c else Step(Run(c, es[..|es| - 1], limit), es[|es| - 1], limit)
  }

  /** No SRI that OutPort::pushSRI pushes for the stream ID is lost. */
  predicate SriPushed(c: Conn, es: seq<Event>, limit: nat, id: string)
    requires forall e :: e in es ==> e.Fits(limit)
  {
    es == [] ||
    var e, before := es[|es| - 1], Run(c, es[..|es| - 1], limit);
    && SriPushed(c, es[..|es| - 1], limit, id)
    && (e.SriEvent? && e.id == id && e.routed && before.alive ==> SriOutcome(before, id, e.version) == Delivered)
  }

  /** In every run in which no pushSRI loses the stream's SRI, whatever packets are lost and
      whatever else fails, the connection's trace of the stream ID is properly bracketed; and as
      long as the connection is alive the version map says which groups are open. */
  lemma {:induction false} RunBracketed(c: Conn, es: seq<Event>, limit: nat, id: string)
    requires forall e :: e in es ==> e.Fits(limit)
    requires Tracks(c, id) && SriPushed(c, es, limit, id)
    ensures PhaseOf(Run(c, es, limit).log, id) != Bad
    ensures Run(c, es, limit).alive ==> Tracks(Run(c, es, limit), id)
    ensures Tracks(Run(c, es, limit), id) || Phantom(Run(c, es, limit), id)
    decreases |es|
  {
    hide PhaseOf;
    if es != [] {
      RunBracketed(c, es[..|es| - 1], limit, id);
      var before := Run(c, es[..|es| - 1], limit);
      StepBracketed(before, es[|es| - 1], limit, id);
    }
  }

  lemma BadStays(c: Conn, e: Event, limit: nat, id: string)
    requires e.Fits(limit) && PhaseOf(c.log, id) == Bad
    ensures PhaseOf(Step(c, e, limit).log, id) == Bad
  {
    hide PhaseOf, Chunks, IsPacket, PushSize, PushAll, PushAllOutcome, Remote;
    if e.routed && c.alive {
      RemotePhase(c.(versions := c.versions[e.id := e.version]), SriMessage(e.sri), id);
      if e.PacketEvent? {
        var told := PushSri(c, e.id, e.sri, e.version);
        ChunksArePacket(e.data, e.T, e.EOS, e.id, PushSize(limit, e.sri), e.sri);
        if e.id == id {
          PushAllOutside(told, e.Pushes(limit), id, e.EOS);
        } else {
          PushAllElsewhere(told, e.Pushes(limit), e.id, e.EOS, id);
        }
      }
    }
  }

  /** At no step of a run is a packet delivered for a version whose SRI was lost. */
  predicate AllAnnounced(c: Conn, es: seq<Event>, limit: nat, id: string)
    requires forall e :: e in es ==> e.Fits(limit)
  {
    es == [] ||
    var before := Run(c, es[..|es| - 1], limit);
    AllAnnounced(c, es[..|es| - 1], limit, id) && !(Phantom(before, id) && Unannounced(before, es[|es| - 1], id))
  }

  /** A run leaves the groups of a stream ID exactly when it takes that one way out. */
  lemma {:induction false} RunBracketedExactly(c: Conn, es: seq<Event>, limit: nat, id: string)
    requires forall e :: e in es ==> e.Fits(limit)
    requires Tracks(c, id) || Phantom(c, id)
    ensures PhaseOf(Run(c, es, limit).log, id) != Bad <==> AllAnnounced(c, es, limit, id)
    ensures AllAnnounced(c, es, limit, id) ==> Tracks(Run(c, es, limit), id) || Phantom(Run(c, es, limit), id)
    decreases |es|
  {
    hide PhaseOf;
    if es != [] {
      RunBracketedExactly(c, es[..|es| - 1], limit, id);
      var before := Run(c, es[..|es| - 1], limit);
      if AllAnnounced(c, es[..|es| - 1], limit, id) {
        StepBracketed(before, es[|es| - 1], limit, id);
      } else {
        BadStays(before, es[|es| - 1], limit, id);
      }
    }
  }

  /** The condition is needed: when pushSRI loses an SRI, the next packet comes outside a group. */
  lemma LostSriUnbrackets(id: string)
    ensures var c := Conn(map[], true, [], [Fatal]);
            var lost := SriEvent(id, DefaultSri(id), 0, true);
            var packet := PacketEvent(id, DefaultSri(id), 0, [], NotSet(), false, true);
            && lost.Fits(1) && packet.Fits(1)
            && Run(c, [lost, packet], 1).alive && PhaseOf(Run(c, [lost, packet], 1).log, id) == Bad
  {
    hide PushSize, Run, PushPacket, PushAll, PushAllOutcome;
    var c, told := Conn(map[], true, [], [Fatal]), Conn(map[id := 0], true, [], []);
    var lost, packet := SriEvent(id, DefaultSri(id), 0, true),
        PacketEvent(id, DefaultSri(id), 0, [], NotSet(), false, true);
    RunTwo(c, lost, packet, 1);
    assert Step(c, lost, 1) == told;
    assert Phantom(told, id) && Unannounced(told, packet, id);
    StepBracketed(told, packet, 1, id);
    EmptyPacket(told, packet);
  }

  lemma RunTwo(c: Conn, e: Event, f: Event, limit: nat)
    requires e.Fits(limit) && f.Fits(limit)
    ensures Run(c, [e, f], limit) == Step(Step(c, e, limit), f, limit)
  {
    hide Step;
    assert [e, f][..1] == [e] && [e][..0] == [];
    assert Run(c, [e], limit) == Step(Run(c, [], limit), e, limit);
  }

  lemma EmptyPacket(c: Conn, e: Event)
    requires e.PacketEvent? && e.data == [] && !e.EOS && c.script == [] && c.alive && e.Fits(1)
    ensures Step(c, e, 1).alive
  {
    hide PushSize;
    var told, pushes := PushSri(c, e.id, e.sri, e.version), e.Pushes(1);
    assert told.alive && told.script == [] && pushes[1..] == [];
    assert PushAllOutcome(told, pushes) == PushAllOutcome(Remote(told, pushes[0]), []);
    assert PushAll(told, pushes) == PushAll(Remote(told, pushes[0]), []);
  }

  /** The messages of one stream ID. */
  function Of(log: seq<Message>, id: string): seq<Message> {
    if log == [] then []
    else
      var m := log[|log| - 1];
      Of(log[..|log| - 1], id)
      + if (match m case SriMessage(sri) => sri.streamID == id case PacketMessage(_, _, _, of) => of == id) then [m]
          else []
  }

  lemma OfEos(c: Conn, of: string, id: string)
    ensures Of(Remote(c, EosMessage(of)).log, id)
            == Of(c.log, id) + if Coming(c) == Delivered && of == id then [EosMessage(id)] else []
  {
    assert (c.log + [EosMessage(of)])[..|c.log|] == c.log;
  }

  /** The end-of-streams of a disconnect, for a stream ID that is not among those still to go. */
  lemma {:induction false} EndAllElsewhere(c: Conn, order: seq<string>, id: string)
    requires id !in order
    ensures Of(EndAll(c, order).log, id) == Of(c.log, id) && PhaseOf(EndAll(c, order).log, id) == PhaseOf(c.log, id)
    decreases |order|
  {
    hide PhaseOf, Of;
    if order != [] {
      OfEos(c, order[0], id);
      RemotePhase(c, EosMessage(order[0]), id);
      if Coming(c) != Fatal { EndAllElsewhere(Remote(c, EosMessage(order[0])), order[1..], id); }
    }
  }

  predicate AllDelivered(script: seq<Outcome>) { forall o :: o in script ==> o == Delivered }

  lemma ScriptRest(c: Conn, m: Message)
    ensures AllDelivered(c.script) ==> Coming(c) == Delivered && AllDelivered(Remote(c, m).script)
  {
    if c.script != [] && AllDelivered(c.script) {
      assert c.script[0] in c.script;
      forall o | o in c.script[1..] ensures o == Delivered { assert o in c.script; }
    }
  }

  lemma {:induction false} EndAllCloses(c: Conn, order: seq<string>, id: string)
    requires id in order && (forall i, j :: 0 <= i < j < |order| ==> order[i] != order[j])
    requires PhaseOf(c.log, id) == Open
    ensures var d := EndAll(c, order);
            || (Of(d.log, id) == Of(c.log, id) + [EosMessage(id)] && PhaseOf(d.log, id) == Idle)
            || (Of(d.log, id) == Of(c.log, id) && PhaseOf(d.log, id) == Open && !AllDelivered(c.script))
    decreases |order|
  {
    hide PhaseOf, Of;
    OfEos(c, order[0], id);
    RemotePhase(c, EosMessage(order[0]), id);
    ScriptRest(c, EosMessage(order[0]));
    if Coming(c) != Fatal {
      if order[0] == id {
        EndAllElsewhere(Remote(c, EosMessage(order[0])), order[1..], id);
      } else {
        EndAllCloses(Remote(c, EosMessage(order[0])), order[1..], id);
      }
    }
  }

  /** disconnect ends each open group with exactly one end-of-stream, unless a call fails, and
      sends nothing for any other stream ID. */
  lemma DisconnectCloses(c: Conn, order: seq<string>, id: string)
    requires Tracks(c, id) && Enumerates(order, c.versions.Keys)
    ensures var d := Disconnect(c, order);
            || (Of(d.log, id) == Of(c.log, id) + [EosMessage(id)] && id in c.versions && PhaseOf(d.log, id) == Idle)
            || (Of(d.log, id) == Of(c.log, id) && PhaseOf(d.log, id) == PhaseOf(c.log, id)
                && (AllDelivered(c.script) ==> id !in c.versions))
  {
    if id in c.versions {
      EndAllCloses(c, order, id);
    } else {
      EndAllElsewhere(c, order, id);
    }
  }

  /** The end-of-stream of a stream ID reaches the other end. */
  predicate EndDelivered(c: Conn, order: seq<string>, id: string)
    decreases |order|
  {
    order != [] &&
    if order[0] == id then Coming(c) == Delivered
    else Coming(c) != Fatal && EndDelivered(Remote(c, EosMessage(order[0])), order[1..], id)
  }

  lemma {:induction false} EndAllPhase(c: Conn, order: seq<string>, id: string)
    requires id in order && (forall i, j :: 0 <= i < j < |order| ==> order[i] != order[j])
    ensures PhaseOf(EndAll(c, order).log, id)
            == if EndDelivered(c, order, id) then Advance(PhaseOf(c.log, id), EosMessage(id), id)
               else PhaseOf(c.log, id)
    decreases |order|
  {
    hide PhaseOf, Of;
    RemotePhase(c, EosMessage(order[0]), id);
    if Coming(c) != Fatal {
      if order[0] == id {
        EndAllElsewhere(Remote(c, EosMessage(order[0])), order[1..], id);
      } else {
        EndAllPhase(Remote(c, EosMessage(order[0])), order[1..], id);
      }
    }
  }

  /** disconnect leaves the groups of a stream ID exactly when a version is on record whose SRI was
      lost, as on a connection that died on an SRI, and the end-of-stream for it comes through. */
  lemma PhantomDisconnect(c: Conn, order: seq<string>, id: string)
    requires (Tracks(c, id) || Phantom(c, id)) && Enumerates(order, c.versions.Keys)
    ensures PhaseOf(Disconnect(c, order).log, id) == Bad <==> Phantom(c, id) && EndDelivered(c, order, id)
  {
    hide PhaseOf;
    if id in c.versions {
      EndAllPhase(c, order, id);
    } else {
      EndAllElsewhere(c, order, id);
    }
  }
}
