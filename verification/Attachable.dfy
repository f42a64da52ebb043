/** The attachable output port of SDDS and VITA49: attachments and SRIs as connections, streams
    and the filter table come and go. */
module Attachable {
  import opened BulkioTypes
  import opened PrecisionTime
  import opened Filters
  import opened Attachments

  /** AttachableSriMapStruct: the connections listed are those that have the SRI. */
  datatype Entry = Entry(sri: Sri, time: Time, connections: set<string>)

  class OutAttachablePort {
    const name: string
    var filterTable: seq<Row>
    var outConnections: seq<string>
    var streams: seq<Stream>
    var currentSRIs: map<string, Entry>
    var active: bool
    /** The SRI each connection was last given for each stream ID: what the other ends know. */
    ghost var received: map<(string, string), Sri>
    /** How many pushes have failed. */
    ghost var failures: nat

    constructor (name: string)
      ensures Valid() && Attached()
      ensures filterTable == [] && outConnections == [] && streams == [] && currentSRIs == map[]
    {
      this.name := name;
      filterTable, outConnections, streams, currentSRIs, active, received, failures := [], [], [], map[],
          false, map[], 0;
    }

    ghost predicate Valid()
      reads this
    {
      (outConnections != [] ==> active) && Distinct(streams) && Listed()
    }

    /** The attachment table is the routing relation: a stream is attached to a connection exactly
        when the connection is live and the filter table does not mention the port or lists them. */
    ghost predicate Attached()
      reads `streams, `filterTable, `outConnections
    {
      forall i :: 0 <= i < |streams| ==> Right(streams[i], filterTable, name, outConnections)
    }

    /** The same, one connection left aside. */
    ghost predicate AttachedBut(connection: string)
      reads `streams, `filterTable, `outConnections
    {
      forall i :: 0 <= i < |streams| ==> RightBut(streams[i], filterTable, name, outConnections, connection)
    }

    /** No attachment that the streams lack where they are routed is refused. */
    ghost predicate NoneRefused(before: seq<Stream>, refuses: Refusals)
      reads `filterTable, `outConnections
    {
      forall i, c :: 0 <= i < |before| && c in outConnections && Routed(filterTable, name, before[i].id, c) ==>
        !Refused(before[i], c, refuses)
    }

    /** A connection listed for a stream ID is live, and the listed SRI is the last it was given. */
    ghost predicate Listed()
      reads `currentSRIs, `outConnections, `received
    {
      && (forall id :: id in currentSRIs ==> currentSRIs[id].sri.streamID == id)
      && (forall id, c :: id in currentSRIs && c in currentSRIs[id].connections ==>
            c in outConnections && (c, id) in received && received[(c, id)] == currentSRIs[id].sri)
    }

    /** Every live connection that a stream of known SRI is attached to is listed. */
    ghost predicate Complete()
      reads `currentSRIs, `streams, `outConnections
    {
      forall i :: 0 <= i < |streams| ==> Told(streams[i])
    }

    /** The stream IDs in order. */
    ghost function StreamIds(): (ids: seq<string>)
      reads `streams
      ensures |ids| == |streams| && forall i :: 0 <= i < |ids| ==> ids[i] == streams[i].id
    {
      var ss := streams;
      seq(|ss|, i requires 0 <= i < |ss| => ss[i].id)
    }

    /** A remote pushSRI, which may fail: then nothing was received. */
    method Call(connection: string, sri: Sri) returns (ok: bool)
      modifies `received, `failures
      ensures received == if ok then old(received)[(connection, sri.streamID) := sri] else old(received)
      ensures failures == old(failures) + if ok then 0 else 1
    {
      ok := *;
      if ok {
        received := received[(connection, sri.streamID) := sri];
      } else {
        failures := failures + 1;
      }
    }

    /** Pushes the current SRI of a stream ID to a connection and lists the connection if it took it. */
    method PushTo(connection: string, id: string) returns (ok: bool)
      requires Listed() && id in currentSRIs && connection in outConnections
      modifies `received, `failures, `currentSRIs
      ensures Listed() && currentSRIs.Keys == old(currentSRIs).Keys
      ensures failures == old(failures) + if ok then 0 else 1
      ensures forall k :: k in received && (k !in old(received) || received[k] != old(received)[k]) ==>
              k == (connection, id)
      ensures forall k :: k in currentSRIs ==>
                currentSRIs[k] == if k == id && ok
                    then old(currentSRIs)[k].(connections := old(currentSRIs)[k].connections + {connection})
                                  else old(currentSRIs)[k]
    {
      var entry := currentSRIs[id];
      ok := Call(connection, entry.sri);
      if ok {
        currentSRIs := currentSRIs[id := entry.(connections := entry.connections + {connection})];
      }
    }

    // ---------- streams ----------

    /** StreamContainer::findByStreamId. */
    method FindByStreamId(id: string) returns (i: nat)
      ensures i <= |streams| && (i < |streams| ==> streams[i].id == id)
      ensures i == |streams| ==> forall k :: 0 <= k < |streams| ==> streams[k].id != id
    {
      i := 0;
      while i < |streams| && streams[i].id != id
        invariant i <= |streams| && forall k :: 0 <= k < i ==> streams[k].id != id
      {
        i := i + 1;
      }
    }

    /** StreamContainer::addConnectionToAllStreams, up to the first stream whose attachment is
        refused. */
    method AddConnectionToAllStreams(connection: string, refuses: Refusals) returns (thrown: bool)
      modifies `streams
      ensures |streams| == |old(streams)|
      ensures forall k :: 0 <= k < |streams| ==>
                || streams[k] == old(streams)[k]
                || (streams[k] == Added(old(streams)[k], connection) && !Refused(old(streams)[k], connection, refuses))
      ensures !thrown ==> forall k :: 0 <= k < |streams| ==>
                streams[k] == Added(old(streams)[k], connection) && !Refused(old(streams)[k], connection, refuses)
      ensures thrown ==> RefusedOne(old(streams), connection, refuses)
    {
      thrown := false;
      for i := 0 to |streams|
        invariant |streams| == |old(streams)|
        invariant forall k :: 0 <= k < i ==>
                    streams[k] == Added(old(streams)[k], connection) && !Refused(old(streams)[k], connection, refuses)
        invariant forall k :: i <= k < |streams| ==> streams[k] == old(streams)[k]
      {
        if Refused(streams[i], connection, refuses) {
          return true;
        }
        streams := streams[i := Added(streams[i], connection)];
      }
    }

    /** StreamContainer::addConnectionToStream. */
    method AddConnectionToStream(connection: string, id: string, refuses: Refusals) returns (thrown: bool)
      requires Distinct(streams)
      modifies `streams
      ensures |streams| == |old(streams)|
      ensures thrown ==> streams == old(streams)
      ensures thrown ==>
                exists k :: 0 <= k < |streams| && streams[k].id == id && Refused(streams[k], connection, refuses)
      ensures !thrown ==> forall k :: 0 <= k < |streams| ==>
                streams[k] == if old(streams)[k].id == id then Added(old(streams)[k], connection) else old(streams)[k]
      ensures !thrown ==> forall k :: 0 <= k < |streams| ==>
                old(streams)[k].id == id ==> !Refused(old(streams)[k], connection, refuses)
    {
      thrown := false;
      for i := 0 to |streams|
        invariant |streams| == |old(streams)|
        invariant forall k :: 0 <= k < i ==>
                    streams[k] == if old(streams)[k].id == id then Added(old(streams)[k], connection)
                        else old(streams)[k]
        invariant forall k :: 0 <= k < i ==> old(streams)[k].id == id ==> !Refused(old(streams)[k], connection, refuses)
        invariant forall k :: i <= k < |streams| ==> streams[k] == old(streams)[k]
      {
        if streams[i].id == id {
          if Refused(streams[i], connection, refuses) {
            assert forall k :: 0 <= k < i ==> old(streams)[k].id != id;
            assert streams == old(streams);
            return true;
          }
          streams := streams[i := Added(streams[i], connection)];
        }
      }
    }

    /** StreamContainer::detachByConnectionId. */
    method DetachFromAllStreams(connection: string)
      modifies `streams
      ensures |streams| == |old(streams)|
      ensures forall k :: 0 <= k < |streams| ==>
                streams[k] == old(streams)[k].(attachments := Left(old(streams)[k].attachments, connection))
    {
      for i := 0 to |streams|
        invariant |streams| == |old(streams)|
        invariant forall k :: 0 <= k < i ==>
                    streams[k] == old(streams)[k].(attachments := Left(old(streams)[k].attachments, connection))
        invariant forall k :: i <= k < |streams| ==> streams[k] == old(streams)[k]
      {
        if connection in streams[i].attachments {
          var s := DetachByConnectionId(streams[i], connection);
          streams := streams[i := s];
        } else {
          NothingLeft(streams[i].attachments, connection);
        }
      }
    }

    // ---------- SRIs ----------

    /** updateSRIForAllConnections. */
    method UpdateSriForAllConnections()
      requires Listed()
      modifies `received, `failures, `currentSRIs
      ensures Listed() && failures >= old(failures) && (failures == old(failures) ==> Complete())
      ensures Grown(old(currentSRIs))
      ensures forall id, c :: Newly(old(currentSRIs), currentSRIs, id, c) ==> Reaches(id, c)
      ensures forall k :: k in received && (k !in old(received) || received[k] != old(received)[k]) ==>
              Reaches(k.1, k.0)
    {
      for i := 0 to |streams|
        invariant Listed() && failures >= old(failures) && Grown(old(currentSRIs))
        invariant forall id, c :: Newly(old(currentSRIs), currentSRIs, id, c) ==> Reaches(id, c)
        invariant forall k :: k in received && (k !in old(received) || received[k] != old(received)[k]) ==>
                    Reaches(k.1, k.0)
        invariant failures == old(failures) ==> forall k :: 0 <= k < i ==> Told(streams[k])
      {
        if streams[i].id in currentSRIs {
          ghost var mid := currentSRIs;
          PushMissing(streams[i]);
          forall id, c | Newly(old(currentSRIs), currentSRIs, id, c) ensures Reaches(id, c) {
            NewlyTwice(old(currentSRIs), mid, currentSRIs, id, c);
          }
        }
      }
    }

    /** Some stream of this ID is attached to this connection, which is live. */
    ghost predicate Reaches(id: string, c: string)
      reads `streams, `outConnections
    {
      c in outConnections && exists k :: 0 <= k < |streams| && streams[k].id == id && c in streams[k].attachments
    }

    /** No SRI has been touched, and nobody listed has been dropped. */
    ghost predicate Grown(was: map<string, Entry>)
      reads `currentSRIs
    {
      currentSRIs.Keys == was.Keys &&
      forall id :: id in was ==> currentSRIs[id] == was[id].(connections := currentSRIs[id].connections)
                                 && was[id].connections <= currentSRIs[id].connections
    }

    /** Every live connection the stream is attached to is listed, if its SRI is known. */
    ghost predicate Told(s: Stream)
      reads `currentSRIs, `outConnections
    {
      s.id in currentSRIs ==>
        forall c :: c in s.attachments && c in outConnections ==> c in currentSRIs[s.id].connections
    }

    /** The SRI of one stream, to the connections of the stream that are not listed for it. */
    method PushMissing(s: Stream)
      requires Listed() && s.id in currentSRIs
      modifies `received, `failures, `currentSRIs
      ensures Listed() && failures >= old(failures) && (failures == old(failures) ==> Told(s))
      ensures Grown(old(currentSRIs))
      ensures forall id, c :: Newly(old(currentSRIs), currentSRIs, id, c) ==>
                id == s.id && c in s.attachments && c in outConnections
      ensures forall k :: k in received && (k !in old(received) || received[k] != old(received)[k]) ==>
                k.1 == s.id && k.0 in s.attachments && k.0 in outConnections
    {
      var left, listed := (set c | c in s.attachments), currentSRIs[s.id].connections;
      while left != {}
        invariant Listed() && s.id in currentSRIs && listed <= currentSRIs[s.id].connections
        invariant forall c :: c in left ==> c in s.attachments
        invariant failures >= old(failures)
        invariant failures == old(failures) ==>
                    forall c :: c in s.attachments && c in outConnections && c !in left ==>
                        c in currentSRIs[s.id].connections
        invariant Grown(old(currentSRIs))
        invariant forall id, c :: Newly(old(currentSRIs), currentSRIs, id, c) ==>
                    id == s.id && c in s.attachments && c in outConnections
        invariant forall k :: k in received && (k !in old(received) || received[k] != old(received)[k]) ==>
                    k.1 == s.id && k.0 in s.attachments && k.0 in outConnections
        decreases |left|
      {
        var c :| c in left;
        left := left - {c};
        if c !in listed && c in outConnections {
          ghost var mid := currentSRIs;
          var _ := PushTo(c, s.id);
          forall id, x | Newly(old(currentSRIs), currentSRIs, id, x)
            ensures id == s.id && x in s.attachments && x in outConnections
          {
            NewlyTwice(old(currentSRIs), mid, currentSRIs, id, x);
          }
        }
      }
    }

    /** pushSRI: the SRI is in force from now on, and listed are those routed connections that took
        it. The time of an entry stays the one it was made with. */
    method PushSri(H: Sri, T: Time)
      requires Valid()
      modifies `received, `failures, `currentSRIs
      ensures Valid() && failures >= old(failures)
      ensures forall k :: k in received && (k !in old(received) || received[k] != old(received)[k]) ==>
                k.1 == H.streamID && k.0 in outConnections && Routed(filterTable, name, k.1, k.0)
      ensures currentSRIs.Keys == old(currentSRIs).Keys + {H.streamID}
      ensures forall id :: id in old(currentSRIs) && id != H.streamID ==> currentSRIs[id] == old(currentSRIs)[id]
      ensures var entry := currentSRIs[H.streamID];
              && entry.sri == H
              && entry.time == (if H.streamID in old(currentSRIs) then old(currentSRIs)[H.streamID].time else T)
              && (forall c :: c in entry.connections ==>
                  c in outConnections && Routed(filterTable, name, H.streamID, c))
              && (failures == old(failures) ==>
                    forall c :: c in outConnections && Routed(filterTable, name, H.streamID, c) ==>
                        c in entry.connections)
    {
      hide Right, Mentions;
      var entry := Entry(H, T, {});
      if H.streamID in currentSRIs {
        entry := currentSRIs[H.streamID].(sri := H, connections := {});
      }
      currentSRIs := currentSRIs[H.streamID := entry];
      if active {
        var portListed := PushToListed(H.streamID);
        if !portListed {
          PushToAll(H.streamID);
        }
      }
    }

    /** Nothing has changed in the SRI map but for what is listed with one entry, which has grown. */
    twostate predicate OnlyListed(id: string)
      reads `currentSRIs
    {
      && currentSRIs.Keys == old(currentSRIs).Keys && id in currentSRIs
      && (forall k :: k in currentSRIs && k != id ==> currentSRIs[k] == old(currentSRIs)[k])
      && currentSRIs[id] == old(currentSRIs)[id].(connections := currentSRIs[id].connections)
      && old(currentSRIs)[id].connections <= currentSRIs[id].connections
    }

    /** To every connection that a row lists for the stream ID. */
    method PushToListed(id: string) returns (portListed: bool)
      requires Listed() && id in currentSRIs
      modifies `received, `failures, `currentSRIs
      ensures Listed() && OnlyListed(id) && failures >= old(failures)
      ensures portListed == (outConnections != [] && Mentions(filterTable, name))
      ensures forall k :: k in received && (k !in old(received) || received[k] != old(received)[k]) ==>
                k.1 == id && k.0 in outConnections && Row(name, k.0, id) in filterTable
      ensures forall c :: c in currentSRIs[id].connections ==>
                c in old(currentSRIs)[id].connections || (c in outConnections && Row(name, c, id) in filterTable)
      ensures failures == old(failures) ==>
                forall c :: c in outConnections && Row(name, c, id) in filterTable ==> c in currentSRIs[id].connections
    {
      hide Mentions;
      portListed := false;
      for i := 0 to |outConnections|
        invariant Listed() && OnlyListed(id) && failures >= old(failures)
        invariant portListed == (i > 0 && Mentions(filterTable, name))
        invariant forall k :: k in received && (k !in old(received) || received[k] != old(received)[k]) ==>
                    k.1 == id && k.0 in outConnections && Row(name, k.0, id) in filterTable
        invariant forall c :: c in currentSRIs[id].connections ==>
                    c in old(currentSRIs)[id].connections
                        || (c in outConnections[..i] && Row(name, c, id) in filterTable)
        invariant failures == old(failures) ==>
                    forall c :: c in outConnections[..i] && Row(name, c, id) in filterTable ==>
                        c in currentSRIs[id].connections
      {
        assert outConnections[..i + 1] == outConnections[..i] + [outConnections[i]];
        var times, listed := RowsFor(outConnections[i], id);
        portListed := portListed || listed;
        PushTimes(outConnections[i], id, times);
      }
      assert outConnections[..|outConnections|] == outConnections;
    }

    /** One push for each row that lists the connection and the stream ID. */
    method PushTimes(connection: string, id: string, times: nat)
      requires Listed() && id in currentSRIs && connection in outConnections
      modifies `received, `failures, `currentSRIs
      ensures Listed() && OnlyListed(id) && failures >= old(failures)
      ensures forall c :: c in currentSRIs[id].connections ==>
              c in old(currentSRIs)[id].connections || (c == connection && times > 0)
      ensures failures == old(failures) && times > 0 ==> connection in currentSRIs[id].connections
      ensures forall k :: k in received && (k !in old(received) || received[k] != old(received)[k]) ==>
                k == (connection, id) && times > 0
    {
      for i := 0 to times
        invariant Listed() && OnlyListed(id) && failures >= old(failures)
        invariant forall c :: c in currentSRIs[id].connections ==>
                  c in old(currentSRIs)[id].connections || (c == connection && i > 0)
        invariant failures == old(failures) && i > 0 ==> connection in currentSRIs[id].connections
        invariant forall k :: k in received && (k !in old(received) || received[k] != old(received)[k]) ==>
                    k == (connection, id) && i > 0
      {
        var _ := PushTo(connection, id);
      }
    }

    method PushToAll(id: string)
      requires Listed() && id in currentSRIs
      modifies `received, `failures, `currentSRIs
      ensures Listed() && OnlyListed(id) && failures >= old(failures)
      ensures forall c :: c in currentSRIs[id].connections ==>
              c in old(currentSRIs)[id].connections || c in outConnections
      ensures failures == old(failures) ==> forall c :: c in outConnections ==> c in currentSRIs[id].connections
      ensures forall k :: k in received && (k !in old(received) || received[k] != old(received)[k]) ==>
                k.1 == id && k.0 in outConnections
    {
      for i := 0 to |outConnections|
        invariant forall k :: k in received && (k !in old(received) || received[k] != old(received)[k]) ==>
                    k.1 == id && k.0 in outConnections
        invariant Listed() && OnlyListed(id) && failures >= old(failures)
        invariant forall c :: c in currentSRIs[id].connections ==>
                  c in old(currentSRIs)[id].connections || c in outConnections
        invariant failures == old(failures) ==> forall k :: 0 <= k < i ==>
                  outConnections[k] in currentSRIs[id].connections
      {
        var _ := PushTo(outConnections[i], id);
      }
    }

    // ---------- connections ----------

    /** connectPort. A refused attachment leaves it by an exception: the attachments made before
        stay, the connection is not added. Otherwise the port at the other end starts knowing
        nothing, unless the ID is in use already: then the first one of the ID stays the one that is
        spoken to. */
    method ConnectPort(connection: string, refuses: Refusals) returns (thrown: bool)
      requires Valid()
      modifies this
      ensures Valid() && filterTable == old(filterTable) && StreamIds() == old(StreamIds())
      ensures thrown <==> exists k :: 0 <= k < |old(streams)| && Refused(old(streams)[k], connection, refuses)
                                      && Routed(filterTable, name, old(streams)[k].id, connection)
      ensures thrown ==> outConnections == old(outConnections) && currentSRIs == old(currentSRIs)
      ensures thrown && old(Attached()) ==> AttachedBut(connection) && (Attached() <==> streams == old(streams))
      ensures !thrown ==> outConnections == old(outConnections) + [connection] && Grown(old(currentSRIs))
      ensures !thrown && old(Attached()) ==> Attached()
      ensures !thrown && failures == old(failures) ==> Complete()
      ensures !thrown ==>
                forall id, c :: Newly(old(currentSRIs), currentSRIs, id, c) ==> Reaches(id, c)
      ensures !thrown ==>
                forall k :: k in received && (k !in old(received) || received[k] != old(received)[k]) ==>
                  Reaches(k.1, k.0)
    {
      hide Right, RightBut, Added, Routed, Refused, Mentions, Reaches;
      ghost var before := streams;
      thrown := Attach(connection, refuses);
      if thrown {
        if old(Attached()) { LeftBehind(before, connection); }
        return;
      }
      if old(Attached()) {
        forall k | 0 <= k < |streams| ensures Right(streams[k], filterTable, name, outConnections + [connection]) {
          ConnectRight(before[k], streams[k], filterTable, name, outConnections, connection);
        }
      }
      if connection !in outConnections {
        received := map k | k in received && k.0 != connection :: received[k];
      }
      outConnections := outConnections + [connection];
      active := true;
      UpdateSriForAllConnections();
    }

    /** The state that a refused connection leaves. */
    lemma LeftBehind(before: seq<Stream>, connection: string)
      requires |before| == |streams|
      requires forall k :: 0 <= k < |before| ==> Right(before[k], filterTable, name, outConnections)
      requires forall k :: 0 <= k < |before| ==>
                 streams[k] == before[k]
                 || (streams[k] == Added(before[k], connection) && Routed(filterTable, name, before[k].id, connection))
      ensures AttachedBut(connection) && (Attached() <==> streams == before)
    {
      hide Right, RightBut, Added, Routed;
      forall k | 0 <= k < |streams|
        ensures RightBut(streams[k], filterTable, name, outConnections, connection)
        ensures Right(streams[k], filterTable, name, outConnections) <==> streams[k] == before[k]
      {
        ThrownRight(before[k], streams[k], filterTable, name, outConnections, connection);
      }
    }

    /** The part of connectPort that makes attachments. */
    method Attach(connection: string, refuses: Refusals) returns (thrown: bool)
      requires Distinct(streams)
      modifies `streams
      ensures |streams| == |old(streams)| && forall k :: 0 <= k < |streams| ==> streams[k].id == old(streams)[k].id
      ensures forall k :: 0 <= k < |streams| ==>
                streams[k] == old(streams)[k] || (streams[k] == Added(old(streams)[k], connection)
                                                  && Routed(filterTable, name, old(streams)[k].id, connection))
      ensures !thrown ==> forall k :: 0 <= k < |streams| ==>
                streams[k] == if Routed(filterTable, name, old(streams)[k].id, connection)
                              then Added(old(streams)[k], connection) else old(streams)[k]
      ensures thrown <==> exists k :: 0 <= k < |old(streams)| && Refused(old(streams)[k], connection, refuses)
                                      && Routed(filterTable, name, old(streams)[k].id, connection)
    {
      hide Refused, Mentions;
      var portListed;
      portListed, thrown := AttachListed(connection, refuses);
      if !thrown && !portListed {
        NoRowFor(connection);
        thrown := AddConnectionToAllStreams(connection, refuses);
      }
    }

    lemma NoRowFor(connection: string)
      requires !Mentions(filterTable, name)
      ensures forall id :: Row(name, connection, id) !in filterTable
    {
    }

    /** disconnectPort, of whatever connection ID. What was right but for that connection is right
        afterwards, unless a second one of the same ID stays that some stream is routed to. */
    method DisconnectPort(connection: string)
      requires Valid()
      modifies this
      ensures Valid() && filterTable == old(filterTable) && StreamIds() == old(StreamIds())
      ensures connection in outConnections <==> Twice(old(outConnections), connection)
      ensures forall c :: c != connection ==> (c in outConnections <==> c in old(outConnections))
      ensures received == old(received) && currentSRIs.Keys == old(currentSRIs).Keys
      ensures forall id :: id in currentSRIs ==>
                currentSRIs[id] == old(currentSRIs)[id].(connections := old(currentSRIs)[id].connections - {connection})
      ensures old(AttachedBut(connection)) ==>
                (Attached() <==> connection !in outConnections
                                 || forall k :: 0 <= k < |streams| ==>
                                    !Routed(filterTable, name, streams[k].id, connection))
    {
      hide Right, RightBut, Routed, Twice;
      ghost var before, connected := streams, outConnections;
      DetachFromAllStreams(connection);
      RemoveConnection(connection);
      if old(AttachedBut(connection)) {
        forall k | 0 <= k < |streams|
          ensures Right(streams[k], filterTable, name, outConnections)
                  <==> connection !in outConnections || !Routed(filterTable, name, streams[k].id, connection)
        {
          DisconnectRight(before[k], filterTable, name, connected, outConnections, connection);
        }
      }
      Unlist(connection);
      if |outConnections| == 0 {
        active := false;
      }
    }

    /** Attached everywhere is attached everywhere but at one connection. */
    lemma AttachedAnyway(connection: string)
      requires Attached()
      ensures AttachedBut(connection)
    {
    }

    /** The first connection of the ID goes. */
    method RemoveConnection(connection: string)
      modifies `outConnections
      ensures connection in outConnections <==> Twice(old(outConnections), connection)
      ensures forall c :: c != connection ==> (c in outConnections <==> c in old(outConnections))
      ensures outConnections != [] ==> old(outConnections) != []
    {
      ghost var was := outConnections;
      var i := 0;
      while i < |outConnections| && outConnections[i] != connection
        invariant i <= |outConnections| && connection !in outConnections[..i] && outConnections == was
      {
        i := i + 1;
      }
      FirstGone(was, i, connection);
      if i < |outConnections| {
        outConnections := outConnections[..i] + outConnections[i + 1..];
      }
    }

    /** The connection is dropped from every list of an SRI. */
    method Unlist(connection: string)
      modifies `currentSRIs
      ensures currentSRIs.Keys == old(currentSRIs).Keys
      ensures forall id :: id in currentSRIs ==>
                currentSRIs[id] == old(currentSRIs)[id].(connections := old(currentSRIs)[id].connections - {connection})
    {
      var left := currentSRIs.Keys;
      while left != {}
        invariant currentSRIs.Keys == old(currentSRIs).Keys && left <= currentSRIs.Keys
        invariant forall id :: id in left ==> currentSRIs[id] == old(currentSRIs)[id]
        invariant forall id :: id in currentSRIs && id !in left ==>
                    currentSRIs[id]
                        == old(currentSRIs)[id].(connections := old(currentSRIs)[id].connections - {connection})
        decreases |left|
      {
        var id :| id in left;
        left := left - {id};
        var entry := currentSRIs[id];
        currentSRIs := currentSRIs[id := entry.(connections := entry.connections - {connection})];
      }
    }

    /** The loop of connectPort over the filter table, up to the first row whose attachment is
        refused. */
    method AttachListed(connection: string, refuses: Refusals) returns (portListed: bool, thrown: bool)
      requires Distinct(streams)
      modifies `streams
      ensures !thrown ==> portListed == Mentions(filterTable, name)
      ensures |streams| == |old(streams)|
      ensures forall k :: 0 <= k < |streams| ==>
                streams[k] == old(streams)[k]
                || (streams[k] == Added(old(streams)[k], connection)
                    && Row(name, connection, old(streams)[k].id) in filterTable)
      ensures !thrown ==> forall k :: 0 <= k < |streams| ==>
                && streams[k] == (if Row(name, connection, old(streams)[k].id) in filterTable
                                  then Added(old(streams)[k], connection) else old(streams)[k])
                && (Row(name, connection, old(streams)[k].id) in filterTable ==>
                    !Refused(old(streams)[k], connection, refuses))
      ensures thrown ==> exists k :: 0 <= k < |streams| && Refused(old(streams)[k], connection, refuses)
                                     && Row(name, connection, old(streams)[k].id) in filterTable
    {
      hide Mentions, Refused;
      portListed, thrown := false, false;
      NoneMentioned(name);
      assert filterTable[..0] == [];
      for i := 0 to |filterTable|
        invariant portListed == Mentions(filterTable[..i], name)
        invariant |streams| == |old(streams)|
        invariant forall k :: 0 <= k < |streams| ==>
                    && streams[k] == (if Row(name, connection, old(streams)[k].id) in filterTable[..i]
                                      then Added(old(streams)[k], connection) else old(streams)[k])
                    && (Row(name, connection, old(streams)[k].id) in filterTable[..i] ==>
                          !Refused(old(streams)[k], connection, refuses))
      {
        var row := filterTable[i];
        assert filterTable[..i + 1] == filterTable[..i] + [row];
        MentionsNext(filterTable, i, name);
        if row.portName == name {
          portListed := true;
          if row.connectionId == connection {
            ghost var before := streams;
            thrown := AddConnectionToStream(connection, row.streamId, refuses);
            forall k | 0 <= k < |before| {
              RefusedStill(old(streams)[k], connection, refuses);
            }
            if thrown { return; }
          }
        }
      }
      assert filterTable[..|filterTable|] == filterTable;
    }

    // ---------- stream definitions ----------

    /** StreamContainer::removeStreamByStreamId, which goes through the whole list. */
    method RemoveStreamByStreamId(id: string)
      modifies `streams
      ensures forall s :: s in streams <==> s in old(streams) && s.id != id
      ensures Distinct(old(streams)) ==> Distinct(streams)
    {
      var i := 0;
      while i < |streams|
        invariant i <= |streams|
        invariant forall s :: s in streams ==> s in old(streams)
        invariant forall s :: s in old(streams) && s.id != id ==> s in streams
        invariant forall k :: 0 <= k < i ==> streams[k].id != id
        invariant Distinct(old(streams)) ==> Distinct(streams)
        decreases |streams| - i
      {
        if streams[i].id == id {
          streams := streams[..i] + streams[i + 1..];
        } else {
          i := i + 1;
        }
      }
    }

    /** removeStream. */
    method RemoveStream(id: string)
      requires Valid()
      modifies `streams
      ensures Valid() && (forall s :: s in streams <==> s in old(streams) && s.id != id)
      ensures old(Attached()) ==> Attached()
    {
      hide Right;
      RemoveStreamByStreamId(id);
      if old(Attached()) { StillAttached(old(streams)); }
    }

    lemma StillAttached(before: seq<Stream>)
      requires forall k :: 0 <= k < |before| ==> Right(before[k], filterTable, name, outConnections)
      requires forall s :: s in streams ==> s in before
      ensures Attached()
    {
      hide Right;
      forall k | 0 <= k < |streams| ensures Right(streams[k], filterTable, name, outConnections) {
        assert streams[k] in before;
      }
    }

    /** Nowhere that a stream of this ID is routed is its attachment refused. */
    ghost predicate Accepted(id: string, refuses: Refusals)
      reads `filterTable, `outConnections
    {
      forall c :: c in outConnections && Routed(filterTable, name, id, c) ==> (id, c) !in refuses
    }

    /** addStream. A stream ID that is taken is refused, and so is a stream one of whose attachments
        is. */
    method AddStream(id: string, refuses: Refusals) returns (added: bool)
      requires Valid()
      modifies `streams
      ensures Valid() && (old(Attached()) ==> Attached())
      ensures added <==> (forall k :: 0 <= k < |old(streams)| ==> old(streams)[k].id != id) && Accepted(id, refuses)
      ensures if added then |streams| == |old(streams)| + 1 && streams[..|old(streams)|] == old(streams)
                            && streams[|old(streams)|].id == id
                               && Right(streams[|old(streams)|], filterTable, name, outConnections)
              else streams == old(streams)
    {
      hide Right, Accepted;
      var i := FindByStreamId(id);
      if i < |streams| {
        return false;
      }
      var stream;
      stream, added := MakeAttachments(id, refuses);
      if added {
        streams := streams + [stream];
      }
    }

    /** The attachments of a new stream: the loops of addStream over connections and filter table,
        up to the first attachment that is refused. */
    method MakeAttachments(id: string, refuses: Refusals) returns (stream: Stream, ok: bool)
      ensures ok <==> Accepted(id, refuses)
      ensures ok ==> stream.id == id && Right(stream, filterTable, name, outConnections)
    {
      stream, ok := Stream(id, []), true;
      var portListed := false;
      for i := 0 to |outConnections|
        invariant stream.id == id && portListed == (i > 0 && Mentions(filterTable, name)) && ok
        invariant forall c :: c in stream.attachments <==> c in outConnections[..i] && Row(name, c, id) in filterTable
        invariant forall c :: c in outConnections[..i] && Row(name, c, id) in filterTable ==> (id, c) !in refuses
      {
        var c := outConnections[i];
        assert outConnections[..i + 1] == outConnections[..i] + [c];
        var times, listed := RowsFor(c, id);
        portListed := portListed || listed;
        if times > 0 && (id, c) in refuses {
          return stream, false;
        }
        stream := AttachTimes(stream, c, times);
      }
      assert outConnections[..|outConnections|] == outConnections;
      if !portListed {
        stream, ok := AttachAll(stream, refuses);
      }
    }

    /** How many rows list a connection and a stream ID, and whether any row mentions the port. */
    method RowsFor(connection: string, id: string) returns (times: nat, listed: bool)
      ensures times > 0 <==> Row(name, connection, id) in filterTable
      ensures listed == Mentions(filterTable, name)
    {
      times, listed := 0, false;
      for j := 0 to |filterTable|
        invariant times > 0 <==> Row(name, connection, id) in filterTable[..j]
        invariant listed == Mentions(filterTable[..j], name)
      {
        MentionsNext(filterTable, j, name);
        var row := filterTable[j];
        assert filterTable[..j + 1] == filterTable[..j] + [row];
        if row.portName == name {
          listed := true;
        }
        if row.portName == name && row.connectionId == connection && row.streamId == id {
          assert row == Row(name, connection, id);
          times := times + 1;
        }
      }
      assert filterTable[..|filterTable|] == filterTable;
    }

    /** One attachment for each row that lists the stream: a row listed twice attaches twice. */
    static method AttachTimes(s: Stream, connection: string, times: nat) returns (r: Stream)
      ensures r.id == s.id
      ensures forall c :: c in r.attachments <==> c in s.attachments || (c == connection && times > 0)
    {
      r := s;
      for i := 0 to times
        invariant r.id == s.id
        invariant forall c :: c in r.attachments <==> c in s.attachments || (c == connection && i > 0)
      {
        r := r.(attachments := r.attachments + [connection]);
      }
    }

    method AttachAll(s: Stream, refuses: Refusals) returns (r: Stream, ok: bool)
      ensures ok <==> forall c :: c in outConnections ==> (s.id, c) !in refuses
      ensures ok ==> r.id == s.id && forall c :: c in r.attachments <==> c in s.attachments || c in outConnections
    {
      r, ok := s, true;
      for i := 0 to |outConnections|
        invariant r.id == s.id && ok && forall c :: c in outConnections[..i] ==> (s.id, c) !in refuses
        invariant forall c :: c in r.attachments <==> c in s.attachments || c in outConnections[..i]
      {
        assert outConnections[..i + 1] == outConnections[..i] + [outConnections[i]];
        if (s.id, outConnections[i]) in refuses {
          return r, false;
        }
        r := r.(attachments := r.attachments + [outConnections[i]]);
      }
      assert outConnections[..|outConnections|] == outConnections;
    }

    /** updateStream: the stream is attached anew. When one of its attachments is refused it is gone. */
    method UpdateStream(id: string, refuses: Refusals) returns (updated: bool)
      requires Valid()
      modifies `streams
      ensures Valid() && (old(Attached()) ==> Attached())
      ensures updated <==> (exists k :: 0 <= k < |old(streams)| && old(streams)[k].id == id) && Accepted(id, refuses)
      ensures (forall k :: 0 <= k < |old(streams)| ==> old(streams)[k].id != id) ==> streams == old(streams)
      ensures forall s: Stream :: s.id != id ==> (s in streams <==> s in old(streams))
      ensures updated <==> exists s :: s in streams && s.id == id
      ensures updated ==> forall s :: s in streams && s.id == id ==> Right(s, filterTable, name, outConnections)
    {
      hide Right, Accepted;
      var i := FindByStreamId(id);
      if i == |streams| {
        return false;
      }
      RemoveStream(id);
      ghost var others := streams;
      updated := AddStream(id, refuses);
      if updated {
        assert streams == others + [streams[|others|]];
        assert streams[|others|] in streams;
      }
    }

    // ---------- the filter table ----------

    /** updateConnectionFilter. A table that mentions the port passes over the attachments that are
        refused; one that does not is left by an exception at the first. Either way the attachment
        table becomes the new routing relation exactly when none is refused. */
    method UpdateConnectionFilter(table: seq<Row>, refuses: Refusals) returns (thrown: bool)
      requires Valid()
      modifies this
      ensures Valid() && filterTable == table && outConnections == old(outConnections)
              && StreamIds() == old(StreamIds())
      ensures thrown <==> !Mentions(table, name) && !NoneRefused(old(streams), refuses)
      ensures Mentions(table, name) ==> Filtered(old(streams), refuses)
      ensures old(Attached()) ==> (Attached() <==> NoneRefused(old(streams), refuses))
      ensures thrown ==> currentSRIs == old(currentSRIs)
      ensures !thrown ==> Grown(old(currentSRIs)) && (failures == old(failures) ==> Complete())
      ensures !thrown ==>
                forall id, c :: Newly(old(currentSRIs), currentSRIs, id, c) ==> Reaches(id, c)
      ensures forall k :: k in received && (k !in old(received) || received[k] != old(received)[k]) ==>
              Reaches(k.1, k.0)
    {
      hide Right, Mentions, Filtered, NoneRefused, Reaches;
      filterTable := table;
      thrown := Refilter(old(filterTable), refuses);
      if !thrown {
        UpdateSriForAllConnections();
      }
    }

    /** Each stream is attached where it is routed, but for new attachments that are refused. */
    ghost predicate Filtered(before: seq<Stream>, refuses: Refusals)
      reads `streams, `filterTable, `outConnections
    {
      |streams| == |before| &&
      forall k :: 0 <= k < |before| ==>
        streams[k].id == before[k].id && Spared(before[k], streams[k], filterTable, name, outConnections, refuses)
    }

    /** The part of updateConnectionFilter that makes and drops attachments. */
    method Refilter(ghost was: seq<Row>, refuses: Refusals) returns (thrown: bool)
      requires Distinct(streams)
      modifies `streams
      ensures |streams| == |old(streams)| && forall k :: 0 <= k < |streams| ==> streams[k].id == old(streams)[k].id
      ensures thrown <==> !Mentions(filterTable, name) && !NoneRefused(old(streams), refuses)
      ensures Mentions(filterTable, name) ==> Filtered(old(streams), refuses)
      ensures (forall k :: 0 <= k < |old(streams)| ==> Right(old(streams)[k], was, name, outConnections)) ==>
                (Attached() <==> NoneRefused(old(streams), refuses))
    {
      hide Right, Mentions, HasStream, Routed, Expects, StreamHasRow, NoneRefused, Spared, Reached, Everywhere,
           Refused, RefusedOne;
      ghost var before := streams;
      var hasPortEntry, expected, streamsFound := ScanFilter();
      ApplyExpected(expected, refuses);
      ghost var applied := streams;
      SameStreams(before, applied);
      thrown := false;
      if hasPortEntry {
        DetachUnfound(streamsFound);
        forall k | 0 <= k < |streams|
          ensures Spared(before[k], streams[k], filterTable, name, outConnections, refuses)
        {
          OwnStream(before, k);
          FilteredRight(before[k], applied[k], streams[k], filterTable, name, outConnections, expected, streamsFound,
                        refuses);
        }
        SparedAll(before, refuses);
      } else {
        assert applied == before;
        thrown := AttachEverywhere(refuses);
        EverywhereRefused(before, refuses, thrown);
        if forall k :: 0 <= k < |before| ==> Right(before[k], was, name, outConnections) {
          EverywhereRight(before, was, refuses);
        }
      }
    }

    lemma EverywhereRefused(before: seq<Stream>, refuses: Refusals, thrown: bool)
      requires |streams| == |before| && !Mentions(filterTable, name)
      requires !thrown ==> forall k :: 0 <= k < |before| ==> Everywhere(before[k], streams[k], outConnections, refuses)
      requires thrown ==> exists c :: c in outConnections && RefusedOne(before, c, refuses)
      ensures thrown <==> !NoneRefused(before, refuses)
      ensures !thrown ==> forall k :: 0 <= k < |before| ==> Everywhere(before[k], streams[k], outConnections, refuses)
    {
      hide Mentions, Refused;
      if thrown {
        var c :| c in outConnections && RefusedOne(before, c, refuses);
        var k :| 0 <= k < |before| && Refused(before[k], c, refuses);
        assert Routed(filterTable, name, before[k].id, c);
      } else {
        forall k, c | 0 <= k < |before| && c in outConnections ensures !Refused(before[k], c, refuses) {
          assert Everywhere(before[k], streams[k], outConnections, refuses);
        }
      }
    }

    lemma SparedAll(before: seq<Stream>, refuses: Refusals)
      requires |streams| == |before|
      requires forall k :: 0 <= k < |before| ==>
                 && streams[k].id == before[k].id
                 && Spared(before[k], streams[k], filterTable, name, outConnections, refuses)
      ensures Attached() <==> NoneRefused(before, refuses)
    {
      hide Routed;
      if Attached() {
        forall k, c | 0 <= k < |before| && c in outConnections && Routed(filterTable, name, before[k].id, c)
          ensures !Refused(before[k], c, refuses)
        {
          assert Right(streams[k], filterTable, name, outConnections);
          assert c in streams[k].attachments;
        }
      }
    }

    lemma EverywhereRight(before: seq<Stream>, was: seq<Row>, refuses: Refusals)
      requires |streams| == |before| && !Mentions(filterTable, name)
      requires forall k :: 0 <= k < |before| ==> Right(before[k], was, name, outConnections)
      requires forall k :: 0 <= k < |before| ==> Reached(before[k], streams[k], outConnections, refuses)
      requires NoneRefused(before, refuses) ==>
                 forall k :: 0 <= k < |before| ==> Everywhere(before[k], streams[k], outConnections, refuses)
      ensures Attached() <==> NoneRefused(before, refuses)
    {
      hide Mentions;
      if NoneRefused(before, refuses) {
        forall k | 0 <= k < |before| ensures Right(streams[k], filterTable, name, outConnections) {
          assert Everywhere(before[k], streams[k], outConnections, refuses);
          assert Reached(before[k], streams[k], outConnections, refuses);
          UnfilteredRight(before[k], streams[k], was, filterTable, name, outConnections);
        }
      } else {
        var k, c :| 0 <= k < |before| && c in outConnections && Routed(filterTable, name, before[k].id, c)
                    && Refused(before[k], c, refuses);
        assert Reached(before[k], streams[k], outConnections, refuses);
        assert c !in streams[k].attachments;
        assert !Right(streams[k], filterTable, name, outConnections);
      }
    }

    /** The scan of the new table: for each stream that has a row for a live connection, the
        connections its rows name, and which of the streams there are have any. */
    method ScanFilter()
        returns (hasPortEntry: bool, expected: map<string, seq<string>>, streamsFound: map<string, bool>)
      ensures hasPortEntry == Mentions(filterTable, name)
      ensures forall id :: id in streamsFound <==> HasStream(streams, id)
      ensures forall id :: id in streamsFound ==> (streamsFound[id] <==> id in expected)
      ensures forall id :: id in expected ==> HasStream(streams, id)
      ensures !hasPortEntry ==> expected == map[]
      ensures forall id, c :: Expects(expected, id, c) <==>
                HasStream(streams, id) && c in outConnections && Row(name, c, id) in filterTable
    {
      hide HasStream, Mentions;
      hasPortEntry, expected := false, map[];
      streamsFound := KnownStreams();
      NoneMentioned(name);
      assert filterTable[..0] == [];
      for j := 0 to |filterTable|
        invariant hasPortEntry == Mentions(filterTable[..j], name) && (!hasPortEntry ==> expected == map[])
        invariant forall id :: id in streamsFound <==> HasStream(streams, id)
        invariant forall id :: id in streamsFound ==> (streamsFound[id] <==> id in expected)
        invariant forall id :: id in expected ==> HasStream(streams, id)
        invariant forall id, c :: Expects(expected, id, c) <==>
                    HasStream(streams, id) && c in outConnections && Row(name, c, id) in filterTable[..j]
      {
        MentionsNext(filterTable, j, name);
        var row := filterTable[j];
        assert filterTable[..j + 1] == filterTable[..j] + [row];
        if row.portName == name {
          hasPortEntry := true;
          if row.connectionId in outConnections {
            var i := FindByStreamId(row.streamId);
            FoundStream(streams, i, row.streamId);
            if i < |streams| {
              streamsFound := streamsFound[row.streamId := true];
              var known := if row.streamId in expected then expected[row.streamId] else [];
              expected := expected[row.streamId := known + [row.connectionId]];
            }
          }
        }
      }
      assert filterTable[..|filterTable|] == filterTable;
    }

    method KnownStreams() returns (found: map<string, bool>)
      ensures forall id :: id in found <==> HasStream(streams, id)
      ensures forall id :: id in found ==> !found[id]
    {
      found := map[];
      for i := 0 to |streams|
        invariant forall id :: id in found <==> exists k :: 0 <= k < i && streams[k].id == id
        invariant forall id :: id in found ==> !found[id]
      {
        found := found[streams[i].id := false];
      }
    }

    /** updateAttachments on each stream with rows. */
    method ApplyExpected(expected: map<string, seq<string>>, refuses: Refusals)
      requires Distinct(streams) && forall id :: id in expected ==> HasStream(streams, id)
      modifies `streams
      ensures |streams| == |old(streams)|
      ensures forall k :: 0 <= k < |streams| ==> Applied(old(streams)[k], streams[k], expected, refuses, expected.Keys)
    {
      hide HasStream;
      var left := expected.Keys;
      while left != {}
        invariant |streams| == |old(streams)| && left <= expected.Keys
        invariant forall k :: 0 <= k < |streams| ==>
                  Applied(old(streams)[k], streams[k], expected, refuses, expected.Keys - left)
        decreases |left|
      {
        var id :| id in left;
        left := left - {id};
        var i := FindByStreamId(id);
        if i < |streams| {
          var stream := UpdateAttachments(streams[i], expected[id], set p | p in refuses && p.0 == id :: p.1);
          streams := streams[i := stream];
        }
      }
    }

    /** The streams with no row lose their attachments. */
    method DetachUnfound(streamsFound: map<string, bool>)
      requires Distinct(streams) && forall id :: id in streamsFound <==> HasStream(streams, id)
      modifies `streams
      ensures |streams| == |old(streams)|
      ensures forall k :: 0 <= k < |streams| ==>
                streams[k] == if StreamHasRow(streamsFound, old(streams)[k].id) then old(streams)[k]
                              else old(streams)[k].(attachments := [])
    {
      hide HasStream;
      ghost var was := streams;
      forall k | 0 <= k < |was| ensures was[k].id in streamsFound { OwnStream(was, k); }
      var left := streamsFound.Keys;
      while left != {}
        invariant |streams| == |was| && left <= streamsFound.Keys
        invariant forall k :: 0 <= k < |streams| ==>
                    streams[k] == if was[k].id in left || StreamHasRow(streamsFound, was[k].id) then was[k]
                                  else was[k].(attachments := [])
        decreases |left|
      {
        var id :| id in left;
        left := left - {id};
        if !streamsFound[id] {
          var i := FindByStreamId(id);
          if i < |streams| {
            streams := streams[i := streams[i].(attachments := [])];
          }
        }
      }
    }

    /** Every connection to every stream, up to the first attachment that is refused. */
    method AttachEverywhere(refuses: Refusals) returns (thrown: bool)
      modifies `streams
      ensures |streams| == |old(streams)| && forall k :: 0 <= k < |streams| ==> streams[k].id == old(streams)[k].id
      ensures forall k :: 0 <= k < |streams| ==> Reached(old(streams)[k], streams[k], outConnections, refuses)
      ensures !thrown ==> forall k :: 0 <= k < |streams| ==>
              Everywhere(old(streams)[k], streams[k], outConnections, refuses)
      ensures thrown ==> exists c :: c in outConnections && RefusedOne(old(streams), c, refuses)
    {
      hide Reached, Everywhere, Refused, RefusedOne;
      ghost var was := streams;
      thrown := false;
      forall k | 0 <= k < |was| { EverywhereNone(was[k], refuses); }
      assert outConnections[..0] == [];
      for i := 0 to |outConnections|
        invariant |streams| == |was| && forall k :: 0 <= k < |streams| ==> streams[k].id == was[k].id
        invariant forall k :: 0 <= k < |streams| ==> Reached(was[k], streams[k], outConnections[..i], refuses)
        invariant forall k :: 0 <= k < |streams| ==> Everywhere(was[k], streams[k], outConnections[..i], refuses)
      {
        assert outConnections[..i + 1] == outConnections[..i] + [outConnections[i]];
        ghost var before := streams;
        thrown := AddConnectionToAllStreams(outConnections[i], refuses);
        forall k | 0 <= k < |was| {
          EverywhereNext(was[k], before[k], streams[k], outConnections[..i], outConnections[i], refuses);
        }
        if thrown {
          RefusedEarlier(was, before, outConnections[..i], outConnections[i], refuses);
          forall k | 0 <= k < |was| { ReachedMore(was[k], streams[k], outConnections, i + 1, refuses); }
          return;
        }
      }
      assert outConnections[..|outConnections|] == outConnections;
    }
  }

  /** A stream has got nothing but connections of these that are not refused. */
  ghost predicate Reached(before: Stream, after: Stream, connections: seq<string>, refuses: Refusals) {
    && after.id == before.id
    && (forall c :: c in before.attachments ==> c in after.attachments)
    && (forall c :: c in after.attachments && c !in before.attachments ==>
        c in connections && !Refused(before, c, refuses))
  }

  /** A stream has got all of these connections, and none of them was refused. */
  ghost predicate Everywhere(before: Stream, after: Stream, connections: seq<string>, refuses: Refusals) {
    forall c :: c in connections ==> c in after.attachments && !Refused(before, c, refuses)
  }

  ghost predicate RefusedOne(streams: seq<Stream>, connection: string, refuses: Refusals) {
    exists k :: 0 <= k < |streams| && Refused(streams[k], connection, refuses)
  }

  lemma EverywhereNone(s: Stream, refuses: Refusals)
    ensures Reached(s, s, [], refuses) && Everywhere(s, s, [], refuses)
  {
  }

  lemma EverywhereNext(was: Stream, s: Stream, t: Stream, connections: seq<string>, c: string, refuses: Refusals)
    requires Reached(was, s, connections, refuses)
    requires t == s || (t == Added(s, c) && !Refused(s, c, refuses))
    ensures Reached(was, t, connections + [c], refuses)
    ensures t == Added(s, c) && !Refused(s, c, refuses) && Everywhere(was, s, connections, refuses) ==>
              Everywhere(was, t, connections + [c], refuses)
  {
  }

  lemma ReachedMore(was: Stream, s: Stream, connections: seq<string>, n: nat, refuses: Refusals)
    requires n <= |connections| && Reached(was, s, connections[..n], refuses)
    ensures Reached(was, s, connections, refuses)
  {
  }

  lemma RefusedEarlier(was: seq<Stream>, streams: seq<Stream>, connections: seq<string>, c: string, refuses: Refusals)
    requires |was| == |streams| && RefusedOne(streams, c, refuses)
    requires forall k :: 0 <= k < |was| ==> Reached(was[k], streams[k], connections, refuses)
    ensures RefusedOne(was, c, refuses)
  {
    var k :| 0 <= k < |streams| && Refused(streams[k], c, refuses);
    assert Reached(was[k], streams[k], connections, refuses);
    assert Refused(was[k], c, refuses);
  }

  /** The attachment would be made now, and is refused. */
  predicate Refused(s: Stream, connection: string, refuses: Refusals) {
    connection !in s.attachments && (s.id, connection) in refuses
  }

  /** A stream that has got the connection now has it not refused. */
  lemma RefusedStill(s: Stream, connection: string, refuses: Refusals)
    ensures !Refused(Added(s, connection), connection, refuses)
    ensures Added(s, connection).id == s.id && Added(Added(s, connection), connection) == Added(s, connection)
  {
  }

  /** The connection is listed for the stream ID, and was not before. */
  predicate Newly(was: map<string, Entry>, now: map<string, Entry>, id: string, c: string) {
    id in was && id in now && c in now[id].connections && c !in was[id].connections
  }

  lemma NewlyTwice(was: map<string, Entry>, mid: map<string, Entry>, now: map<string, Entry>, id: string, c: string)
    requires id in mid && Newly(was, now, id, c)
    ensures Newly(was, mid, id, c) || Newly(mid, now, id, c)
  {
  }

  /** The connection ID occurs more than once. */
  ghost predicate Twice(connections: seq<string>, c: string) {
    exists i, j :: 0 <= i < j < |connections| && connections[i] == c && connections[j] == c
  }

  lemma FirstGone(was: seq<string>, i: nat, c: string)
    requires i <= |was| && c !in was[..i] && (i < |was| ==> was[i] == c)
    ensures var left := if i < |was| then was[..i] + was[i + 1..] else was;
            && (c in left <==> Twice(was, c)) && forall x :: x != c ==> (x in left <==> x in was)
  {
    var left := if i < |was| then was[..i] + was[i + 1..] else was;
    if i < |was| {
      assert was == was[..i] + [was[i]] + was[i + 1..];
      if c in was[i + 1..] {
        var j :| 0 <= j < |was| - i - 1 && was[i + 1..][j] == c;
        assert was[i + 1 + j] == c;
      }
      if Twice(was, c) {
        var k, j :| 0 <= k < j < |was| && was[k] == c && was[j] == c;
        assert k >= i by { assert forall m :: 0 <= m < i ==> was[..i][m] == was[m]; }
        assert was[i + 1..][j - i - 1] == c;
      }
    } else {
      assert was[..i] == was;
    }
  }

  /** The stream is attached where it is routed, unless that would have been new and was refused. */
  ghost predicate Spared(s: Stream, t: Stream, table: seq<Row>, port: string, connections: seq<string>,
                         refuses: Refusals) {
    forall c :: c in t.attachments <==>
      c in connections && Routed(table, port, s.id, c) && (c in s.attachments || (s.id, c) !in refuses)
  }

  ghost predicate StreamHasRow(streamsFound: map<string, bool>, id: string) { id in streamsFound && streamsFound[id] }

  lemma SameStreams(before: seq<Stream>, after: seq<Stream>)
    requires |before| == |after| && forall k :: 0 <= k < |before| ==> after[k].id == before[k].id
    ensures Distinct(before) ==> Distinct(after)
    ensures forall id :: HasStream(before, id) <==> HasStream(after, id)
  {
    forall id ensures HasStream(before, id) <==> HasStream(after, id) {
      if HasStream(before, id) { var k :| 0 <= k < |before| && before[k].id == id; assert after[k].id == id; }
      if HasStream(after, id) { var k :| 0 <= k < |after| && after[k].id == id; assert before[k].id == id; }
    }
  }

  lemma OwnStream(streams: seq<Stream>, k: nat)
    requires k < |streams|
    ensures HasStream(streams, streams[k].id)
  {
  }

  /** A stream that has been given its expected attachments, or has lost all for want of a row. */
  lemma FilteredRight(s: Stream, applied: Stream, t: Stream, table: seq<Row>, port: string, connections: seq<string>,
                      expected: map<string, seq<string>>, found: map<string, bool>, refuses: Refusals)
    requires Mentions(table, port) && s.id in found && (found[s.id] <==> s.id in expected)
    requires forall c :: Expects(expected, s.id, c) <==> c in connections && Row(port, c, s.id) in table
    requires Applied(s, applied, expected, refuses, expected.Keys)
    requires t == if StreamHasRow(found, s.id) then applied else applied.(attachments := [])
    ensures Spared(s, t, table, port, connections, refuses)
  {
    hide Mentions;
    forall c ensures c in t.attachments <==>
        c in connections && Row(port, c, s.id) in table && (c in s.attachments || (s.id, c) !in refuses)
    {
      assert Expects(expected, s.id, c) <==> c in connections && Row(port, c, s.id) in table;
    }
  }

  /** A stream that has been attached to every connection because the port is not mentioned. */
  lemma UnfilteredRight(s: Stream, t: Stream, was: seq<Row>, table: seq<Row>, port: string, connections: seq<string>)
    requires Right(s, was, port, connections) && !Mentions(table, port) && t.id == s.id
    requires forall c :: c in t.attachments <==> c in s.attachments || c in connections
    ensures Right(t, table, port, connections)
  {
    hide Mentions;
  }

  ghost predicate HasStream(streams: seq<Stream>, id: string) {
    exists k :: 0 <= k < |streams| && streams[k].id == id
  }

  ghost predicate Expects(expected: map<string, seq<string>>, id: string, c: string) {
    id in expected && c in expected[id]
  }

  /** The stream has the attachments expected, if its ID is among those done. */
  ghost predicate Applied(before: Stream, after: Stream, expected: map<string, seq<string>>, refuses: Refusals,
                          done: set<string>)
    requires done <= expected.Keys
  {
    && after.id == before.id
    && if before.id in done
       then forall c :: c in after.attachments <==>
              c in expected[before.id] && (c in before.attachments || (before.id, c) !in refuses)
       else after == before
  }

  lemma FoundStream(streams: seq<Stream>, i: nat, id: string)
    requires i <= |streams| && (i < |streams| ==> streams[i].id == id)
    requires i == |streams| ==> forall k :: 0 <= k < |streams| ==> streams[k].id != id
    ensures HasStream(streams, id) <==> i < |streams|
  {
  }

  ghost predicate Distinct(streams: seq<Stream>) {
    forall i, j :: 0 <= i < j < |streams| ==> streams[i].id != streams[j].id
  }

  lemma {:induction false} NothingLeft(attachments: seq<string>, connection: string)
    requires connection !in attachments
    ensures Left(attachments, connection) == attachments
  {
    if attachments != [] {
      assert attachments == [attachments[0]] + attachments[1..];
      NothingLeft(attachments[1..], connection);
    }
  }
}
