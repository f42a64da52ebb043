/** The attachments of the streams of an attachable port, as values. */
module Attachments {
  import opened Filters

  /** A stream definition and the connection IDs of its attachments, in the order they were made. */
  datatype Stream = Stream(id: string, attachments: seq<string>)

  /** createNewAttachment, unless the connection has one. */
  function Added(s: Stream, connection: string): Stream {
    if connection in s.attachments then s else s.(attachments := s.attachments + [connection])
  }

  /** What is left when a connection's attachments go. */
  function Left(attachments: seq<string>, connection: string): seq<string> {
    if attachments == [] then []
    else (if attachments[0] == connection then [] else [attachments[0]]) + Left(attachments[1..], connection)
  }

  lemma {:induction false} LeftHas(attachments: seq<string>, connection: string, c: string)
    ensures c in Left(attachments, connection) <==> c in attachments && c != connection
  {
    if attachments != [] {
      LeftHas(attachments[1..], connection, c);
      assert attachments == [attachments[0]] + attachments[1..];
    }
  }

  /** The stream is attached exactly where it is routed. */
  ghost predicate Right(s: Stream, table: seq<Row>, port: string, connections: seq<string>) {
    forall c :: c in s.attachments <==> c in connections && Routed(table, port, s.id, c)
  }

  /** The attachments that a port's connections refuse, by stream ID and connection ID. */
  type Refusals = set<(string, string)>

  /** The stream is attached exactly where it is routed, one connection left aside. */
  ghost predicate RightBut(s: Stream, table: seq<Row>, port: string, connections: seq<string>, aside: string) {
    forall c :: c != aside ==> (c in s.attachments <==> c in connections && Routed(table, port, s.id, c))
  }

  /** What a new connection adds to a stream keeps it right. */
  lemma ConnectRight(s: Stream, t: Stream, table: seq<Row>, port: string, connections: seq<string>, c: string)
    requires Right(s, table, port, connections)
    requires t == if Routed(table, port, s.id, c) then Added(s, c) else s
    ensures Right(t, table, port, connections + [c])
  {
    hide Mentions;
  }

  /** A connection that cannot be made leaves nothing wrong but its own attachments, and those are
      wrong exactly when there are any. */
  lemma ThrownRight(s: Stream, t: Stream, table: seq<Row>, port: string, connections: seq<string>, c: string)
    requires Right(s, table, port, connections) && (t == s || t == Added(s, c))
    requires t != s ==> Routed(table, port, s.id, c)
    ensures RightBut(t, table, port, connections, c)
    ensures Right(t, table, port, connections) <==> t == s
  {
    hide Mentions;
    if t != s { assert c in t.attachments && c !in s.attachments; }
  }

  /** When a connection goes, what was right but for it is right: unless another one of the same ID
      stays to which the stream is routed. */
  lemma DisconnectRight(s: Stream, table: seq<Row>, port: string, before: seq<string>, after: seq<string>, c: string)
    requires RightBut(s, table, port, before, c) && (forall x :: x != c ==> (x in after <==> x in before))
    ensures Right(s.(attachments := Left(s.attachments, c)), table, port, after)
            <==> c !in after || !Routed(table, port, s.id, c)
  {
    hide Routed;
    forall x { LeftHas(s.attachments, c, x); }
  }

  /** Stream::detachByConnectionId. */
  method DetachByConnectionId(s: Stream, connection: string) returns (r: Stream)
    ensures r == s.(attachments := Left(s.attachments, connection))
    ensures forall c :: c in r.attachments <==> c in s.attachments && c != connection
  {
    var attachments, i := s.attachments, 0;
    ghost var kept: seq<string> := [];
    while i < |attachments|
      invariant i <= |attachments| && i == |kept|
      invariant attachments[..i] == kept
      invariant Left(s.attachments, connection) == kept + Left(attachments[i..], connection)
      decreases |attachments| - i
    {
      assert attachments[i..] == [attachments[i]] + attachments[i + 1..];
      if attachments[i] == connection {
        assert (attachments[..i] + attachments[i + 1..])[i..] == attachments[i + 1..];
        attachments := attachments[..i] + attachments[i + 1..];
      } else {
        kept := kept + [attachments[i]];
        i := i + 1;
      }
    }
    assert attachments[i..] == [] && attachments[..i] == attachments;
    r := s.(attachments := attachments);
    forall c { LeftHas(s.attachments, connection, c); }
  }

  /** Stream::updateAttachments: afterwards the stream is attached to exactly the connections
      expected, but for those that refuse a new attachment. */
  method UpdateAttachments(s: Stream, expected: seq<string>, refusing: set<string>) returns (r: Stream)
    ensures r.id == s.id
    ensures forall c :: c in r.attachments <==> c in expected && (c in s.attachments || c !in refusing)
  {
    r := s;
    var valid: seq<string> := [];
    for i := 0 to |expected|
      invariant r.id == s.id
      invariant forall c :: c in valid <==> c in expected[..i] && (c in s.attachments || c !in refusing)
      invariant forall c :: c in r.attachments <==> c in s.attachments || c in valid
    {
      assert expected[..i + 1] == expected[..i] + [expected[i]];
      var validConnection := expected[i] in r.attachments;
      if !validConnection && expected[i] !in refusing {
        r := Added(r, expected[i]);
        validConnection := true;
      }
      if validConnection {
        valid := valid + [expected[i]];
      }
    }
    assert expected[..|expected|] == expected;
    r := DetachOthers(r, valid);
  }

  /** The second half of updateAttachments: find what has to go, then detach it. */
  method DetachOthers(s: Stream, expected: seq<string>) returns (r: Stream)
    ensures r.id == s.id
    ensures forall c :: c in r.attachments <==> c in s.attachments && c in expected
  {
    var remove := Others(s.attachments, expected);
    r := s;
    for i := 0 to |remove|
      invariant r.id == s.id
      invariant forall c :: c in r.attachments <==> c in s.attachments && c !in remove[..i]
    {
      assert remove[..i + 1] == remove[..i] + [remove[i]];
      r := DetachByConnectionId(r, remove[i]);
    }
    assert remove[..|remove|] == remove;
  }

  method Others(attachments: seq<string>, expected: seq<string>) returns (remove: seq<string>)
    ensures forall c :: c in remove <==> c in attachments && c !in expected
  {
    remove := [];
    for i := 0 to |attachments|
      invariant forall c :: c in remove <==> c in attachments[..i] && c !in expected
    {
      assert attachments[..i + 1] == attachments[..i] + [attachments[i]];
      if attachments[i] !in expected {
        remove := remove + [attachments[i]];
      }
    }
    assert attachments[..|attachments|] == attachments;
  }
}
