/** The connection filter table of an output port. */
module Filters {
  /** connection_descriptor_struct. */
  datatype Row = Row(portName: string, connectionId: string, streamId: string)

  predicate Mentions(table: seq<Row>, port: string) {
    exists k :: 0 <= k < |table| && table[k].portName == port
  }

  lemma NoneMentioned(port: string)
    ensures !Mentions([], port)
  {
  }

  lemma MentionsNext(table: seq<Row>, i: nat, port: string)
    requires i < |table|
    ensures Mentions(table[..i + 1], port) <==> Mentions(table[..i], port) || table[i].portName == port
  {
    var next := table[..i + 1];
    if Mentions(table[..i], port) {
      var k :| 0 <= k < i && table[..i][k].portName == port;
      assert next[k].portName == port;
    }
    if table[i].portName == port { assert next[i].portName == port; }
    if Mentions(next, port) && table[i].portName != port {
      var k :| 0 <= k < |next| && next[k].portName == port;
      assert table[..i][k].portName == port;
    }
  }

  /** A port that the table does not mention is not filtered; otherwise only what is listed passes. */
  predicate Routed(table: seq<Row>, port: string, stream: string, connection: string) {
    !Mentions(table, port) || Row(port, connection, stream) in table
  }

  /** OutPort::_isStreamRoutedToConnection. */
  method IsStreamRoutedToConnection(table: seq<Row>, port: string, stream: string, connection: string)
      returns (routed: bool)
    ensures routed == Routed(table, port, stream, connection)
    ensures routed <==> (forall k :: 0 <= k < |table| ==> table[k].portName != port)
                        || exists k :: 0 <= k < |table| && table[k].portName == port
                                       && table[k].connectionId == connection && table[k].streamId == stream
  {
    var portListed := false;
    for i := 0 to |table|
      invariant portListed <==> exists k :: 0 <= k < i && table[k].portName == port
      invariant forall k :: 0 <= k < i ==> table[k] != Row(port, connection, stream)
    {
      if table[i].portName == port {
        portListed := true;
        if table[i].connectionId == connection && table[i].streamId == stream {
          assert table[i] == Row(port, connection, stream);
          return true;
        }
      }
    }
    return !portListed;
  }
}
