/** One outgoing connection: what the transport remembers, what has reached the other end, and
    what the remote calls still to come will do. */
module Wire {
  import opened BulkioTypes
  import opened PrecisionTime
  import opened Chunking

  /** How a remote call ends. A call that does not end well is taken not to have been received. */
  datatype Outcome = Delivered | TimedOut | Fatal

  /** versions is _sriVersions. script is how the remote calls to come will end, and log what the
      other end has received. */
  datatype Conn = Conn(versions: map<string, int>, alive: bool, log: seq<Message>, script: seq<Outcome>)

  function Coming(c: Conn): Outcome { if c.script == [] then Delivered else c.script[0] }

  /** One remote call. */
  function Remote(c: Conn, m: Message): Conn {
    c.(log := if Coming(c) == Delivered then c.log + [m] else c.log,
       script := if c.script == [] then [] else c.script[1..])
  }

  /** OutputTransport::pushSRI sends nothing when the connection has this version already. */
  predicate Known(c: Conn, id: string, version: int) {
    id in c.versions && c.versions[id] == version
  }

  /** Any failure of a remote pushSRI is a fatal one. */
  function SriOutcome(c: Conn, id: string, version: int): Outcome {
    if Known(c, id, version) || Coming(c) == Delivered then Delivered else Fatal
  }

  /** The version is recorded before the remote call, so a failed call leaves it recorded. */
  function PushSri(c: Conn, id: string, sri: Sri, version: int): Conn {
    if Known(c, id, version) then c
    else Remote(c.(versions := c.versions[id := version]), SriMessage(sri))
  }

  /** The pushes of a packet, up to the first that fails. */
  function PushAll(c: Conn, ms: seq<Message>): Conn
    decreases |ms|
  {
    if ms == [] then c
    else if Coming(c) != Delivered then Remote(c, ms[0])
    else PushAll(Remote(c, ms[0]), ms[1..])
  }

  function PushAllOutcome(c: Conn, ms: seq<Message>): Outcome
    decreases |ms|
  {
    if ms == [] then Delivered
    else if Coming(c) != Delivered then Coming(c)
    else PushAllOutcome(Remote(c, ms[0]), ms[1..])
  }

  /** A stream that has ended is forgotten, once its end-of-stream has been delivered. */
  function Forget(c: Conn, id: string): Conn { c.(versions := c.versions - {id}) }

  function PushPacket(c: Conn, ms: seq<Message>, EOS: bool, id: string): Conn {
    var sent := PushAll(c, ms);
    if PushAllOutcome(c, ms) == Delivered && EOS then Forget(sent, id) else sent
  }

  /** What one packet does to one connection in OutPort::_sendPacket: a fatal failure marks the
      connection dead, any other is passed over. */
  function Send(c: Conn, id: string, sri: Sri, version: int, ms: seq<Message>, EOS: bool): Conn {
    if !c.alive then c
    else
      var told := PushSri(c, id, sri, version);
      if SriOutcome(c, id, version) != Delivered then told.(alive := false)
      else
        var sent := PushPacket(told, ms, EOS, id);
        if PushAllOutcome(told, ms) == Fatal then sent.(alive := false) else sent
  }

  /** How many of the next n calls get through before one fails. */
  function GotThrough(script: seq<Outcome>, n: nat): (j: nat)
    ensures j <= n
  {
    if n == 0 || script == [] then n else if script[0] != Delivered then 0 else 1 + GotThrough(script[1..], n - 1)
  }

  lemma {:induction false} GotThroughIs(script: seq<Outcome>, n: nat)
    ensures forall i :: 0 <= i < GotThrough(script, n) && i < |script| ==> script[i] == Delivered
    ensures GotThrough(script, n) < n ==>
              GotThrough(script, n) < |script| && script[GotThrough(script, n)] != Delivered
  {
    if n > 0 && script != [] && script[0] == Delivered {
      var rest := script[1..];
      GotThroughIs(rest, n - 1);
      forall i | 0 < i < GotThrough(script, n) && i < |script| ensures script[i] == Delivered {
        assert script[i] == rest[i - 1];
      }
    }
  }

  /** What is left of the script when j calls got through and the next, if there is one, failed. */
  function Unplayed(script: seq<Outcome>, j: nat, n: nat): seq<Outcome> {
    var calls := if j < n then j + 1 else j;
    if calls <= |script| then script[calls..] else []
  }

  lemma {:induction false} PushAllIs(c: Conn, ms: seq<Message>)
    ensures var j := GotThrough(c.script, |ms|);
            && PushAll(c, ms) == c.(log := c.log + ms[..j], script := Unplayed(c.script, j, |ms|))
            && (j < |ms| ==> j < |c.script| && PushAllOutcome(c, ms) == c.script[j] != Delivered)
            && (j == |ms| ==> PushAllOutcome(c, ms) == Delivered)
    decreases |ms|
  {
    if ms == [] || Coming(c) != Delivered {
      assert c.log + ms[..0] == c.log;
    } else {
      PushAllIs(Remote(c, ms[0]), ms[1..]);
      Played(c.log, c.script, ms);
    }
  }

  /** One call got through, and then the others as far as they do. */
  lemma Played(log: seq<Message>, script: seq<Outcome>, ms: seq<Message>)
    requires ms != [] && (script == [] || script[0] == Delivered)
    ensures var rest := if script == [] then [] else script[1..];
            var j, k := GotThrough(script, |ms|), GotThrough(rest, |ms| - 1);
            && j == k + 1 && log + ms[..j] == log + [ms[0]] + ms[1..][..k]
            && Unplayed(script, j, |ms|) == Unplayed(rest, k, |ms| - 1)
            && (k < |rest| ==> j < |script| && script[j] == rest[k])
  {
    var j := GotThrough(script, |ms|);
    assert ms[..j] == [ms[0]] + ms[1..][..j - 1];
  }

  lemma SendIs(c: Conn, id: string, sri: Sri, version: int, ms: seq<Message>, EOS: bool)
    requires c.alive
    ensures var due := (if Known(c, id, version) then [] else [SriMessage(sri)]) + ms;
            var j, after := GotThrough(c.script, |due|), Send(c, id, sri, version, ms, EOS);
            && after.log == c.log + due[..j] && after.script == Unplayed(c.script, j, |due|)
            && after.versions == (if j == |due| && EOS then c.versions - {id} else c.versions[id := version])
            && (j < |due| ==> j < |c.script|)
            && (after.alive <==> j == |due| || (c.script[j] == TimedOut && (Known(c, id, version) || j > 0)))
  {
    hide PushAll, PushAllOutcome, Unplayed;
    var told := PushSri(c, id, sri, version);
    PushAllIs(told, ms);
    hide GotThrough;
    if Known(c, id, version) {
      assert [] + ms == ms && c.versions[id := version] == c.versions;
    } else {
      var due := [SriMessage(sri)] + ms;
      assert due[1..] == ms && c.versions[id := version] - {id} == c.versions - {id};
      if Coming(c) == Delivered { Played(c.log, c.script, due); } else { NotPlayed(c, due); }
    }
  }

  lemma NotPlayed(c: Conn, due: seq<Message>)
    requires due != [] && Coming(c) != Delivered
    ensures GotThrough(c.script, |due|) == 0 && Unplayed(c.script, 0, |due|) == c.script[1..]
    ensures c.log + due[..0] == c.log
  {
  }

  /** What one packet does to a live connection, whatever fails. Due are its SRI, unless the version is
      on record, and its pushes. They get through up to the j-th, the first that fails; the version is
      on record from then on, unless the packet ended the stream and all got through; the connection
      stays alive unless the SRI failed or a push did so fatally. */
  lemma SendFigures(c: Conn, id: string, sri: Sri, version: int, ms: seq<Message>, EOS: bool) returns (j: nat)
    requires c.alive
    ensures var known, after := id in c.versions && c.versions[id] == version, Send(c, id, sri, version, ms, EOS);
            var due := (if known then [] else [SriMessage(sri)]) + ms;
            && j <= |due| && (forall i :: 0 <= i < j && i < |c.script| ==> c.script[i] == Delivered)
            && (j < |due| ==> j < |c.script| && c.script[j] != Delivered)
            && after.log == c.log + due[..j]
            && (var calls := if j < |due| then j + 1 else j;
                after.script == if calls <= |c.script| then c.script[calls..] else [])
            && after.versions == (if j == |due| && EOS then c.versions - {id} else c.versions[id := version])
            && (after.alive <==> j == |due| || (c.script[j] == TimedOut && (known || j > 0)))
  {
    hide Send, GotThrough;
    var due := (if Known(c, id, version) then [] else [SriMessage(sri)]) + ms;
    j := GotThrough(c.script, |due|);
    GotThroughIs(c.script, |due|);
    SendIs(c, id, sri, version, ms, EOS);
  }

  /** What OutPort::pushSRI does to one connection: a fatal failure is passed over too. */
  function SendSri(c: Conn, id: string, sri: Sri, version: int): Conn {
    if !c.alive then c else PushSri(c, id, sri, version)
  }

  function EosMessage(id: string): Message { PacketMessage([], NotSet(), true, id) }

  lemma EosMessageIs(id: string)
    ensures EosMessage(id) == PacketMessage([], Time(0, TcsInvalid, 0.0, 0.0, 0.0), true, id)
  {
  }

  /** The end-of-streams of OutputTransport::disconnect: time-outs are passed over, and a fatal
      failure abandons the rest. */
  function EndAll(c: Conn, order: seq<string>): Conn
    decreases |order|
  {
    if order == [] then c
    else if Coming(c) == Fatal then Remote(c, EosMessage(order[0]))
    else EndAll(Remote(c, EosMessage(order[0])), order[1..])
  }

  predicate EndsAll(c: Conn, order: seq<string>)
    decreases |order|
  {
    order == [] || (Coming(c) != Fatal && EndsAll(Remote(c, EosMessage(order[0])), order[1..]))
  }

  function Disconnect(c: Conn, order: seq<string>): Conn {
    var ended := EndAll(c, order);
    if EndsAll(c, order) then ended.(versions := map[]) else ended
  }

  /** disconnect, when none of its first n calls fails fatally: if those are all it has forgotten the
      versions, and if the next one does fail so it stops there and keeps them. */
  lemma {:induction false} DisconnectFigures(c: Conn, order: seq<string>, n: nat)
    requires n <= |order| && forall i :: 0 <= i < n && i < |c.script| ==> c.script[i] != Fatal
    requires n < |order| ==> n < |c.script| && c.script[n] == Fatal
    ensures Disconnect(c, order).versions == if n == |order| then map[] else c.versions
    ensures var calls := if n == |order| then n else n + 1;
            Disconnect(c, order).script == if calls <= |c.script| then c.script[calls..] else []
    ensures Disconnect(c, order).alive == c.alive
    decreases |order|
  {
    if n == 0 {
      DisconnectNow(c, order);
    } else {
      hide Remote, EosMessage;
      DisconnectNext(c, order);
      if c.script != [] {
        Shorter(c.script, n);
        Shorter(c.script, n + 1);
      }
      DisconnectFigures(Remote(c, EosMessage(order[0])), order[1..], n - 1);
    }
  }

  lemma DisconnectNow(c: Conn, order: seq<string>)
    requires order == [] || (c.script != [] && c.script[0] == Fatal)
    ensures EndsAll(c, order) == (order == [])
    ensures EndAll(c, order) == if order == [] then c else c.(script := c.script[1..])
  {
  }

  lemma DisconnectNext(c: Conn, order: seq<string>)
    requires order != [] && (c.script != [] ==> c.script[0] != Fatal)
    ensures var next := Remote(c, EosMessage(order[0]));
            && EndAll(c, order) == EndAll(next, order[1..]) && EndsAll(c, order) == EndsAll(next, order[1..])
            && next.versions == c.versions && next.alive == c.alive
            && next.script == if c.script == [] then [] else c.script[1..]
  {
  }

  lemma Shorter(script: seq<Outcome>, n: nat)
    requires script != [] && n > 0
    ensures n <= |script| ==> script[1..][n - 1..] == script[n..]
    ensures forall k :: 0 <= k < |script| - 1 ==> script[1..][k] == script[k + 1]
  {
  }

  /** The stream IDs of the version map, each once, in the order the map is gone through. */
  ghost predicate Enumerates(order: seq<string>, ids: set<string>) {
    && (forall id :: id in order <==> id in ids)
    && (forall i, j :: 0 <= i < j < |order| ==> order[i] != order[j])
  }
}
