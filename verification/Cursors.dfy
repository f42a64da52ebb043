/** The packets still to come to the reader of an input stream, and how far it has got in the first:
    what passes them on, whole and with their flags, whatever is fetched, set aside or still queued. */
module Cursors {
  import opened BulkioTypes
  import opened StreamCells
  import opened StreamBuffer

  /** The packets to come, of which the cursor has passed `at` scalars of the first. */
  datatype Cursor = Cursor(packets: seq<Packet>, at: nat)

  /** The packets with payload, their end-of-streams aside. */
  function Full(ps: seq<Packet>): seq<Packet> {
    if ps == [] then [] else Payload(ps[0]) + Full(ps[1..])
  }

  function Payload(p: Packet): seq<Packet> { if p.buffer == [] then [] else [p.(EOS := false)] }

  lemma {:induction false} FullBoth(a: seq<Packet>, b: seq<Packet>)
    ensures Full(a + b) == Full(a) + Full(b)
  {
    if a == [] {
      assert a + b == b;
    } else {
      FullBoth(a[1..], b);
      assert (a + b)[1..] == a[1..] + b;
    }
  }

  lemma FullCons(p: Packet, rest: seq<Packet>)
    ensures Full([p] + rest) == Payload(p) + Full(rest)
  {
    assert ([p] + rest)[1..] == rest;
  }

  lemma FullSnoc(q: seq<Packet>, p: Packet)
    ensures Full(q + [p]) == Full(q) + Payload(p)
  {
    FullBoth(q, [p]);
    assert [p][1..] == [];
  }

  /** The k-th of them is the one at at[k], and none with payload is left out. */
  lemma {:induction false} FullIs(ps: seq<Packet>) returns (at: seq<nat>)
    ensures |at| == |Full(ps)|
    ensures forall k :: 0 <= k < |at| ==>
              at[k] < |ps| && ps[at[k]].buffer != [] && Full(ps)[k] == ps[at[k]].(EOS := false)
    ensures forall k, l :: 0 <= k < l < |at| ==> at[k] < at[l]
    ensures forall i :: 0 <= i < |ps| && ps[i].buffer != [] ==> i in at
  {
    at := [];
    if ps != [] {
      var n := |ps| - 1;
      at := FullIs(ps[..n]);
      FullSnoc(ps[..n], ps[n]);
      assert ps == ps[..n] + [ps[n]];
      assert forall i :: 0 <= i < n ==> ps[..n][i] == ps[i];
      if ps[n].buffer != [] { at := at + [n]; }
    }
  }

  function Coming(b: Buffer, lane: seq<Packet>): seq<Packet> { Full(b.queue) + Full(Behind(b, lane)) }

  lemma ComingAhead(b: Buffer, lane: seq<Packet>)
    ensures Coming(b, lane) == Full(Ahead(b, lane))
  {
    FullBoth(b.queue, Behind(b, lane));
  }

  /** The packets to come are, of those held, set aside and queued up to the first end-of-stream, the
      ones with payload, as they are and in this order. */
  lemma ComingIs(b: Buffer, lane: seq<Packet>) returns (m: nat, at: seq<nat>)
    requires Rep(b)
    ensures var ps := b.queue + (if b.pending.Some? then [b.pending.value] else [])
                      + (if b.eos == EosNone then lane else []);
            && m <= |ps| && (forall i :: 0 <= i < m - 1 ==> !ps[i].EOS) && (m < |ps| ==> m > 0 && ps[m - 1].EOS)
            && |at| == |Coming(b, lane)| && (forall k, l :: 0 <= k < l < |at| ==> at[k] < at[l])
            && (forall k :: 0 <= k < |at| ==> at[k] < m && Coming(b, lane)[k] == ps[at[k]].(EOS := false))
            && (forall i :: 0 <= i < m ==> (ps[i].buffer != [] <==> i in at))
  {
    hide Full, Rep, Ahead, HasEos;
    var ps := b.queue + (if b.pending.Some? then [b.pending.value] else []) + (if b.eos == EosNone then lane else []);
    AheadFirst(b, lane, ps);
    ComingAhead(b, lane);
    m := |Ahead(b, lane)|;
    at := FullIs(Ahead(b, lane));
    assert Ahead(b, lane) == ps[..m];
  }

  function CursorOf(b: Buffer, lane: seq<Packet>): Cursor { Cursor(Coming(b, lane), b.offset) }

  /** The cursor passes n scalars. */
  function Past(c: Cursor, n: nat): Cursor
    decreases |c.packets|
  {
    if c.packets == [] then c
    else if c.at + n < |c.packets[0].buffer| then c.(at := c.at + n)
    else Past(Cursor(c.packets[1..], 0), c.at + n - |c.packets[0].buffer|)
  }

  lemma {:induction false} PastTwice(c: Cursor, m: nat, n: nat)
    ensures Past(Past(c, m), n) == Past(c, m + n)
    decreases |c.packets|
  {
    if c.packets != [] && c.at + m >= |c.packets[0].buffer| {
      PastTwice(Cursor(c.packets[1..], 0), c.at + m - |c.packets[0].buffer|, n);
    }
  }

  /** The flags of the packet in front are used up. */
  function Told(c: Cursor): Cursor {
    if c.packets == [] then c
    else c.(packets := c.packets[0 := c.packets[0].(sriChanged := false, inputQueueFlushed := false)])
  }

  /** A block of which the cursor passes n scalars: the k packets it used up are gone, those behind are
      as they were, and if it stays in its first packet, only the flags of that are cleared. */
  lemma ReadMoves(c: Cursor, n: nat) returns (k: nat)
    ensures var d := Past(Told(c), n);
            && k <= |c.packets| && |d.packets| == |c.packets| - k
            && (forall i :: 0 < i < |d.packets| || (i == 0 < k && d.packets != []) ==> d.packets[i] == c.packets[k + i])
            && (k == 0 && d.packets != [] ==>
                  d.packets[0] == c.packets[0].(sriChanged := false, inputQueueFlushed := false))
            && |Flat(c.packets[..k])| <= (if k == 0 then 0 else c.at + n)
            && (d.packets != [] ==> c.at + n == |Flat(c.packets[..k])| + d.at && d.at < |d.packets[0].buffer|)
  {
    hide Flat, Past;
    k := PastIs(Told(c), n);
    if k > 0 {
      assert c.packets[..k] == [c.packets[0]] + c.packets[1..k];
      assert Told(c).packets[..k] == [Told(c).packets[0]] + c.packets[1..k];
      FlatCons(c.packets[0], c.packets[1..k]);
      FlatCons(Told(c).packets[0], c.packets[1..k]);
    } else {
      assert c.packets[..0] == Told(c).packets[..0];
    }
  }

  lemma {:induction false} PastIs(c: Cursor, n: nat) returns (k: nat)
    ensures k <= |c.packets| && Past(c, n).packets == c.packets[k..]
    ensures |Flat(c.packets[..k])| <= (if k == 0 then 0 else c.at + n)
    ensures Past(c, n).packets != [] ==>
              && c.at + n == |Flat(c.packets[..k])| + Past(c, n).at
              && Past(c, n).at < |Past(c, n).packets[0].buffer|
    decreases |c.packets|
  {
    k := 0;
    if c.packets != [] && c.at + n >= |c.packets[0].buffer| {
      var j := PastIs(Cursor(c.packets[1..], 0), c.at + n - |c.packets[0].buffer|);
      k := j + 1;
      assert c.packets[..k] == [c.packets[0]] + c.packets[1..][..j];
      FlatCons(c.packets[0], c.packets[1..][..j]);
    }
  }

  /** A packet that joins the lane of an open stream joins the packets to come. */
  lemma ArriveComing(b: Buffer, lane: seq<Packet>, p: Packet)
    requires !Closed(b, lane)
    ensures Coming(b, lane + [p]) == Coming(b, lane) + Payload(p)
  {
    hide Full;
    UpToEosAll(lane);
    UpToEosSnoc(lane, p);
    assert Behind(b, lane + [p]) == Behind(b, lane) + [p];
    FullSnoc(Behind(b, lane), p);
    Regroup(Full(b.queue), Full(Behind(b, lane)), Payload(p));
  }

  lemma {:induction false} UpToEosSnoc(lane: seq<Packet>, p: Packet)
    requires forall i :: 0 <= i < |lane| ==> !lane[i].EOS
    ensures UpToEos(lane + [p]) == lane + [p]
  {
    var all := lane + [p];
    if lane == [] {
      assert all[..1] == all && UpToEos(all[1..]) == [];
    } else {
      UpToEosSnoc(lane[1..], p);
      assert all[1..] == lane[1..] + [p] && all == all[..1] + all[1..];
    }
  }

  lemma Standing(c: Cursor)
    requires c.packets == [] || c.at < |c.packets[0].buffer|
    ensures Past(c, 0) == c
  {
  }

  /** What is held is in front. */
  lemma HeldFirst(b: Buffer, lane: seq<Packet>)
    requires Rep(b) && b.queue != []
    ensures Coming(b, lane) == [b.queue[0].(EOS := false)] + (Full(b.queue[1..]) + Full(Behind(b, lane)))
  {
    assert b.queue == [b.queue[0]] + b.queue[1..];
    FullCons(b.queue[0], b.queue[1..]);
  }

  // ---------- what each step does to the packets to come ----------

  lemma FetchedComing(b: Buffer, lane: seq<Packet>)
    requires Rep(b) && b.eos == EosNone && b.pending.None? && lane != []
    ensures CursorOf(Fetched(b, lane[0]), lane[1..]) == CursorOf(b, lane)
  {
    hide Rep, Full, Behind, BehindFirst, Flat;
    var p, rest := lane[0], BehindFirst(lane);
    BehindFetched(b, lane);
    FullCons(p, rest);
    if b.queue == [] || p.Bridges() {
      QueuedFull(b, p);
      assert Full(b.queue) + Payload(p) + Full(rest) == Full(b.queue) + (Payload(p) + Full(rest));
    }
  }

  lemma QueuedFull(b: Buffer, p: Packet)
    requires b.queue == [] || p.Bridges()
    ensures Full(Fetched(b, p).queue) == Full(b.queue) + Payload(p) && Fetched(b, p).offset == b.offset
  {
    hide Full;
    if p.EOS && p.buffer == [] {
      if b.queue != [] { FullLast(b.queue); }
      assert Full(b.queue) + [] == Full(b.queue);
    } else {
      FullSnoc(b.queue, p);
    }
  }

  /** An end-of-stream given to the last packet held. */
  lemma FullLast(q: seq<Packet>)
    requires q != []
    ensures var n := |q| - 1; Full(q[n := q[n].(EOS := true)]) == Full(q)
  {
    hide Full;
    var n := |q| - 1;
    FullSnoc(q[..n], q[n]);
    FullSnoc(q[..n], q[n].(EOS := true));
    assert q == q[..n] + [q[n]] && q[n := q[n].(EOS := true)] == q[..n] + [q[n].(EOS := true)];
  }

  lemma ConsumedComing(b: Buffer, n: nat, lane: seq<Packet>)
    requires Rep(b) && b.queue != [] && b.offset + n <= |b.queue[0].buffer|
    ensures CursorOf(Consumed(b, n), lane) == Past(CursorOf(b, lane), n)
  {
    hide Full, Flat;
    HeldFirst(b, lane);
    if b.offset + n >= |b.queue[0].buffer| {
      PoppedComing(b, lane);
      FullHasPayload(b.queue[1..]);
      FullHasPayload(Behind(b, lane));
      assert Coming(b, lane)[1..] == Full(b.queue[1..]) + Full(Behind(b, lane));
      Standing(CursorOf(Popped(b), lane));
    }
  }

  lemma PoppedComing(b: Buffer, lane: seq<Packet>)
    requires Rep(b) && b.queue != []
    ensures CursorOf(Popped(b), lane) == Cursor(Full(b.queue[1..]) + Full(Behind(b, lane)), 0)
  {
    hide Full, Flat;
    if |b.queue| == 1 && b.pending.Some? {
      var p, inc := b.pending.value, Incoming(b, lane);
      assert b.queue[1..] == [] && [] + [p] == [p];
      FullCons(p, inc);
      FullCons(p, []);
      NothingFull();
      assert [p] + [] == [p] && Behind(b, lane) == [p] + inc;
      assert Payload(p) + [] == Payload(p) && [] + Full([p] + inc) == Payload(p) + Full(inc);
      assert Behind(Popped(b), lane) == inc && Popped(b).queue == if p.buffer == [] then [] else [p];
    }
  }

  lemma NothingFull()
    ensures Full([]) == []
  {
  }

  lemma {:induction false} FullHasPayload(ps: seq<Packet>)
    ensures Full(ps) != [] ==> Full(ps)[0].buffer != []
  {
    if ps != [] { FullHasPayload(ps[1..]); }
  }

  lemma AcknowledgedComing(b: Buffer, lane: seq<Packet>)
    requires Rep(b) && b.queue != []
    ensures CursorOf(Acknowledged(b), lane) == Told(CursorOf(b, lane))
  {
    hide Full, Flat, Behind;
    var c := Acknowledged(b);
    HeldFirst(b, lane);
    assert c.queue == [c.queue[0]] + b.queue[1..] && Behind(c, lane) == Behind(b, lane) by { SameBehind(b, c, lane); }
    FullCons(c.queue[0], b.queue[1..]);
  }

  lemma SameBehind(b: Buffer, c: Buffer, lane: seq<Packet>)
    requires b.pending == c.pending && b.eos == c.eos
    ensures Behind(b, lane) == Behind(c, lane)
  {
  }

  lemma ReportedComing(b: Buffer, lane: seq<Packet>)
    requires Rep(b) && b.eos == EosReached
    ensures CursorOf(b.(eos := EosReported), lane) == CursorOf(b, lane)
  {
  }
}
