/** The transport of one connection of an output port. */
module Transports {
  import opened BulkioTypes
  import opened PrecisionTime
  import opened Chunking
  import opened Wire

  /** OutputTransport and ChunkingTransport. log and script stand for the other end. */
  class Transport {
    const maxSamplesPerPush: nat
    var sriVersions: map<string, int>
    var alive: bool
    var log: seq<Message>
    var script: seq<Outcome>

    constructor (maxSamplesPerPush: nat, script: seq<Outcome>)
      ensures this.maxSamplesPerPush == maxSamplesPerPush
      ensures State() == Conn(map[], true, [], script)
    {
      this.maxSamplesPerPush := maxSamplesPerPush;
      sriVersions, alive, log, this.script := map[], true, [], script;
    }

    function State(): Conn
      reads this
    {
      Conn(sriVersions, alive, log, script)
    }

    method Call(m: Message) returns (outcome: Outcome)
      modifies this
      ensures State() == Remote(old(State()), m) && outcome == Coming(old(State()))
    {
      outcome := Delivered;
      if script != [] {
        outcome, script := script[0], script[1..];
      }
      if outcome == Delivered {
        log := log + [m];
      }
    }

    /** OutputTransport::pushSRI. */
    method PushSri(id: string, sri: Sri, version: int) returns (outcome: Outcome)
      modifies this
      ensures State() == Wire.PushSri(old(State()), id, sri, version)
      ensures outcome == SriOutcome(old(State()), id, version)
    {
      if id in sriVersions && version == sriVersions[id] {
        return Delivered;
      }
      sriVersions := sriVersions[id := version];
      outcome := Call(SriMessage(sri));
      if outcome != Delivered {
        outcome := Fatal;
      }
    }

    /** ChunkingTransport::_sendPacket. */
    method SendPacket(data: seq<Sample>, T: Time, EOS: bool, id: string, sri: Sri) returns (outcome: Outcome)
      requires data == [] || FrameSize(sri) <= maxSamplesPerPush
      modifies this
      ensures PushSize(maxSamplesPerPush, sri) > 0 || data == []
      ensures var pushes := Chunks(data, T, EOS, id, PushSize(maxSamplesPerPush, sri), sri);
              State() == PushAll(old(State()), pushes) && outcome == PushAllOutcome(old(State()), pushes)
    {
      hide PushSize, FrameSize, Chunks, PushAll, PushAllOutcome, Remote;
      PushSizeWhole(maxSamplesPerPush, sri);
      var maxPushSize := PushSize(maxSamplesPerPush, sri);
      ghost var pushes := Chunks(data, T, EOS, id, maxPushSize, sri);
      var first: nat, samplesRemaining: nat, packetTime, more := 0, |data|, T, true;
      assert data[0..] == data;
      outcome := Delivered;
      while more
        invariant first + samplesRemaining == |data| && (samplesRemaining > 0 ==> more)
        invariant outcome == Delivered
        invariant more ==>
                  Follows(State(), Chunks(data[first..], packetTime, EOS, id, maxPushSize, sri), old(State()), pushes)
        invariant !more ==> Follows(State(), [], old(State()), pushes)
        decreases samplesRemaining, more
      {
        ghost var rest := Chunks(data[first..], packetTime, EOS, id, maxPushSize, sri);
        NextPush(data, first, packetTime, EOS, id, maxPushSize, sri);
        FollowsNext(State(), rest, old(State()), pushes);
        var pushSize := Min(samplesRemaining, maxPushSize);
        samplesRemaining := samplesRemaining - pushSize;
        var packetEOS := false;
        if samplesRemaining == 0 {
          packetEOS := EOS;
        }
        outcome := Call(PacketMessage(data[first..first + pushSize], packetTime, packetEOS, id));
        if outcome != Delivered {
          return;
        }
        if packetTime.tcstatus == TcsValid {
          packetTime := Later(packetTime, Samples(pushSize, sri), sri.xdelta);
        }
        first := first + pushSize;
        more := samplesRemaining > 0;
      }
      FollowsEnd(State(), old(State()), pushes);
    }

    /** OutputTransport::pushPacket. */
    method PushPacket(data: seq<Sample>, T: Time, EOS: bool, id: string, sri: Sri) returns (outcome: Outcome)
      requires data == [] || FrameSize(sri) <= maxSamplesPerPush
      modifies this
      ensures PushSize(maxSamplesPerPush, sri) > 0 || data == []
      ensures var pushes := Chunks(data, T, EOS, id, PushSize(maxSamplesPerPush, sri), sri);
              && State() == Wire.PushPacket(old(State()), pushes, EOS, id)
              && outcome == PushAllOutcome(old(State()), pushes)
    {
      outcome := SendPacket(data, T, EOS, id, sri);
      if outcome == Delivered && EOS {
        sriVersions := sriVersions - {id};
      }
    }

    /** OutputTransport::disconnect. order is the order the version map is gone through. */
    method Disconnect() returns (ghost order: seq<string>)
      modifies this
      ensures Enumerates(order, old(sriVersions).Keys) && State() == Wire.Disconnect(old(State()), order)
    {
      hide Enumerates, EndAll, EndsAll, Remote;
      order := [];
      var ids := sriVersions.Keys;
      NoneEnded(State(), ids);
      while ids != {}
        invariant Ending(old(State()), State(), order, old(sriVersions).Keys, ids)
        decreases |ids|
      {
        var id :| id in ids;
        ghost var all := order + [id];
        if Coming(State()) == Fatal {
          all := EndingFatal(old(State()), State(), order, old(sriVersions).Keys, ids, id);
        } else {
          EndingNext(old(State()), State(), order, old(sriVersions).Keys, ids, id);
        }
        var outcome := Call(EosMessage(id));
        if outcome == Fatal {
          order := all;
          return;
        }
        order := all;
        ids := ids - {id};
      }
      AllEnded(old(State()), State(), order, old(sriVersions).Keys);
      sriVersions := map[];
    }
  }

  /** Part way through disconnect: all but ids of the streams have been ended. */
  ghost predicate Ending(was: Conn, c: Conn, order: seq<string>, keys: set<string>, ids: set<string>) {
    ids <= keys && Enumerates(order, keys - ids) && c == EndAll(was, order) && EndsAll(was, order)
  }

  lemma NoneEnded(c: Conn, keys: set<string>)
    ensures Ending(c, c, [], keys, keys)
  {
  }

  lemma AllEnded(was: Conn, c: Conn, order: seq<string>, keys: set<string>)
    requires Ending(was, c, order, keys, {})
    ensures Enumerates(order, keys) && c == EndAll(was, order) && EndsAll(was, order)
  {
    assert keys - {} == keys;
  }

  lemma EndingNext(was: Conn, c: Conn, order: seq<string>, keys: set<string>, ids: set<string>, id: string)
    requires id in ids && Ending(was, c, order, keys, ids) && Coming(c) != Fatal
    ensures Ending(was, Remote(c, EosMessage(id)), order + [id], keys, ids - {id})
  {
    hide Enumerates, Remote;
    EndAllThen(was, order, [id]);
    EndOne(c, id, []);
    EnumeratesMore(order, [id], keys - ids, {id});
    assert keys - ids + {id} == keys - (ids - {id});
  }

  lemma EndOne(c: Conn, id: string, rest: seq<string>)
    ensures Enumerates([id], {id})
    ensures EndsAll(c, [id] + rest) <==> Coming(c) != Fatal && EndsAll(Remote(c, EosMessage(id)), rest)
    ensures EndAll(c, [id] + rest)
            == if Coming(c) == Fatal then Remote(c, EosMessage(id)) else EndAll(Remote(c, EosMessage(id)), rest)
  {
    assert ([id] + rest)[1..] == rest;
  }

  lemma EndingFatal(was: Conn, c: Conn, order: seq<string>, keys: set<string>, ids: set<string>, id: string)
    returns (all: seq<string>)
    requires id in ids && Ending(was, c, order, keys, ids) && Coming(c) == Fatal
    ensures Enumerates(all, keys) && EndAll(was, all) == Remote(c, EosMessage(id)) && !EndsAll(was, all)
  {
    hide Enumerates, Remote, EndAll, EndsAll;
    var rest := AnyOrder(ids - {id});
    EndAllThen(was, order, [id] + rest);
    EndOne(c, id, rest);
    EnumeratesMore([id], rest, {id}, ids - {id});
    EnumeratesMore(order, [id] + rest, keys - ids, {id} + (ids - {id}));
    assert keys - ids + ({id} + (ids - {id})) == keys;
    all := order + ([id] + rest);
  }

  lemma {:induction false} EndAllThen(c: Conn, a: seq<string>, b: seq<string>)
    requires EndsAll(c, a)
    ensures EndAll(c, a + b) == EndAll(EndAll(c, a), b) && EndsAll(c, a + b) == EndsAll(EndAll(c, a), b)
    decreases |a|
  {
    hide Remote;
    if a == [] {
      assert a + b == b;
    } else {
      EndAllThen(Remote(c, EosMessage(a[0])), a[1..], b);
      assert a + b == [a[0]] + (a[1..] + b);
      EndOne(c, a[0], a[1..] + b);
    }
  }

  lemma EnumeratesMore(a: seq<string>, b: seq<string>, s: set<string>, t: set<string>)
    requires Enumerates(a, s) && Enumerates(b, t) && s !! t
    ensures Enumerates(a + b, s + t)
  {
    var both := a + b;
    forall i, j | 0 <= i < j < |both| ensures both[i] != both[j] {
      if i < |a| <= j { assert a[i] in s && b[j - |a|] in t; }
    }
  }

  lemma {:induction false} AnyOrder(ids: set<string>) returns (order: seq<string>)
    ensures Enumerates(order, ids)
  {
    order := [];
    if ids != {} {
      var id :| id in ids;
      var rest := AnyOrder(ids - {id});
      EnumeratesMore([id], rest, {id}, ids - {id});
      assert {id} + (ids - {id}) == ids;
      order := [id] + rest;
    }
  }

  /** What is still to be pushed takes a connection where the whole packet would have taken it. */
  ghost predicate Follows(c: Conn, rest: seq<Message>, was: Conn, pushes: seq<Message>) {
    PushAll(c, rest) == PushAll(was, pushes) && PushAllOutcome(c, rest) == PushAllOutcome(was, pushes)
  }

  lemma FollowsNext(c: Conn, rest: seq<Message>, was: Conn, pushes: seq<Message>)
    requires rest != [] && Follows(c, rest, was, pushes)
    ensures if Coming(c) == Delivered then Follows(Remote(c, rest[0]), rest[1..], was, pushes)
            else Remote(c, rest[0]) == PushAll(was, pushes) && Coming(c) == PushAllOutcome(was, pushes)
  {
  }

  lemma FollowsEnd(c: Conn, was: Conn, pushes: seq<Message>)
    requires Follows(c, [], was, pushes)
    ensures c == PushAll(was, pushes) && PushAllOutcome(was, pushes) == Delivered
  {
  }

  lemma NextPush(data: seq<Sample>, first: nat, T: Time, EOS: bool, id: string, size: nat, sri: Sri)
    requires first <= |data| && (size > 0 || data == [])
    ensures var rest, n := Chunks(data[first..], T, EOS, id, size, sri), Min(|data| - first, size);
            && n <= |data| - first && (n == 0 ==> n == |data| - first)
            && rest[0] == PacketMessage(data[first..first + n], T, if n == |data| - first then EOS else false, id)
            && (if n == |data| - first then rest[1..] == []
                else rest[1..] == Chunks(data[first + n..], NextTime(T, n, sri), EOS, id, size, sri))
  {
    hide NextTime;
    var rest, n := data[first..], Min(|data| - first, size);
    assert data[first..first + n] == rest[..n] && data[first + n..] == rest[n..];
    if n == |data| - first { assert rest[..n] == rest; }
  }
}
