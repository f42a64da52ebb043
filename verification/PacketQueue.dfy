/** The packet queue of an input port as a sequence, seen one stream ID at a time, and the
    meaning of collapsing it on overflow. */
module PacketQueue {
  import opened BulkioTypes

  // ---------- one stream ID at a time ----------

  /** The packets of one stream ID, in order. */
  function Lane(q: seq<Packet>, id: string): seq<Packet> {
    if q == [] then [] else (if q[0].streamID == id then [q[0]] else []) + Lane(q[1..], id)
  }

  lemma {:induction false} LaneConcat(a: seq<Packet>, b: seq<Packet>, id: string)
    ensures Lane(a + b, id) == Lane(a, id) + Lane(b, id)
  {
    if a == [] {
      assert a + b == b;
    } else {
      assert (a + b)[0] == a[0] && (a + b)[1..] == a[1..] + b;
      LaneConcat(a[1..], b, id);
      Regroup(if a[0].streamID == id then [a[0]] else [], Lane(a[1..], id), Lane(b, id));
    }
  }

  function EosIn(lane: seq<Packet>): nat {
    if lane == [] then 0 else (if lane[0].EOS then 1 else 0) + EosIn(lane[1..])
  }

  lemma {:induction false} EosInConcat(a: seq<Packet>, b: seq<Packet>)
    ensures EosIn(a + b) == EosIn(a) + EosIn(b)
  {
    if a == [] {
      assert a + b == b;
    } else {
      assert (a + b)[1..] == a[1..] + b;
      EosInConcat(a[1..], b);
    }
  }

  /** End-of-stream packets queued for one stream ID. */
  function EosCount(q: seq<Packet>, id: string): nat {
    EosIn(Lane(q, id))
  }

  predicate Has(q: seq<Packet>, id: string) {
    q != [] && (q[0].streamID == id || Has(q[1..], id))
  }

  /** The position of the first packet of a stream ID. */
  function First(q: seq<Packet>, id: string): (i: nat)
    requires Has(q, id)
    ensures i < |q| && q[i].streamID == id
  {
    if q[0].streamID == id then 0 else 1 + First(q[1..], id)
  }

  lemma {:induction false} LaneSingle(q: seq<Packet>, id: string)
    ensures SingleLane(Lane(q, id), id)
  {
    if q != [] { LaneSingle(q[1..], id); }
  }

  lemma {:induction false} HasLane(q: seq<Packet>, id: string)
    ensures Has(q, id) <==> Lane(q, id) != []
  {
    if q != [] { HasLane(q[1..], id); }
  }

  lemma {:induction false} LaneFirst(q: seq<Packet>, id: string)
    requires Has(q, id)
    ensures Lane(q[..First(q, id)], id) == []
    ensures Lane(q, id) == [q[First(q, id)]] + Lane(q[First(q, id) + 1..], id)
  {
    var k := First(q, id);
    if k > 0 {
      LaneFirst(q[1..], id);
      assert q[..k][1..] == q[1..][..k - 1];
      assert q[k + 1..] == q[1..][k..];
    }
  }

  // ---------- collapsing the queue ----------

  /** What becomes of the surviving packet `last` when the packet `p` before it is dropped. */
  function Absorb(last: Packet, p: Packet): Packet {
    var swap := last.buffer == [] && p.buffer != [];
    var lost := p.buffer != [] && !swap;
    last.(buffer := if swap then p.buffer else last.buffer,
          T := if swap then p.T else last.T,
          inputQueueFlushed := last.inputQueueFlushed || lost,
          sriChanged := last.sriChanged || p.sriChanged)
  }

  /** The collapsed queue, built from the back. */
  function Collapse(q: seq<Packet>): (r: seq<Packet>)
    ensures r == [] <==> q == []
  {
    if q == [] then [] else
      var p, r := q[0], Collapse(q[1..]);
      if Has(r, p.streamID) && !p.EOS then
        var k := First(r, p.streamID);
        r[k := Absorb(r[k], p)]
      else [p] + r
  }

  // ---------- what a collapsed queue holds ----------

  predicate Survives(q: seq<Packet>, i: nat)
    requires i < |q|
  {
    q[i].EOS || forall j :: i < j < |q| ==> q[j].streamID != q[i].streamID
  }

  /** The positions from n on that survive, in the original order. */
  function Survivors(q: seq<Packet>, n: nat := 0): (s: seq<nat>)
    requires n <= |q|
    ensures forall k :: 0 <= k < |s| ==> n <= s[k] < |q| && Survives(q, s[k])
    ensures forall k, l :: 0 <= k < l < |s| ==> s[k] < s[l]
    ensures forall i :: n <= i < |q| && Survives(q, i) ==> i in s
    decreases |q| - n
  {
    if n == |q| then [] else (if Survives(q, n) then [n] else []) + Survivors(q, n + 1)
  }

  function WithData(g: seq<Packet>): (d: seq<Packet>)
    ensures forall i :: 0 <= i < |d| ==> d[i].buffer != []
  {
    if g == [] then [] else (if g[0].buffer != [] then [g[0]] else []) + WithData(g[1..])
  }

  /** A whole group folded into its last packet. */
  function Fold(g: seq<Packet>): (r: Packet)
    requires g != []
  {
    if |g| == 1 then g[0] else Absorb(Fold(g[1..]), g[0])
  }

  /** The folded packet is the group's last one, with an SRI change if any had one. */
  lemma {:induction false} FoldKeeps(g: seq<Packet>)
    requires g != []
    ensures var r, own := Fold(g), g[|g| - 1];
            && r.streamID == own.streamID && r.EOS == own.EOS && r.SRI == own.SRI
            && (r.sriChanged <==> exists i :: 0 <= i < |g| && g[i].sriChanged)
  {
    var t := g[1..];
    if t != [] {
      FoldKeeps(t);
      AnyChanged(g);
      assert t[|t| - 1] == g[|g| - 1];
    }
  }

  /** It carries the group's last payload with its time, and a flush mark if it had one or if a
      payload was lost. */
  lemma {:induction false} FoldData(g: seq<Packet>)
    requires g != []
    ensures var r, own, data := Fold(g), g[|g| - 1], WithData(g);
            && (r.inputQueueFlushed <==> own.inputQueueFlushed || |data| >= 2)
            && (if data == [] then r.buffer == [] && r.T == own.T
                else r.buffer == data[|data| - 1].buffer && r.T == data[|data| - 1].T)
  {
    var t := g[1..];
    if t != [] {
      FoldData(t);
      assert t[|t| - 1] == g[|g| - 1];
      if g[0].buffer != [] { assert WithData(g) == [g[0]] + WithData(t); }
    }
  }

  lemma AnyChanged(g: seq<Packet>)
    requires g != []
    ensures (exists i :: 0 <= i < |g| && g[i].sriChanged)
            <==> g[0].sriChanged || exists i :: 0 <= i < |g[1..]| && g[1..][i].sriChanged
  {
    if i :| 0 <= i < |g| && g[i].sriChanged {
      if i > 0 { assert g[1..][i - 1].sriChanged; }
    }
    if i :| 0 <= i < |g[1..]| && g[1..][i].sriChanged {
      assert g[i + 1].sriChanged;
    }
  }

  /** A lane cut after every end-of-stream: the incarnations of its stream ID. */
  function Incarnations(lane: seq<Packet>): (gs: seq<seq<Packet>>)
    ensures lane != [] ==> gs != [] && gs[0] != [] && gs[0][0] == lane[0]
    ensures forall k :: 0 <= k < |gs| ==> gs[k] != []
  {
    if lane == [] then []
    else if |lane| == 1 || lane[0].EOS then [lane[..1]] + Incarnations(lane[1..])
    else
      var gs := Incarnations(lane[1..]);
      [lane[..1] + gs[0]] + gs[1..]
  }

  function Join<T>(gs: seq<seq<T>>): seq<T> {
    if gs == [] then [] else gs[0] + Join(gs[1..])
  }

  /** An end-of-stream only ever ends a group, and every group but the last ends in one. */
  predicate WellCut(gs: seq<seq<Packet>>) {
    gs == [] ||
    (gs[0] != [] && (forall i :: 0 <= i < |gs[0]| - 1 ==> !gs[0][i].EOS) &&
     (|gs| > 1 ==> gs[0][|gs[0]| - 1].EOS) && WellCut(gs[1..]))
  }

  lemma {:induction false} IncarnationsMeaning(lane: seq<Packet>)
    ensures Join(Incarnations(lane)) == lane && WellCut(Incarnations(lane))
  {
    if lane != [] {
      IncarnationsMeaning(lane[1..]);
      var gs := Incarnations(lane[1..]);
      if |lane| == 1 || lane[0].EOS {
        assert ([lane[..1]] + gs)[1..] == gs;
      } else {
        var hs := [lane[..1] + gs[0]] + gs[1..];
        assert hs[1..] == gs[1..];
        assert hs[0][|hs[0]| - 1] == gs[0][|gs[0]| - 1];
      }
    }
  }

  predicate SingleLane(lane: seq<Packet>, id: string) {
    forall i :: 0 <= i < |lane| ==> lane[i].streamID == id
  }

  /** One packet for each group: that group folded. */
  predicate Folds(gs: seq<seq<Packet>>, r: seq<Packet>) {
    |r| == |gs| && forall k :: 0 <= k < |gs| ==> gs[k] != [] && r[k] == Fold(gs[k])
  }

  /** On one lane, collapsing leaves one packet an incarnation: that incarnation folded. */
  lemma {:induction false} CollapseLane(lane: seq<Packet>, id: string)
    requires SingleLane(lane, id)
    ensures var gs, r := Incarnations(lane), Collapse(lane);
            Folds(gs, r) && SingleLane(r, id)
  {
    hide Collapse, Folds, SingleLane, Absorb;
    if lane != [] {
      var p, t := lane[0], lane[1..];
      assert lane[..1] == [p];
      SingleRest(lane, id);
      CollapseLane(t, id);
      var gs, r := Incarnations(t), Collapse(t);
      if t != [] { SingleRest(r, id); }
      CollapseHead(lane, id);
      if t != [] && !p.EOS {
        FoldsHead(gs, r, p, id);
      } else {
        FoldsCons(gs, r, p, id);
      }
    } else {
      NoneFolds(id);
    }
  }

  lemma NoneFolds(id: string)
    ensures Folds([], []) && SingleLane([], id)
  {
  }

  lemma SingleRest(lane: seq<Packet>, id: string)
    requires lane != [] && SingleLane(lane, id)
    ensures SingleLane(lane[1..], id) && lane[0].streamID == id
  {
  }

  lemma FoldsHead(gs: seq<seq<Packet>>, r: seq<Packet>, p: Packet, id: string)
    requires gs != [] && gs[0] != [] && Folds(gs, r) && SingleLane(r, id)
    ensures var s := r[0 := Absorb(r[0], p)]; Folds([[p] + gs[0]] + gs[1..], s) && SingleLane(s, id)
  {
    hide Fold;
    FoldHead(p, gs[0]);
  }

  lemma FoldsCons(gs: seq<seq<Packet>>, r: seq<Packet>, p: Packet, id: string)
    requires Folds(gs, r) && SingleLane(r, id) && p.streamID == id
    ensures Folds([[p]] + gs, [p] + r) && SingleLane([p] + r, id)
  {
    hide Fold;
    FoldOne(p);
  }

  lemma FoldHead(p: Packet, g: seq<Packet>)
    requires g != []
    ensures Fold([p] + g) == Absorb(Fold(g), p) && Absorb(Fold(g), p).streamID == Fold(g).streamID
  {
    assert ([p] + g)[1..] == g;
  }

  lemma FoldOne(p: Packet)
    ensures Fold([p]) == p
  {
  }

  /** Collapsing a lane, one packet at a time. */
  lemma CollapseHead(lane: seq<Packet>, id: string)
    requires lane != [] && lane[0].streamID == id
    requires lane[1..] != [] ==> Collapse(lane[1..])[0].streamID == id
    ensures var t, r := lane[1..], Collapse(lane[1..]);
            Collapse(lane) == if t != [] && !lane[0].EOS then r[0 := Absorb(r[0], lane[0])] else [lane[0]] + r
  {
  }

  // ---------- collapsing commutes with looking at one stream ID ----------

  /** Replacing a packet by one of the same stream ID replaces it in its lane only. */
  lemma {:induction false} LaneReplaceFirst(q: seq<Packet>, p: Packet, id: string)
    requires Has(q, p.streamID)
    ensures var k, lane := First(q, p.streamID), Lane(q, p.streamID);
            && lane != [] && lane[0] == q[k]
            && Lane(q[k := p], id) == if id == p.streamID then lane[0 := p] else Lane(q, id)
  {
    hide Lane;
    var k, first, rest := First(q, p.streamID), q[0], q[1..];
    assert q == [first] + rest;
    LaneCons(first, rest, id);
    LaneCons(first, rest, p.streamID);
    if k == 0 {
      assert q[k := p] == [p] + rest;
      LaneCons(p, rest, id);
    } else {
      LaneReplaceFirst(rest, p, id);
      assert q[k := p] == [first] + rest[k - 1 := p];
      LaneCons(first, rest[k - 1 := p], id);
    }
  }

  lemma {:induction false} LaneCollapse(q: seq<Packet>, id: string)
    ensures Lane(Collapse(q), id) == Collapse(Lane(q, id))
  {
    if q != [] {
      LaneCollapse(q[1..], id);
      LaneCollapseHead(q[0], q[1..], id);
      assert q == [q[0]] + q[1..];
    }
  }

  lemma LaneCons(p: Packet, t: seq<Packet>, id: string)
    ensures Lane([p] + t, id) == if p.streamID == id then [p] + Lane(t, id) else Lane(t, id)
  {
    assert ([p] + t)[1..] == t;
  }

  lemma LaneOfCollapse(p: Packet, t: seq<Packet>, id: string)
    ensures var lane := Lane(Collapse(t), id);
            Lane(Collapse([p] + t), id) ==
            if p.streamID != id then lane
            else if lane != [] && !p.EOS then lane[0 := Absorb(lane[0], p)] else [p] + lane
  {
    var r := Collapse(t);
    assert ([p] + t)[1..] == t;
    HasLane(r, p.streamID);
    if Has(r, p.streamID) && !p.EOS {
      LaneReplaceFirst(r, Absorb(r[First(r, p.streamID)], p), id);
    } else {
      LaneCons(p, r, id);
    }
  }

  lemma LaneCollapseHead(p: Packet, t: seq<Packet>, id: string)
    requires Lane(Collapse(t), id) == Collapse(Lane(t, id))
    ensures Lane(Collapse([p] + t), id) == Collapse(Lane([p] + t, id))
  {
    LaneOfCollapse(p, t, id);
    LaneCons(p, t, id);
    if p.streamID == id {
      var lane := [p] + Lane(t, id);
      assert lane[1..] == Lane(t, id);
      LaneSingle(Collapse(t), id);
      CollapseHead(lane, id);
    }
  }

  // ---------- collapsing keeps the order across stream IDs ----------

  /** Collapsing keeps exactly the packets that are an end-of-stream or the last of their
      stream ID, in their order. */
  lemma CollapseOrder(q: seq<Packet>)
    ensures InPlace(q, Survivors(q), Collapse(q))
  {
    assert q[0..] == q;
    CollapseSuffix(q, 0);
  }

  /** Each survivor is in its place. */
  ghost predicate InPlace(q: seq<Packet>, s: seq<nat>, r: seq<Packet>) {
    |r| == |s| &&
    forall k :: 0 <= k < |s| ==>
      s[k] < |q| && r[k].streamID == q[s[k]].streamID && r[k].EOS == q[s[k]].EOS && r[k].SRI == q[s[k]].SRI
  }

  lemma {:induction false} CollapseSuffix(q: seq<Packet>, n: nat)
    requires n <= |q|
    ensures InPlace(q, Survivors(q, n), Collapse(q[n..]))
    decreases |q| - n
  {
    hide InPlace, Survives, Absorb;
    if n < |q| {
      CollapseSuffix(q, n + 1);
      assert q[n..][0] == q[n] && q[n..][1..] == q[n + 1..];
      var p, r := q[n], Collapse(q[n + 1..]);
      HasCollapse(q[n + 1..], p.streamID);
      SurvivesHead(q, n);
      if Has(r, p.streamID) && !p.EOS {
        InPlaceAbsorb(q, Survivors(q, n + 1), r, First(r, p.streamID), p);
      } else {
        InPlaceCons(q, Survivors(q, n + 1), r, n);
      }
    } else {
      NoneInPlace(q);
    }
  }

  lemma NoneInPlace(q: seq<Packet>)
    ensures InPlace(q, [], [])
  {
  }

  lemma InPlaceCons(q: seq<Packet>, s: seq<nat>, r: seq<Packet>, n: nat)
    requires n < |q| && InPlace(q, s, r)
    ensures InPlace(q, [n] + s, [q[n]] + r)
  {
  }

  lemma InPlaceAbsorb(q: seq<Packet>, s: seq<nat>, r: seq<Packet>, k: nat, p: Packet)
    requires k < |r| && InPlace(q, s, r)
    ensures InPlace(q, [] + s, r[k := Absorb(r[k], p)])
  {
    assert [] + s == s;
  }

  lemma HasCollapse(q: seq<Packet>, id: string)
    ensures Has(Collapse(q), id) <==> Has(q, id)
  {
    HasLane(q, id);
    LaneCollapse(q, id);
    HasLane(Collapse(q), id);
  }

  lemma {:induction false} HasIndex(q: seq<Packet>, id: string, j: nat)
    requires j < |q| && q[j].streamID == id
    ensures Has(q, id)
  {
    if j > 0 { HasIndex(q[1..], id, j - 1); }
  }

  lemma SurvivesHead(q: seq<Packet>, n: nat)
    requires n < |q|
    ensures Survives(q, n) <==> q[n].EOS || !Has(q[n + 1..], q[n].streamID)
  {
    var id, t := q[n].streamID, q[n + 1..];
    if Has(t, id) {
      assert q[n + 1 + First(t, id)].streamID == id;
    } else if j :| n < j < |q| && q[j].streamID == id {
      HasIndex(t, id, j - n - 1);
    }
  }

  // ---------- taking packets out ----------

  /** The queue without its first packet of a stream ID. */
  function Without(q: seq<Packet>, id: string): seq<Packet> {
    if q == [] then [] else if q[0].streamID == id then q[1..] else [q[0]] + Without(q[1..], id)
  }

  lemma {:induction false} LaneWithout(q: seq<Packet>, id: string, other: string)
    ensures Lane(Without(q, id), other) ==
            if other == id && Lane(q, id) != [] then Lane(q, id)[1..] else Lane(q, other)
  {
    if q != [] && q[0].streamID != id {
      LaneWithout(q[1..], id, other);
      LaneCons(q[0], Without(q[1..], id), other);
    }
  }

  /** The queue without its last packet of a stream ID. */
  function Evict(q: seq<Packet>, id: string): seq<Packet> {
    if q == [] then [] else
      var n := |q| - 1;
      if q[n].streamID == id then q[..n] else Evict(q[..n], id) + [q[n]]
  }

  lemma {:induction false} LaneEvict(q: seq<Packet>, id: string, other: string)
    ensures Lane(Evict(q, id), other) ==
            if other == id && Lane(q, id) != [] then Lane(q, id)[..|Lane(q, id)| - 1] else Lane(q, other)
  {
    hide Lane;
    if q == [] {
      NoLane(other);
      NoLane(id);
    } else {
      var front, last := q[..|q| - 1], q[|q| - 1];
      assert q == front + [last];
      LaneSnoc(front, last, id);
      LaneSnoc(front, last, other);
      if last.streamID != id {
        LaneEvict(front, id, other);
        LaneSnoc(Evict(front, id), last, other);
      } else if other == id {
        assert Lane(q, id)[..|Lane(q, id)| - 1] == Lane(front, id);
      }
    }
  }

  lemma NoLane(id: string)
    ensures Lane([], id) == []
  {
  }

  lemma LaneSnoc(q: seq<Packet>, p: Packet, id: string)
    ensures Lane(q + [p], id) == if p.streamID == id then Lane(q, id) + [p] else Lane(q, id)
  {
    LaneConcat(q, [p], id);
    assert [p][1..] == [];
  }

  // ---------- putting packets in ----------

  /** What a port queues: no mark yet, and empty only as an end-of-stream. */
  predicate GoodPush(p: Packet) {
    !p.inputQueueFlushed && (p.EOS || p.buffer != [])
  }

  /** The packet that takes the place of `saved`, the last one of its stream ID, on overflow. */
  function Replacing(p: Packet, saved: Packet): Packet {
    p.(sriChanged := saved.sriChanged, inputQueueFlushed := true)
  }

  /** Pushing a packet onto a full queue: collapse it, then replace the last packet of the same
      stream ID unless that is an end-of-stream. */
  function PushFull(q: seq<Packet>, p: Packet): seq<Packet> {
    var f := Collapse(q);
    var lane := Lane(f, p.streamID);
    if lane != [] && !lane[|lane| - 1].EOS
    then Evict(f, p.streamID) + [Replacing(p, lane[|lane| - 1])]
    else f + [p]
  }

  /** A push onto a full queue, packet by packet: of the collapsed queue the last packet of the stream
      ID goes, unless that is an end-of-stream; the new one is put at the end, with the SRI change of
      the one that went, and marked. */
  lemma PushFullIs(q: seq<Packet>, p: Packet, i: nat)
    requires i < |Collapse(q)| && Collapse(q)[i].streamID == p.streamID
    requires forall j :: i < j < |Collapse(q)| ==> Collapse(q)[j].streamID != p.streamID
    ensures var f := Collapse(q);
            PushFull(q, p) == if f[i].EOS then f + [p]
                              else f[..i] + f[i + 1..] + [p.(sriChanged := f[i].sriChanged, inputQueueFlushed := true)]
  {
    hide Collapse;
    LastOf(Collapse(q), p.streamID, i);
  }

  /** The same when the queue holds nothing of the stream ID. */
  lemma PushFullNew(q: seq<Packet>, p: Packet)
    requires forall j :: 0 <= j < |Collapse(q)| ==> Collapse(q)[j].streamID != p.streamID
    ensures PushFull(q, p) == Collapse(q) + [p]
  {
    hide Collapse, Has;
    NotHeld(Collapse(q), p.streamID);
  }

  lemma {:induction false} NotHeld(q: seq<Packet>, id: string)
    requires forall j :: 0 <= j < |q| ==> q[j].streamID != id
    ensures Lane(q, id) == []
  {
    if q != [] { NotHeld(q[1..], id); }
  }

  lemma {:induction false} LastOf(q: seq<Packet>, id: string, i: nat)
    requires i < |q| && q[i].streamID == id && forall j :: i < j < |q| ==> q[j].streamID != id
    ensures var lane := Lane(q, id); lane != [] && lane[|lane| - 1] == q[i] && Evict(q, id) == q[..i] + q[i + 1..]
  {
    hide Lane;
    var n := |q| - 1;
    assert q == q[..n] + [q[n]];
    LaneSnoc(q[..n], q[n], id);
    if i < n {
      LastOf(q[..n], id, i);
      assert q[..n][..i] == q[..i] && q[..n][i + 1..] + [q[n]] == q[i + 1..];
      Regroup(q[..i], q[..n][i + 1..], [q[n]]);
    } else {
      assert q[n + 1..] == [];
    }
  }

  /** The same on a single lane. */
  function PushFullLane(lane: seq<Packet>, p: Packet): seq<Packet> {
    var f := Collapse(lane);
    if f != [] && !f[|f| - 1].EOS then f[..|f| - 1] + [Replacing(p, f[|f| - 1])] else f + [p]
  }

  /** An overflow acts on each lane by itself: the pushed packet's lane gets it, every other
      lane is merely collapsed. */
  lemma LanePushFull(q: seq<Packet>, p: Packet, id: string)
    ensures Lane(PushFull(q, p), id) ==
            if id == p.streamID then PushFullLane(Lane(q, id), p) else Collapse(Lane(q, id))
  {
    var f := Collapse(q);
    LaneCollapse(q, id);
    LaneCollapse(q, p.streamID);
    var lane := Lane(f, p.streamID);
    if lane != [] && !lane[|lane| - 1].EOS {
      LaneEvict(f, p.streamID, id);
      LaneSnoc(Evict(f, p.streamID), Replacing(p, lane[|lane| - 1]), id);
    } else {
      LaneSnoc(f, p, id);
    }
  }
}
