/** What an input port knows about one stream ID: its lane of the packet queue, its SRI
    registration, and the input streams that share the ID. */
module StreamCells {
  import opened BulkioTypes
  import opened PacketQueue

  datatype EosState = EosNone | EosReceived | EosReached | EosReported

  function Rank(e: EosState): nat {
    match e case EosNone => 0 case EosReceived => 1 case EosReached => 2 case EosReported => 3
  }

  /** `registered` holds the SRI-changed flag of the registration, `active` the state of the
      active stream, `pending` the number of streams waiting behind it. */
  datatype Cell = Cell(lane: seq<Packet>, registered: Option<bool>, active: Option<EosState>, pending: nat)

  /** Sri: an SRI arrives, differing or not from the registered one. Arrive: a packet arrives at
      a port that is full or not. Squeeze: the port overflowed for another stream ID. Take: the
      active stream fetches a packet. Reach: it gets to its end. Report: it reports its end and
      leaves the port. */
  datatype Event = SriPushed(differs: bool) | Arrive(p: Packet, full: bool) | Squeeze | Take | Reach | Report

  function AddStream(c: Cell): Cell {
    if c.active.None? then c.(active := Some(EosNone)) else c.(pending := c.pending + 1)
  }

  /** The condition under which pushSRI opens a further stream for a registered ID. */
  predicate AllEnded(c: Cell) {
    1 + c.pending == EosIn(c.lane)
  }

  function SriStep(c: Cell, differs: bool): Cell {
    if c.registered.None? then AddStream(c.(registered := Some(true)))
    else if AllEnded(c) then AddStream(c)
    else c.(registered := Some(c.registered.value || differs))
  }

  function ArriveStep(c: Cell, p: Packet, full: bool): Cell {
    var d := if c.registered.None? then AddStream(c) else c;
    d.(lane := Pushed(c.lane, p.(sriChanged := c.registered.None? || c.registered.value), full),
       registered := if p.EOS then None else Some(false))
  }

  function Step(c: Cell, e: Event): Cell {
    match e
    case SriPushed(differs) => SriStep(c, differs)
    case Arrive(p, full) => ArriveStep(c, p, full)
    case Squeeze => c.(lane := Collapse(c.lane))
    case Take =>
      if c.lane == [] || c.active != Some(EosNone) then c
      else c.(lane := c.lane[1..], active := Some(if c.lane[0].EOS then EosReceived else EosNone))
    case Reach => if c.active == Some(EosReceived) then c.(active := Some(EosReached)) else c
    case Report => if c.active == Some(EosReached) then RemoveStream(c) else c
  }

  /** The active stream leaves and the next one of the same ID, if any, takes its place. */
  function RemoveStream(c: Cell): Cell {
    if c.pending > 0 then c.(active := Some(EosNone), pending := c.pending - 1) else c.(active := None)
  }

  function Pushed(lane: seq<Packet>, p: Packet, full: bool): seq<Packet> {
    if full then PushFullLane(lane, p) else lane + [p]
  }

  function Run(es: seq<Event>): Cell {
    if es == [] then Cell([], None, None, 0) else Step(Run(es[..|es| - 1]), es[|es| - 1])
  }

  // ---------- the invariant ----------

  function Held(c: Cell): nat {
    (if c.active.Some? then 1 else 0) + c.pending
  }

  /** End-of-streams fetched by the active stream and not reported yet. */
  function Unreported(c: Cell): nat {
    if c.active == Some(EosReceived) || c.active == Some(EosReached) then 1 else 0
  }

  /** One input stream is held for every end-of-stream on its way, and one for the registration. */
  predicate Balanced(c: Cell) {
    Held(c) == EosIn(c.lane) + Unreported(c) + if c.registered.Some? then 1 else 0
  }

  /** Only an end-of-stream may be empty, and what follows one starts with an SRI change. */
  predicate LaneOk(lane: seq<Packet>) {
    && (forall i :: 0 <= i < |lane| ==> lane[i].EOS || lane[i].buffer != [])
    && (forall i :: 0 < i < |lane| && lane[i - 1].EOS ==> lane[i].sriChanged)
  }

  predicate CellOk(c: Cell) {
    && LaneOk(c.lane)
    && (c.lane != [] && c.lane[|c.lane| - 1].EOS ==> c.registered != Some(false))
    && (c.pending > 0 ==> c.active.Some?)
    && c.active != Some(EosReported)
    && Balanced(c)
  }

  lemma {:induction false} CollapseEos(lane: seq<Packet>, id: string)
    requires SingleLane(lane, id)
    ensures EosIn(Collapse(lane)) == EosIn(lane)
    ensures lane != [] ==> Collapse(lane)[|Collapse(lane)| - 1].EOS == lane[|lane| - 1].EOS
  {
    if lane != [] {
      CollapseEos(lane[1..], id);
      CollapseLane(lane[1..], id);
      CollapseHead(lane, id);
      var t := Collapse(lane[1..]);
      if t != [] {
        var a := Absorb(t[0], lane[0]);
        assert t[0 := a][1..] == t[1..];
      }
      assert ([lane[0]] + t)[1..] == t;
    }
  }

  lemma {:induction false} CollapseLaneOk(lane: seq<Packet>, id: string)
    requires SingleLane(lane, id) && LaneOk(lane)
    ensures LaneOk(Collapse(lane))
    ensures lane != [] && lane[0].sriChanged ==> Collapse(lane)[0].sriChanged
  {
    if lane != [] {
      assert LaneOk(lane[1..]) by {
        assert forall i :: 0 <= i < |lane| - 1 ==> lane[1..][i] == lane[i + 1];
      }
      CollapseLaneOk(lane[1..], id);
      CollapseLane(lane[1..], id);
      CollapseHead(lane, id);
      CollapseLaneOkHead(lane, id);
    }
  }

  lemma CollapseLaneOkHead(lane: seq<Packet>, id: string)
    requires lane != [] && LaneOk(lane) && LaneOk(Collapse(lane[1..]))
    requires |lane| > 1 && lane[1].sriChanged ==> Collapse(lane[1..])[0].sriChanged
    requires var t, r := lane[1..], Collapse(lane[1..]);
             Collapse(lane) == if t != [] && !lane[0].EOS then r[0 := Absorb(r[0], lane[0])] else [lane[0]] + r
    ensures LaneOk(Collapse(lane))
    ensures lane[0].sriChanged ==> Collapse(lane)[0].sriChanged
  {
  }

  lemma PushFullCell(lane: seq<Packet>, p: Packet)
    requires SingleLane(lane, p.streamID) && LaneOk(lane) && GoodPush(p)
    requires lane != [] && lane[|lane| - 1].EOS ==> p.sriChanged
    ensures var r := PushFullLane(lane, p);
            && LaneOk(r) && EosIn(r) == EosIn(lane) + (if p.EOS then 1 else 0)
            && r != [] && r[|r| - 1].EOS == p.EOS
  {
    CollapseLaneOk(lane, p.streamID);
    CollapseEos(lane, p.streamID);
    var f := Collapse(lane);
    if f != [] && !f[|f| - 1].EOS { ReplaceLast(f, p); } else { PushCell(f, p); }
  }

  lemma ReplaceLast(f: seq<Packet>, p: Packet)
    requires f != [] && LaneOk(f) && !f[|f| - 1].EOS && GoodPush(p)
    ensures var r := f[..|f| - 1] + [Replacing(p, f[|f| - 1])];
            LaneOk(r) && EosIn(r) == EosIn(f) + (if p.EOS then 1 else 0)
  {
    var front, last := f[..|f| - 1], f[|f| - 1];
    assert f == front + [last];
    EosInConcat(front, [last]);
    EosInConcat(front, [Replacing(p, last)]);
    assert [last][1..] == [] && [Replacing(p, last)][1..] == [];
  }

  lemma PushCell(lane: seq<Packet>, p: Packet)
    requires LaneOk(lane) && GoodPush(p)
    requires lane != [] && lane[|lane| - 1].EOS ==> p.sriChanged
    ensures LaneOk(lane + [p]) && EosIn(lane + [p]) == EosIn(lane) + (if p.EOS then 1 else 0)
  {
    EosInConcat(lane, [p]);
    EosInOne(p);
    hide EosIn;
  }

  lemma EosInOne(p: Packet)
    ensures EosIn([p]) == if p.EOS then 1 else 0
  {
    assert [p][1..] == [];
  }

  lemma StepOk(c: Cell, e: Event, id: string)
    requires CellOk(c) && SingleLane(c.lane, id)
    requires e.Arrive? ==> e.p.streamID == id && GoodPush(e.p)
    ensures CellOk(Step(c, e)) && SingleLane(Step(c, e).lane, id)
  {
    match e
    case Arrive(p, full) => ArriveOk(c, p, full);
    case Squeeze =>
      CollapseEos(c.lane, id);
      CollapseLaneOk(c.lane, id);
      CollapseLane(c.lane, id);
    case Take => TakeOk(c, id);
    case _ =>
  }

  lemma PushedOk(lane: seq<Packet>, p: Packet, full: bool)
    requires SingleLane(lane, p.streamID) && LaneOk(lane) && GoodPush(p)
    requires lane != [] && lane[|lane| - 1].EOS ==> p.sriChanged
    ensures var r := Pushed(lane, p, full);
            && LaneOk(r) && EosIn(r) == EosIn(lane) + (if p.EOS then 1 else 0)
            && r != [] && r[|r| - 1].EOS == p.EOS && SingleLane(r, p.streamID)
  {
    if full {
      PushFullCell(lane, p);
      CollapseLane(lane, p.streamID);
    } else {
      PushCell(lane, p);
    }
  }

  lemma ArriveOk(c: Cell, p: Packet, full: bool)
    requires CellOk(c) && SingleLane(c.lane, p.streamID) && GoodPush(p)
    ensures var d := Step(c, Arrive(p, full)); CellOk(d) && SingleLane(d.lane, p.streamID)
  {
    var q := p.(sriChanged := c.registered.None? || c.registered.value);
    PushedOk(c.lane, q, full);
    ArrivedOk(c, p, Pushed(c.lane, q, full));
  }

  lemma ArrivedOk(c: Cell, p: Packet, lane: seq<Packet>)
    requires CellOk(c) && LaneOk(lane) && EosIn(lane) == EosIn(c.lane) + (if p.EOS then 1 else 0)
    requires lane != [] && lane[|lane| - 1].EOS == p.EOS
    ensures var d := if c.registered.None? then AddStream(c) else c;
            CellOk(d.(lane := lane, registered := if p.EOS then None else Some(false)))
  {
  }

  lemma TakeOk(c: Cell, id: string)
    requires CellOk(c) && SingleLane(c.lane, id)
    ensures CellOk(Step(c, Take)) && SingleLane(Step(c, Take).lane, id)
  {
    if c.lane != [] {
      assert forall i :: 0 <= i < |c.lane| - 1 ==> c.lane[1..][i] == c.lane[i + 1];
    }
  }

  /** A registered ID always has a stream whose end has not been pushed yet, so pushSRI never
      opens a further stream for it. */
  lemma NeverAllEnded(c: Cell)
    requires CellOk(c) && c.registered.Some?
    ensures !AllEnded(c)
  {
  }

  /** In every run the streams held for an ID are exactly accounted for. */
  lemma {:induction false} RunBalanced(es: seq<Event>, id: string)
    requires forall i :: 0 <= i < |es| && es[i].Arrive? ==> es[i].p.streamID == id && GoodPush(es[i].p)
    ensures CellOk(Run(es)) && SingleLane(Run(es).lane, id)
    ensures Run(es).registered.Some? ==> !AllEnded(Run(es))
  {
    if es != [] {
      RunBalanced(es[..|es| - 1], id);
      StepOk(Run(es[..|es| - 1]), es[|es| - 1], id);
    }
  }
}
