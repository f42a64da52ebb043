/** Blocks of samples as input streams return them, with the times at which parts of them start. */
module DataBlocks {
  import opened BulkioTypes
  import opened PrecisionTime

  datatype SampleTimestamp = SampleTimestamp(time: Time, offset: nat, synthetic: bool)

  /** Where a timestamp of this offset goes: behind every one that is not later. */
  function Place(ts: seq<SampleTimestamp>, offset: nat): (k: nat)
    ensures k <= |ts|
  {
    if ts == [] || ts[0].offset > offset then 0 else 1 + Place(ts[1..], offset)
  }

  predicate Increasing(ts: seq<SampleTimestamp>) {
    forall i, j :: 0 <= i < j < |ts| ==> ts[i].offset < ts[j].offset
  }

  lemma {:induction false} PlaceLast(ts: seq<SampleTimestamp>, offset: nat)
    requires forall i :: 0 <= i < |ts| ==> ts[i].offset <= offset
    ensures Place(ts, offset) == |ts|
  {
    if ts != [] { PlaceLast(ts[1..], offset); }
  }

  /** In an increasing list the place separates the offsets that are not later from the later ones. */
  lemma {:induction false} PlaceSplits(ts: seq<SampleTimestamp>, offset: nat)
    requires Increasing(ts)
    ensures var k := Place(ts, offset);
            (forall i :: 0 <= i < k ==> ts[i].offset <= offset) && (forall i :: k <= i < |ts| ==> ts[i].offset > offset)
  {
    if ts != [] && ts[0].offset <= offset { PlaceSplits(ts[1..], offset); }
  }

  /** The list with a timestamp in its place. */
  function Inserted(ts: seq<SampleTimestamp>, t: SampleTimestamp): seq<SampleTimestamp> {
    ts[..Place(ts, t.offset)] + [t] + ts[Place(ts, t.offset)..]
  }

  /** Inserting keeps an increasing list increasing exactly when the offset is new. */
  lemma InsertedIncreases(ts: seq<SampleTimestamp>, t: SampleTimestamp)
    requires Increasing(ts)
    ensures Increasing(Inserted(ts, t)) <==> forall i :: 0 <= i < |ts| ==> ts[i].offset != t.offset
  {
    PlaceSplits(ts, t.offset);
    var k, r := Place(ts, t.offset), Inserted(ts, t);
    assert r[k] == t && (forall i :: 0 <= i < k ==> r[i] == ts[i]) && (forall i :: k < i < |r| ==> r[i] == ts[i - 1]);
    if i :| 0 <= i < |ts| && ts[i].offset == t.offset {
      assert r[i].offset == r[k].offset;
    }
  }

  /** All that a block says. */
  datatype Content = Content(sri: Sri, buffer: seq<Sample>, timestamps: seq<SampleTimestamp>,
                             sriChanged: bool, inputQueueFlushed: bool)

  class DataBlock {
    const sri: Sri
    var buffer: seq<Sample>
    var timestamps: seq<SampleTimestamp>
    var sriChanged: bool
    var inputQueueFlushed: bool

    constructor (sri: Sri)
      ensures this.sri == sri && buffer == [] && timestamps == [] && !sriChanged && !inputQueueFlushed
    {
      this.sri, buffer, timestamps, sriChanged, inputQueueFlushed := sri, [], [], false, false;
    }

    function Says(): Content
      reads this
    {
      Content(sri, buffer, timestamps, sriChanged, inputQueueFlushed)
    }

    method AddTimestamp(timestamp: SampleTimestamp)
      modifies this`timestamps
      ensures timestamps == Inserted(old(timestamps), timestamp)
    {
      var pos := 0;
      assert timestamps[0..] == timestamps;
      while pos != |timestamps| && timestamp.offset >= timestamps[pos].offset
        invariant 0 <= pos <= |timestamps|
        invariant Place(timestamps, timestamp.offset) == pos + Place(timestamps[pos..], timestamp.offset)
        decreases |timestamps| - pos
      {
        assert timestamps[pos..][1..] == timestamps[pos + 1..];
        pos := pos + 1;
      }
      timestamps := timestamps[..pos] + [timestamp] + timestamps[pos..];
    }

    /** The time of the first sample; None stands for the exception of validate_timestamps. */
    method GetStartTime() returns (time: Option<Time>)
      ensures time == if timestamps == [] || timestamps[0].offset != 0 then None else Some(timestamps[0].time)
    {
      if |timestamps| == 0 { return None; }
      if timestamps[0].offset != 0 { return None; }
      time := Some(timestamps[0].time);
    }
  }

  // ---------- a block cut at its packets ----------

  /** A stretch of one packet: the packet's time, where the stretch starts in it, its scalars. */
  datatype Piece = Piece(T: Time, start: nat, data: seq<Sample>)

  function Data(ps: seq<Piece>): seq<Sample> {
    if ps == [] then [] else ps[0].data + Data(ps[1..])
  }

  /** How much later than its packet the scalar at `start` was taken. */
  function Shift(start: nat, sri: Sri): real {
    if sri.mode != 0 then start as real * sri.xdelta / 2.0 else start as real * sri.xdelta
  }

  function Stamp(p: Piece, at: nat, sri: Sri): SampleTimestamp {
    var shift := Shift(p.start, sri);
    SampleTimestamp(if shift > 0.0 then Plus(p.T, shift) else p.T, at / sri.ItemSize(), shift > 0.0)
  }

  function Stamps(ps: seq<Piece>, at: nat, sri: Sri): (ts: seq<SampleTimestamp>)
    ensures |ts| == |ps|
  {
    if ps == [] then [] else [Stamp(ps[0], at, sri)] + Stamps(ps[1..], at + |ps[0].data|, sri)
  }

  /** A timestamp in figures: the packet's time, later by what was passed of the packet, two scalars
      to a sample on a complex stream; and the number of samples before it in the block. */
  lemma StampIs(p: Piece, at: nat, sri: Sri)
    ensures var r, item := Stamp(p, at, sri), if sri.mode != 0 then 2 else 1;
            var shift := p.start as real * sri.xdelta / item as real;
            && r.offset == at / item && (r.synthetic <==> shift > 0.0)
            && (shift <= 0.0 ==> r.time == p.T)
            && (shift > 0.0 ==>
                  && r.time.twsec + r.time.tfsec == p.T.twsec + p.T.tfsec + shift
                  && r.time.tcmode == p.T.tcmode && r.time.tcstatus == p.T.tcstatus && r.time.toff == p.T.toff)
  {
  }

  lemma {:induction false} StampsAt(ps: seq<Piece>, at: nat, sri: Sri, i: nat)
    requires i < |ps|
    ensures Stamps(ps, at, sri)[i] == Stamp(ps[i], at + |Data(ps[..i])|, sri)
  {
    hide Stamp;
    if i > 0 {
      StampsAt(ps[1..], at + |ps[0].data|, sri, i - 1);
      assert ps[..i] == [ps[0]] + ps[1..][..i - 1];
      assert ps[..i][1..] == ps[1..][..i - 1];
    } else {
      assert ps[..0] == [];
    }
  }

  predicate NonEmpty(ps: seq<Piece>) {
    forall i :: 0 <= i < |ps| ==> ps[i].data != []
  }

  /** Some piece is a single scalar, and that the first half of a complex sample. */
  predicate LoneHalf(ps: seq<Piece>, at: nat, item: nat) {
    ps != [] && ((item == 2 && at % 2 == 0 && |ps[0].data| == 1) || LoneHalf(ps[1..], at + |ps[0].data|, item))
  }

  /** Timestamps in order, each of a sample of its own, in a block of so many samples. */
  predicate Ordered(ts: seq<SampleTimestamp>, samples: nat) {
    Increasing(ts) && forall i :: 0 <= i < |ts| ==> ts[i].offset < samples
  }

  lemma {:induction false} DataSnoc(ps: seq<Piece>, p: Piece)
    ensures Data(ps + [p]) == Data(ps) + p.data
  {
    if ps == [] {
      assert [p][1..] == [] && [] + [p] == [p];
    } else {
      assert (ps + [p])[1..] == ps[1..] + [p];
      DataSnoc(ps[1..], p);
    }
  }

  lemma {:induction false} StampsSnoc(ps: seq<Piece>, p: Piece, at: nat, sri: Sri)
    ensures Stamps(ps + [p], at, sri) == Stamps(ps, at, sri) + [Stamp(p, at + |Data(ps)|, sri)]
  {
    if ps == [] {
      assert [p][1..] == [] && [] + [p] == [p];
    } else {
      assert (ps + [p])[1..] == ps[1..] + [p];
      StampsSnoc(ps[1..], p, at + |ps[0].data|, sri);
    }
  }

  /** The timestamps of a block's pieces start where the data does; they strictly increase and stay
      below the number of samples exactly when no piece is a lone first half. */
  lemma {:induction false} StampsIncrease(ps: seq<Piece>, at: nat, sri: Sri)
    requires ps != [] && NonEmpty(ps)
    ensures Stamps(ps, at, sri)[0].offset == at / sri.ItemSize()
    ensures Ordered(Stamps(ps, at, sri), (at + |Data(ps)|) / sri.ItemSize()) <==> !LoneHalf(ps, at, sri.ItemSize())
  {
    hide Shift, Ordered;
    var next, item := at + |ps[0].data|, sri.ItemSize();
    var t, rest, samples := Stamp(ps[0], at, sri), Stamps(ps[1..], next, sri), (at + |Data(ps)|) / item;
    Quotients(at, next, item);
    assert Stamps(ps, at, sri) == [t] + rest && |Data(ps)| == |ps[0].data| + |Data(ps[1..])|;
    if |ps| > 1 {
      StampsIncrease(ps[1..], next, sri);
      OrderedCons(t, rest, samples);
    } else {
      assert ps[1..] == [] && [t] + rest == [t];
      OrderedOne(t, samples);
    }
  }

  lemma OrderedCons(t: SampleTimestamp, rest: seq<SampleTimestamp>, samples: nat)
    requires rest != []
    ensures Ordered([t] + rest, samples) <==> t.offset < rest[0].offset && Ordered(rest, samples)
  {
    var ts := [t] + rest;
    assert ts[0] == t && ts[1] == rest[0];
    if Ordered(ts, samples) {
      OrderedRest(t, rest, samples);
    } else if t.offset < rest[0].offset && Ordered(rest, samples) {
      OrderedMore(t, rest, samples);
    }
  }

  lemma OrderedRest(t: SampleTimestamp, rest: seq<SampleTimestamp>, samples: nat)
    requires Ordered([t] + rest, samples)
    ensures Ordered(rest, samples)
  {
    var ts := [t] + rest;
    forall i | 0 <= i < |rest| ensures rest[i].offset < samples {
      assert ts[i + 1] == rest[i];
    }
    forall i, j | 0 <= i < j < |rest| ensures rest[i].offset < rest[j].offset {
      assert ts[i + 1] == rest[i] && ts[j + 1] == rest[j];
    }
  }

  lemma OrderedMore(t: SampleTimestamp, rest: seq<SampleTimestamp>, samples: nat)
    requires rest != [] && t.offset < rest[0].offset && Ordered(rest, samples)
    ensures Ordered([t] + rest, samples)
  {
    var ts := [t] + rest;
    forall j | 0 < j < |ts| ensures ts[j] == rest[j - 1] && rest[0].offset <= ts[j].offset < samples {
      assert ts[j] == rest[j - 1];
    }
    forall i, j | 0 <= i < j < |ts| ensures ts[i].offset < ts[j].offset {
      if i > 0 { assert rest[i - 1].offset < rest[j - 1].offset; }
    }
  }

  lemma OrderedOne(t: SampleTimestamp, samples: nat)
    ensures Ordered([t], samples) <==> t.offset < samples
  {
    assert [t][0] == t;
  }

  lemma Quotients(a: nat, b: nat, item: nat)
    requires (item == 1 || item == 2) && a <= b
    ensures a / item <= b / item
    ensures a < b ==> (a / item < b / item <==> !(item == 2 && a % 2 == 0 && b == a + 1))
  {
    if item == 1 { assert a / 1 == a && b / 1 == b; }
  }

  lemma {:induction false} StampsBelow(ps: seq<Piece>, at: nat, sri: Sri, end: nat)
    requires end == at + |Data(ps)|
    ensures forall i :: 0 <= i < |ps| ==> Stamps(ps, at, sri)[i].offset <= end / sri.ItemSize()
  {
    hide Shift;
    if ps != [] {
      StampsBelow(ps[1..], at + |ps[0].data|, sri, end);
      Quotients(at, end, sri.ItemSize());
      assert Stamps(ps, at, sri) == [Stamp(ps[0], at, sri)] + Stamps(ps[1..], at + |ps[0].data|, sri);
    }
  }
}
