/** Writing a block with the list of times it came with. */
module TimedWrites {
  import opened BulkioTypes
  import opened PrecisionTime
  import opened DataBlocks
  import opened Buffering

  /** An offset in scalars; offsets count samples, of one scalar or two. */
  function Scaled(offset: nat, item: nat): nat { if item == 2 then 2 * offset else offset }

  /** Where _writeMultiple ends the write before a timestamp: the offset is cut to the number of
      scalars first, and doubled for a complex stream then. */
  function CutAt(offset: nat, scalars: nat, item: nat): nat { Scaled(Min(offset, scalars), item) }

  /** Every slice that the loop takes from the scalar at `first` on lies in the data. */
  predicate Inside(times: seq<SampleTimestamp>, first: nat, scalars: nat, item: nat)
    requires times != []
  {
    first == scalars || |times| == 1 ||
    var last := CutAt(times[1].offset, scalars, item);
    first <= last <= scalars && Inside(times[1..], last, scalars, item)
  }

  /** The offset of the first timestamp is never looked at. */
  function Before(times: seq<SampleTimestamp>, k: nat, previous: nat): nat
    requires 1 <= k < |times|
  {
    if k == 1 then previous else times[k - 1].offset
  }

  /** No timestamp before the k-th is at the end of the data or beyond. */
  predicate Short(times: seq<SampleTimestamp>, k: nat, scalars: nat, item: nat)
    requires k < |times|
  {
    forall j :: 1 <= j < k ==> Scaled(times[j].offset, item) < scalars
  }

  /** Up to the first timestamp at the end of the data or beyond, the offsets do not decrease, and
      on a complex stream none of them, that one included, is beyond. */
  predicate FitsAfter(times: seq<SampleTimestamp>, previous: nat, scalars: nat, item: nat) {
    forall k :: 1 <= k < |times| && Short(times, k, scalars, item) ==>
      Before(times, k, previous) <= times[k].offset && (item == 2 ==> 2 * times[k].offset <= scalars)
  }

  predicate Fits(times: seq<SampleTimestamp>, scalars: nat, item: nat) {
    scalars == 0 || FitsAfter(times, 0, scalars, item)
  }

  /** The slices lie in the data exactly when the timestamps fit it. */
  lemma InsideExactly(times: seq<SampleTimestamp>, scalars: nat, item: nat)
    requires times != [] && (item == 1 || item == 2)
    ensures Inside(times, 0, scalars, item) <==> Fits(times, scalars, item)
  {
    if scalars > 0 { InsideAfter(times, 0, scalars, item); }
  }

  lemma {:induction false} InsideAfter(times: seq<SampleTimestamp>, previous: nat, scalars: nat, item: nat)
    requires times != [] && (item == 1 || item == 2) && Scaled(previous, item) < scalars
    ensures Inside(times, Scaled(previous, item), scalars, item) <==> FitsAfter(times, previous, scalars, item)
    decreases |times|
  {
    hide FitsAfter;
    if |times| == 1 {
      assert FitsAfter(times, previous, scalars, item) by { FitsOne(times, previous, scalars, item); }
    } else {
      var offset := times[1].offset;
      FitsNext(times, previous, scalars, item);
      if Scaled(offset, item) < scalars { InsideAfter(times[1..], offset, scalars, item); }
    }
  }

  lemma FitsOne(times: seq<SampleTimestamp>, previous: nat, scalars: nat, item: nat)
    requires |times| == 1
    ensures FitsAfter(times, previous, scalars, item)
  {
  }

  lemma FitsNext(times: seq<SampleTimestamp>, previous: nat, scalars: nat, item: nat)
    requires |times| > 1 && (item == 1 || item == 2)
    ensures var offset := times[1].offset;
            FitsAfter(times, previous, scalars, item)
            <==> previous <= offset && (item == 2 ==> 2 * offset <= scalars)
                 && (Scaled(offset, item) >= scalars || FitsAfter(times[1..], offset, scalars, item))
  {
    var offset, rest := times[1].offset, times[1..];
    assert Short(times, 1, scalars, item);
    forall k | 1 <= k < |rest| && Scaled(offset, item) < scalars
      ensures Short(rest, k, scalars, item) <==> Short(times, k + 1, scalars, item)
      ensures Before(rest, k, offset) == Before(times, k + 1, previous) && rest[k] == times[k + 1]
    {
      ShortNext(times, k, scalars, item);
    }
    if FitsAfter(times, previous, scalars, item) {
      assert Before(times, 1, previous) == previous;
    } else {
      var k :| 1 <= k < |times| && Short(times, k, scalars, item)
               && !(Before(times, k, previous) <= times[k].offset && (item == 2 ==> 2 * times[k].offset <= scalars));
      if k > 1 {
        assert Scaled(times[1].offset, item) < scalars;
        assert rest[k - 1] == times[k];
      }
    }
  }

  lemma ShortNext(times: seq<SampleTimestamp>, k: nat, scalars: nat, item: nat)
    requires 1 <= k < |times| - 1 && Scaled(times[1].offset, item) < scalars
    ensures Short(times[1..], k, scalars, item) <==> Short(times, k + 1, scalars, item)
  {
    var rest := times[1..];
    if Short(rest, k, scalars, item) {
      forall j | 1 <= j < k + 1 ensures Scaled(times[j].offset, item) < scalars {
        if j > 1 { assert times[j] == rest[j - 1]; }
      }
    }
    if Short(times, k + 1, scalars, item) {
      forall j | 1 <= j < k ensures Scaled(rest[j].offset, item) < scalars {
        assert rest[j] == times[j + 1];
      }
    }
  }

  /** A list that does not fit: on four scalars of complex data a second timestamp at sample 3, of
      two, makes a slice of six. */
  lemma ComplexOverrun(first: SampleTimestamp, second: SampleTimestamp)
    requires second.offset == 3
    ensures CutAt(3, 4, 2) == 6 && !Inside([first, second], 0, 4, 2) && !Fits([first, second], 4, 2)
    ensures Inside([first, second], 0, 4, 1)
  {
    InsideExactly([first, second], 4, 2);
    assert [first, second][1..] == [second];
  }

  /** Where the write that starts the list ends. */
  function CutEnd(data: seq<Sample>, times: seq<SampleTimestamp>, item: nat): nat {
    if |times| <= 1 then |data| else CutAt(times[1].offset, |data|, item)
  }

  /** The writes of _writeMultiple from the scalar at `first` on. */
  function CutWrites(data: seq<Sample>, times: seq<SampleTimestamp>, first: nat, item: nat): seq<Op>
    requires times != [] && first <= |data| && Inside(times, first, |data|, item)
    decreases |times|
  {
    if first == |data| then [] else
      var last := CutEnd(data, times, item);
      [WriteOp(data[first..last], times[0].time)]
      + if |times| == 1 then [] else CutWrites(data, times[1..], last, item)
  }

  /** Nothing of the data is left out, written twice or moved. */
  lemma {:induction false} CutWritesAll(data: seq<Sample>, times: seq<SampleTimestamp>, first: nat, item: nat)
    requires times != [] && first <= |data| && Inside(times, first, |data|, item)
    ensures RunWritten(CutWrites(data, times, first, item)) == data[first..]
    decreases |times|
  {
    if first < |data| {
      var last := CutEnd(data, times, item);
      assert data[first..] == data[first..last] + data[last..];
      if |times| > 1 {
        CutWritesAll(data, times[1..], last, item);
        var rest := CutWrites(data, times[1..], last, item);
        assert ([WriteOp(data[first..last], times[0].time)] + rest)[1..] == rest;
      } else {
        assert [WriteOp(data[first..last], times[0].time)][1..] == [];
        assert data[last..] == [];
      }
    }
  }

  lemma {:induction false} CutWritesWrite(data: seq<Sample>, times: seq<SampleTimestamp>, first: nat, item: nat)
    requires times != [] && first <= |data| && Inside(times, first, |data|, item)
    ensures forall op :: op in CutWrites(data, times, first, item) ==> op.WriteOp?
    decreases |times|
  {
    if first < |data| && |times| > 1 {
      CutWritesWrite(data, times[1..], CutEnd(data, times, item), item);
    }
  }

  /** One write for each piece of a block, with the time the block gives for it. */
  function PieceWrites(ps: seq<Piece>, sri: Sri): seq<Op> {
    if ps == [] then [] else [WriteOp(ps[0].data, Stamp(ps[0], 0, sri).time)] + PieceWrites(ps[1..], sri)
  }

  /** The scalar at which the sample of another begins. */
  function Down(at: nat, item: nat): nat { if item == 2 then at / 2 * 2 else at }

  lemma NextStamp(ps: seq<Piece>, at: nat, sri: Sri)
    requires |ps| > 1
    ensures var next := at + |ps[0].data|;
            && Stamps(ps, at, sri)[1..] == Stamps(ps[1..], next, sri) && Stamps(ps, at, sri)[0] == Stamp(ps[0], at, sri)
            && |Data(ps)| == |ps[0].data| + |Data(ps[1..])|
            && CutAt(Stamps(ps, at, sri)[1].offset, at + |Data(ps)|, sri.ItemSize()) == Down(next, sri.ItemSize())
            && Down(at, sri.ItemSize()) <= Down(next, sri.ItemSize()) <= next
  {
    hide Shift;
    assert ps[1..][0] == ps[1];
    var next, item := at + |ps[0].data|, sri.ItemSize();
    assert Stamps(ps, at, sri) == [Stamp(ps[0], at, sri)] + Stamps(ps[1..], next, sri);
    assert next / item <= next <= at + |Data(ps)| by { if item == 1 { assert next / 1 == next; } }
  }

  /** Written out again with the timestamps that a read made of its pieces, a block is cut inside
      its data, whatever the pieces. */
  lemma {:induction false} StampsCut(ps: seq<Piece>, at: nat, sri: Sri, total: nat)
    requires ps != [] && at + |Data(ps)| == total
    ensures Inside(Stamps(ps, at, sri), Down(at, sri.ItemSize()), total, sri.ItemSize())
    decreases |ps|
  {
    hide Stamp, Shift, Down, Stamps;
    StampsCount(ps, at, sri);
    if |ps| > 1 {
      NextStamp(ps, at, sri);
      StampsCut(ps[1..], at + |ps[0].data|, sri, total);
    }
  }

  lemma StampsCount(ps: seq<Piece>, at: nat, sri: Sri)
    ensures |Stamps(ps, at, sri)| == |ps|
  {
  }

  /** On a complex stream every piece but the last is of whole samples. */
  predicate WholeButLast(ps: seq<Piece>, item: nat) {
    |ps| > 1 ==> (item == 2 ==> |ps[0].data| % 2 == 0) && WholeButLast(ps[1..], item)
  }

  /** Round trip: the timestamps that a read makes of the packets it went through cut the block back
      into those packets' stretches, each with its own time, exactly when all of them but the last
      are of whole samples. */
  lemma {:induction false} StampsRoundTrip(done: seq<Sample>, ps: seq<Piece>, sri: Sri)
    requires ps != [] && NonEmpty(ps) && |done| % sri.ItemSize() == 0
    ensures Inside(Stamps(ps, |done|, sri), |done|, |done + Data(ps)|, sri.ItemSize())
    ensures CutWrites(done + Data(ps), Stamps(ps, |done|, sri), |done|, sri.ItemSize()) == PieceWrites(ps, sri)
            <==> WholeButLast(ps, sri.ItemSize())
    decreases |ps|
  {
    hide Inside, Shift, Data, Stamps, Down, Sri.ItemSize, NonEmpty;
    var data, times, item := done + Data(ps), Stamps(ps, |done|, sri), sri.ItemSize();
    NextDown(|done|, |ps[0].data|, item);
    RestNonEmpty(ps);
    StampsCut(ps, |done|, sri, |data|);
    StampsCount(ps, |done|, sri);
    DataFirst(ps);
    var writes, pieces := CutWrites(data, times, |done|, item), PieceWrites(ps, sri);
    if |ps| == 1 {
      assert data[|done|..|data|] == Data(ps) == ps[0].data;
      assert PieceWrites(ps[1..], sri) == [] && times[0] == Stamp(ps[0], |done|, sri) by { OneStamp(ps, |done|, sri); }
    } else {
      NextStamp(ps, |done|, sri);
      var more, last := done + ps[0].data, CutEnd(data, times, item);
      assert data == more + Data(ps[1..]);
      assert writes[0].data == data[|done|..last] && pieces[0].data == ps[0].data;
      if last == |more| {
        assert data[|done|..|more|] == ps[0].data;
        StampsRoundTrip(more, ps[1..], sri);
        assert writes[1..] == CutWrites(data, times[1..], last, item) && pieces[1..] == PieceWrites(ps[1..], sri);
      } else {
        assert |writes[0].data| != |pieces[0].data|;
      }
    }
  }

  lemma NextDown(at: nat, n: nat, item: nat)
    requires (item == 1 || item == 2) && at % item == 0
    ensures Down(at, item) == at && (Down(at + n, item) == at + n <==> (item == 2 ==> n % 2 == 0))
    ensures Down(at + n, item) == at + n ==> (at + n) % item == 0
  {
  }

  lemma RestNonEmpty(ps: seq<Piece>)
    requires ps != [] && NonEmpty(ps)
    ensures ps[0].data != [] && NonEmpty(ps[1..])
  {
  }

  lemma OneStamp(ps: seq<Piece>, at: nat, sri: Sri)
    requires |ps| == 1
    ensures Stamps(ps, at, sri) == [Stamp(ps[0], at, sri)]
  {
  }

  lemma DataFirst(ps: seq<Piece>)
    requires ps != []
    ensures Data(ps) == ps[0].data + Data(ps[1..])
    ensures |ps| == 1 ==> Data(ps) == ps[0].data
  {
  }
}
