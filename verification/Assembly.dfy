/** How an input stream puts a block together from the packets it holds. */
module Assembly {
  import opened BulkioTypes
  import opened PrecisionTime
  import opened StreamCells
  import opened DataBlocks
  import opened StreamBuffer

  /** The timestamp that _addTimestamp computes: the packet's time is moved to the scalar at
      inputOffset, and the output offset is counted in samples. */
  method MakeTimestamp(sri: Sri, inputOffset: nat, outputOffset: nat, time: Time) returns (r: SampleTimestamp)
    ensures r == Stamp(Piece(time, inputOffset, []), outputOffset, sri)
  {
    var timeOffset := inputOffset as real * sri.xdelta;
    var offset, stamp := outputOffset, time;
    if sri.mode != 0 {
      timeOffset := timeOffset / 2.0;
      offset := offset / 2;
    }
    assert timeOffset == Shift(inputOffset, sri) && offset == outputOffset / sri.ItemSize();
    hide Shift, Sri.ItemSize;
    var synthetic := false;
    if timeOffset > 0.0 {
      stamp := Add(stamp, timeOffset);
      synthetic := true;
    }
    r := SampleTimestamp(stamp, offset, synthetic);
  }

  /** BufferedInputStream::Impl::_addTimestamp. */
  method AddTimestamp(data: DataBlock, inputOffset: nat, outputOffset: nat, time: Time)
    requires forall i :: 0 <= i < |data.timestamps| ==> data.timestamps[i].offset <= outputOffset / data.sri.ItemSize()
    modifies data`timestamps
    ensures data.timestamps == old(data.timestamps) + [Stamp(Piece(time, inputOffset, []), outputOffset, data.sri)]
  {
    var timestamp := MakeTimestamp(data.sri, inputOffset, outputOffset, time);
    PlaceLast(data.timestamps, timestamp.offset);
    ghost var before := data.timestamps;
    data.AddTimestamp(timestamp);
    assert before[..|before|] == before && before[|before|..] == [];
  }

  /** The pieces of a block of `count` scalars: one empty piece when there are none. */
  function BlockPieces(queue: seq<Packet>, start: nat, count: nat): (ps: seq<Piece>)
    requires queue != [] && start <= |queue[0].buffer|
  {
    if count == 0 then [Piece(queue[0].T, start, [])] else Pieces(queue, start, count)
  }

  /** The block that a read of `count` scalars returns, given what the stream held, whether it
      was new, and the SRI its handle showed. */
  function BlockOf(b: Buffer, newstream: bool, sri: Sri, count: nat): Content
    requires Rep(b) && b.queue != [] && count <= b.samplesQueued
  {
    var front := b.queue[0];
    Content(front.SRI, Ready(b)[..count], Stamps(BlockPieces(b.queue, b.offset, count), 0, front.SRI),
            newstream || (front.sriChanged && sri != front.SRI), front.inputQueueFlushed)
  }

  /** The block was cut from the packets of b. */
  ghost predicate Cut(c: Content, b: Buffer, newstream: bool, sri: Sri) {
    Rep(b) && b.queue != [] && |c.buffer| <= b.samplesQueued && c == BlockOf(b, newstream, sri, |c.buffer|)
  }

  /** The block is the rest of the front packet of b. */
  ghost predicate CutPacket(c: Content, b: Buffer, newstream: bool, sri: Sri) {
    Cut(c, b, newstream, sri) && |c.buffer| == |b.queue[0].buffer| - b.offset
  }

  /** A block's first timestamp is that of its first sample, so its start time is always there. */
  lemma BlockStarts(c: Content, b: Buffer, newstream: bool, sri: Sri)
    requires Cut(c, b, newstream, sri)
    ensures c.timestamps != [] && c.timestamps[0].offset == 0
  {
    hide Shift, Flat;
    HeldLength(b);
    assert 0 / c.sri.ItemSize() == 0;
  }

  /** A block is its packets' stretches, none empty unless the block is, with their timestamps. */
  lemma BlockIsPieces(c: Content, b: Buffer, newstream: bool, sri: Sri)
    requires Cut(c, b, newstream, sri)
    ensures b.offset < |b.queue[0].buffer| && c.sri == b.queue[0].SRI
    ensures var ps := BlockPieces(b.queue, b.offset, |c.buffer|);
            && ps != [] && c.buffer == Data(ps) && c.timestamps == Stamps(ps, 0, c.sri)
            && (c.buffer != [] ==> NonEmpty(ps))
  {
    hide Shift, Flat, Stamps;
    HeldLength(b);
    if c.buffer == [] {
      EmptyPiece(b.queue[0].T, b.offset);
    } else {
      PiecesNonEmpty(b.queue, b.offset, |c.buffer|);
      PiecesData(b.queue, b.offset, |c.buffer|);
    }
  }

  lemma EmptyPiece(T: Time, start: nat)
    ensures Data([Piece(T, start, [])]) == []
  {
    assert [Piece(T, start, [])][1..] == [];
  }

  /** A block is cut from packets of which none but the first is marked with an SRI change or a flush. */
  lemma BlockUnbroken(c: Content, b: Buffer, newstream: bool, sri: Sri)
    requires Cut(c, b, newstream, sri)
    ensures forall i :: 0 < i < |b.queue| ==>
              b.queue[i].buffer != [] && !b.queue[i].sriChanged && !b.queue[i].inputQueueFlushed
    ensures b.offset < |b.queue[0].buffer| && c.buffer <= Flat(b.queue)[b.offset..]
    ensures c.sri == b.queue[0].SRI && c.inputQueueFlushed == b.queue[0].inputQueueFlushed
    ensures c.sriChanged <==> newstream || (b.queue[0].sriChanged && sri != b.queue[0].SRI)
  {
    HeldLength(b);
  }

  /** The i-th timestamp of a block, in figures: the time of the i-th packet, for the first one later
      by what had been passed of it; and the samples of the block before it. */
  lemma BlockStamp(c: Content, b: Buffer, newstream: bool, sri: Sri, i: nat)
    requires Cut(c, b, newstream, sri) && i < |c.timestamps|
    ensures i < |b.queue| && b.offset <= |Flat(b.queue)|
    ensures var t, T, item := c.timestamps[i], b.queue[i].T, if b.queue[0].SRI.mode != 0 then 2 else 1;
            var shift := if i == 0 then b.offset as real * b.queue[0].SRI.xdelta / item as real else 0.0;
            && t.offset == (if i == 0 then 0 else |Flat(b.queue[..i])| - b.offset) / item
            && (t.synthetic <==> shift > 0.0) && (shift <= 0.0 ==> t.time == T)
            && (shift > 0.0 ==>
                  && t.time.twsec + t.time.tfsec == T.twsec + T.tfsec + shift
                  && t.time.tcmode == T.tcmode && t.time.tcstatus == T.tcstatus && t.time.toff == T.toff)
  {
    hide Flat, Stamp, Stamps, BlockPieces, Rep, Ready, Data;
    BlockIsPieces(c, b, newstream, sri);
    HeldLength(b);
    var ps := BlockPieces(b.queue, b.offset, |c.buffer|);
    StampsLength(ps, c.sri);
    StampsAt(ps, 0, c.sri, i);
    BlockPiecesAt(b, |c.buffer|, i);
    PieceStamp(ps[i], |Data(ps[..i])|, c.sri, i == 0);
  }

  lemma BlockPiecesAt(b: Buffer, count: nat, i: nat)
    requires Rep(b) && b.queue != [] && b.offset <= |b.queue[0].buffer| && i < |BlockPieces(b.queue, b.offset, count)|
    ensures i < |b.queue|
    ensures var ps := BlockPieces(b.queue, b.offset, count);
            && ps[i].T == b.queue[i].T && ps[i].start == (if i == 0 then b.offset else 0)
            && |Data(ps[..i])| == if i == 0 then 0 else |Flat(b.queue[..i])| - b.offset
  {
    hide Rep, Pieces;
    if count > 0 { PiecesAt(b.queue, b.offset, count, i); }
    if i == 0 { assert BlockPieces(b.queue, b.offset, count)[..0] == []; }
  }

  lemma PieceStamp(p: Piece, at: nat, sri: Sri, first: bool)
    requires !first ==> p.start == 0
    ensures var t, item := Stamp(p, at, sri), if sri.mode != 0 then 2 else 1;
            var shift := if first then p.start as real * sri.xdelta / item as real else 0.0;
            && t.offset == at / item && (t.synthetic <==> shift > 0.0) && (shift <= 0.0 ==> t.time == p.T)
            && (shift > 0.0 ==>
                  && t.time.twsec + t.time.tfsec == p.T.twsec + p.T.tfsec + shift
                  && t.time.tcmode == p.T.tcmode && t.time.tcstatus == p.T.tcstatus && t.time.toff == p.T.toff)
  {
    hide Stamp;
    StampIs(p, at, sri);
    if !first { assert p.start as real == 0.0; }
  }

  lemma StampsLength(ps: seq<Piece>, sri: Sri)
    ensures |Stamps(ps, 0, sri)| == |ps|
  {
  }

  /** The timestamps of a block strictly increase and stay inside it exactly when no packet's
      stretch of it is a lone first half of a complex sample. */
  lemma BlockTimestamps(c: Content, b: Buffer, newstream: bool, sri: Sri)
    requires Cut(c, b, newstream, sri) && c.buffer != []
    ensures b.offset < |b.queue[0].buffer|
    ensures Ordered(c.timestamps, |c.buffer| / c.sri.ItemSize())
            <==> !LoneHalf(BlockPieces(b.queue, b.offset, |c.buffer|), 0, c.sri.ItemSize())
  {
    hide Shift, Flat, BlockPieces, BlockOf, Ordered, LoneHalf, Rep, Ready;
    BlockIsPieces(c, b, newstream, sri);
    StampsIncrease(BlockPieces(b.queue, b.offset, |c.buffer|), 0, c.sri);
  }

  /** A block that fails: two packets of half a complex sample each have timestamps of the same
      sample. */
  lemma HalvesCollide(p: Packet, q: Packet)
    requires |p.buffer| == 1 && |q.buffer| == 1 && p.SRI.Complex() && !p.EOS && !q.EOS && q.Bridges()
    ensures var b := Buffer([p, q], None, 2, 0, EosNone);
            && Rep(b) && var c := BlockOf(b, false, p.SRI, 2);
            && Cut(c, b, false, p.SRI) && |c.timestamps| == 2
            && c.timestamps[0].offset == 0 && c.timestamps[1].offset == 0
  {
    hide Shift;
    var b := Buffer([p, q], None, 2, 0, EosNone);
    assert [p, q][1..] == [q] && [q][1..] == [];
    assert Flat([q]) == q.buffer + [] == q.buffer && Flat([p, q]) == p.buffer + q.buffer;
    var first, second := Piece(p.T, 0, p.buffer[0..1]), Piece(q.T, 0, q.buffer[0..1]);
    assert Pieces([q], 0, 1) == [second] + Pieces([], 0, 0) == [second];
    assert BlockPieces([p, q], 0, 2) == [first] + [second];
    assert ([first] + [second])[1..] == [second] && [second][1..] == [];
    assert Stamps([second], 1, p.SRI) == [Stamp(second, 1, p.SRI)];
    assert Stamps([first] + [second], 0, p.SRI) == [Stamp(first, 0, p.SRI), Stamp(second, 1, p.SRI)];
  }

  lemma HeldLength(b: Buffer)
    requires Rep(b) && b.queue != []
    ensures b.offset < |b.queue[0].buffer| && b.offset + b.samplesQueued == |Flat(b.queue)|
    ensures Ready(b) == Flat(b.queue)[b.offset..]
  {
  }

  lemma AcknowledgedPieces(b: Buffer, start: nat, count: nat)
    requires b.queue != [] && start <= |b.queue[0].buffer|
    ensures BlockPieces(Acknowledged(b).queue, start, count) == BlockPieces(b.queue, start, count)
  {
    assert Acknowledged(b).queue[1..] == b.queue[1..];
  }

  /** The first part of _readData: payload and timestamps, from one packet or across several. */
  method Fill(data: DataBlock, queue: seq<Packet>, sampleOffset: nat, count: nat)
    requires queue != [] && sampleOffset < |queue[0].buffer| && sampleOffset + count <= |Flat(queue)|
    requires forall i :: 0 <= i < |queue| ==> queue[i].buffer != []
    requires data.timestamps == []
    modifies data`buffer, data`timestamps
    ensures data.buffer == Flat(queue)[sampleOffset..sampleOffset + count]
    ensures data.timestamps == Stamps(BlockPieces(queue, sampleOffset, count), 0, data.sri)
  {
    PiecesData(queue, sampleOffset, count);
    var lastOffset := sampleOffset + count;
    if lastOffset <= |queue[0].buffer| {
      AddTimestamp(data, sampleOffset, 0, queue[0].T);
      data.buffer := queue[0].buffer[sampleOffset..lastOffset];
      assert Pieces(queue[1..], 0, 0) == [];
    } else {
      Span(data, queue, sampleOffset, count);
    }
  }

  /** The loop of _readData over several packets. */
  method Span(data: DataBlock, queue: seq<Packet>, sampleOffset: nat, count: nat)
    requires queue != [] && sampleOffset < |queue[0].buffer| && sampleOffset + count <= |Flat(queue)|
    requires forall i :: 0 <= i < |queue| ==> queue[i].buffer != []
    requires data.timestamps == []
    modifies data`buffer, data`timestamps
    ensures data.buffer == Data(Pieces(queue, sampleOffset, count))
    ensures data.timestamps == Stamps(Pieces(queue, sampleOffset, count), 0, data.sri)
  {
    hide Stamps, Data, Pieces, Flat;
    var left, dataOffset, packetIndex, packetOffset: nat := count, 0, 0, sampleOffset;
    var buffer: seq<Sample> := [];
    ghost var done: seq<Piece> := [];
    Begin(queue, data.sri);
    while left > 0
      invariant 0 <= packetIndex <= |queue| && 0 <= left
      invariant left > 0 ==> packetIndex < |queue| && packetOffset < |queue[packetIndex].buffer|
      invariant left > 0 ==> packetOffset + left <= |Flat(queue[packetIndex..])|
      invariant left > 0 ==>
                Pieces(queue, sampleOffset, count) == done + Pieces(queue[packetIndex..], packetOffset, left)
      invariant left == 0 ==> Pieces(queue, sampleOffset, count) == done
      invariant buffer == Data(done) && dataOffset == |buffer|
      invariant data.timestamps == Stamps(done, 0, data.sri)
    {
      var packet := queue[packetIndex];
      assert queue[packetIndex..][0] == packet && queue[packetIndex..][1..] == queue[packetIndex + 1..];
      StampsBelow(done, 0, data.sri, dataOffset);
      AddTimestamp(data, packetOffset, dataOffset, packet.T);
      var available := |packet.buffer| - packetOffset;
      var pass := Min(available, left);
      ghost var piece := Piece(packet.T, packetOffset, packet.buffer[packetOffset..packetOffset + pass]);
      Advance(done, piece, queue[packetIndex..], packetOffset, left, data.sri);
      buffer := buffer + packet.buffer[packetOffset..packetOffset + pass];
      done := done + [piece];
      dataOffset, packetOffset, left := dataOffset + pass, packetOffset + pass, left - pass;
      if packetOffset >= |packet.buffer| {
        packetOffset := 0;
        packetIndex := packetIndex + 1;
      }
    }
    data.buffer := buffer;
  }

  lemma Begin(queue: seq<Packet>, sri: Sri)
    ensures queue[0..] == queue && Data([]) == [] && Stamps([], 0, sri) == []
    ensures forall start, count :: queue != [] && 0 <= start <= |queue[0].buffer| && count == 0 ==>
            Pieces(queue, start, count) == []
  {
  }

  lemma Advance(done: seq<Piece>, piece: Piece, q: seq<Packet>, start: nat, left: nat, sri: Sri)
    requires left > 0 && q != [] && start < |q[0].buffer| && start + left <= |Flat(q)|
    requires piece == Piece(q[0].T, start, q[0].buffer[start..start + Min(|q[0].buffer| - start, left)])
    ensures Data(done + [piece]) == Data(done) + piece.data
    ensures Stamps(done + [piece], 0, sri) == Stamps(done, 0, sri) + [Stamp(piece, |Data(done)|, sri)]
    ensures var rest := left - |piece.data|;
            && |Flat(q)| == |q[0].buffer| + |Flat(q[1..])|
            && (rest > 0 ==>
                q[1..] != [] && done + Pieces(q, start, left) == (done + [piece]) + Pieces(q[1..], 0, rest))
            && (rest == 0 ==> done + Pieces(q, start, left) == done + [piece])
  {
    hide Stamp, Stamps, Data, Pieces, Flat;
    DataSnoc(done, piece);
    StampsSnoc(done, piece, 0, sri);
    NextPieces(q, start, left);
    Regroup(done, [piece], Pieces(q[1..], 0, left - |piece.data|));
  }

  lemma NextPieces(q: seq<Packet>, start: nat, left: nat)
    requires left > 0 && q != [] && start < |q[0].buffer| && start + left <= |Flat(q)|
    ensures var pass := Min(|q[0].buffer| - start, left);
            && |Flat(q)| == |q[0].buffer| + |Flat(q[1..])| && (pass < left ==> q[1..] != [])
            && Pieces(q, start, left)
               == [Piece(q[0].T, start, q[0].buffer[start..start + pass])] + Pieces(q[1..], 0, left - pass)
            && (pass == left ==> Pieces(q[1..], 0, left - pass) == [])
  {
  }
}
