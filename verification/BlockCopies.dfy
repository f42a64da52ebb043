/** Passing a block on: what a read returns, written out again with its timestamps. */
module BlockCopies {
  import opened BulkioTypes
  import opened PrecisionTime
  import opened DataBlocks
  import opened StreamBuffer
  import opened Assembly
  import opened Buffering
  import opened TimedWrites

  /** Writing a block on with its timestamps never runs past its end. It makes one write of each
      packet's stretch of it, with the packet's own time moved to where the stretch starts, exactly
      when all of the stretches but the last are of whole samples; an empty block writes nothing. */
  lemma BlockRoundTrip(c: Content, b: Buffer, newstream: bool, sri: Sri)
    requires Cut(c, b, newstream, sri)
    ensures b.offset < |b.queue[0].buffer|
    ensures c.timestamps != [] && Fits(c.timestamps, |c.buffer|, c.sri.ItemSize())
    ensures Inside(c.timestamps, 0, |c.buffer|, c.sri.ItemSize())
    ensures var ps, writes := BlockPieces(b.queue, b.offset, |c.buffer|),
                              CutWrites(c.buffer, c.timestamps, 0, c.sri.ItemSize());
            if c.buffer == [] then writes == []
            else writes == PieceWrites(ps, c.sri) <==> WholeButLast(ps, c.sri.ItemSize())
  {
    hide Stamps, Data, BlockOf, BlockPieces, Fits, Rep, Ready, WholeButLast;
    BlockIsPieces(c, b, newstream, sri);
    var ps, item := BlockPieces(b.queue, b.offset, |c.buffer|), c.sri.ItemSize();
    assert [] + Data(ps) == Data(ps);
    StampsCount(ps, 0, c.sri);
    assert Down(0, item) == 0;
    StampsCut(ps, 0, c.sri, |c.buffer|);
    InsideExactly(c.timestamps, |c.buffer|, item);
    if c.buffer != [] { StampsRoundTrip([], ps, c.sri); }
  }

  /** A block that is cut differently: of a packet of half a complex sample nothing is written under
      its own time, and its scalar goes with the next packet's. */
  lemma HalfJoinsNext(p: Piece, q: Piece, sri: Sri)
    requires |p.data| == 1 && q.data != [] && sri.Complex()
    ensures var data, times := p.data + q.data, Stamps([p, q], 0, sri);
            && |times| == 2 && Inside(times, 0, |data|, 2)
            && CutWrites(data, times, 0, 2)
               == [WriteOp([], Stamp(p, 0, sri).time), WriteOp(data, Stamp(q, 0, sri).time)]
  {
    hide Shift;
    assert [p, q][1..] == [q] && [q][1..] == [];
    assert Stamps([q], 1, sri) == [Stamp(q, 1, sri)];
    assert Stamps([p, q], 0, sri) == [Stamp(p, 0, sri), Stamp(q, 1, sri)];
    var data, times := p.data + q.data, Stamps([p, q], 0, sri);
    assert times[1..] == [Stamp(q, 1, sri)];
    assert data[0..0] == [] && data[0..|data|] == data;
  }
}
