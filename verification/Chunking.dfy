/** Splitting a packet into pushes that fit the transport's limit, on frame boundaries. */
module Chunking {
  import opened BulkioTypes
  import opened PrecisionTime

  /** What reaches the other end of a connection. */
  datatype Message = SriMessage(sri: Sri) | PacketMessage(data: seq<Sample>, T: Time, EOS: bool, streamID: string)

  /** Scalars per frame. */
  function FrameSize(sri: Sri): (n: nat)
    ensures n > 0
  {
    if sri.subsize > 0 then Product(sri.ItemSize(), sri.subsize) else sri.ItemSize()
  }

  function Product(a: nat, b: nat): (n: nat)
    ensures a > 0 && b > 0 ==> n > 0
    ensures n == 0 ==> a == 0 || b == 0
  {
    a * b
  }

  function Quotient(a: nat, b: nat): (q: nat)
    requires b > 0
    ensures Product(q, b) <= a < Product(q, b) + b
    ensures q > 0 <==> b <= a
  {
    a / b
  }

  /** The push size, quantised to whole frames. */
  function PushSize(maxSamplesPerPush: nat, sri: Sri): (n: nat) {
    Product(Quotient(maxSamplesPerPush, FrameSize(sri)), FrameSize(sri))
  }

  /** The push size is the largest number of whole frames within the limit, it is a whole number
      of samples, and there is room for a frame exactly when it is not zero. */
  lemma PushSizeWhole(maxSamplesPerPush: nat, sri: Sri)
    ensures var n, frame := PushSize(maxSamplesPerPush, sri), FrameSize(sri);
            (exists k: nat :: n == Product(k, frame)) && n <= maxSamplesPerPush < n + frame && n % sri.ItemSize() == 0
    ensures PushSize(maxSamplesPerPush, sri) > 0 <==> FrameSize(sri) <= maxSamplesPerPush
  {
    hide Product, Quotient;
    var frame := FrameSize(sri);
    var k := Quotient(maxSamplesPerPush, frame);
    assert PushSize(maxSamplesPerPush, sri) == Product(k, frame);
    if k == 0 { NoFrames(frame); }
    WholeFrames(k, sri);
  }

  /** In figures: a push is the most frames that fit, and a frame is `subsize` samples, or one where
      that says nothing, of two scalars each on a complex stream. */
  lemma PushSizeFigures(maxSamplesPerPush: nat, sri: Sri)
    ensures var frame := (if sri.mode != 0 then 2 else 1) * (if sri.subsize > 0 then sri.subsize else 1);
            var n := PushSize(maxSamplesPerPush, sri);
            (exists k: nat :: n == k * frame) && n <= maxSamplesPerPush < n + frame
  {
    hide Product, Quotient;
    var frame := FrameSize(sri);
    FrameFigures(sri);
    var k := Quotient(maxSamplesPerPush, frame);
    ProductIs(k, frame);
    assert PushSize(maxSamplesPerPush, sri) == k * frame;
  }

  lemma FrameFigures(sri: Sri)
    ensures FrameSize(sri) == (if sri.mode != 0 then 2 else 1) * (if sri.subsize > 0 then sri.subsize else 1)
  {
  }

  lemma ProductIs(a: nat, b: nat)
    ensures Product(a, b) == a * b
  {
  }

  lemma NoFrames(n: nat)
    ensures Product(0, n) == 0
  {
  }

  lemma WholeFrames(k: nat, sri: Sri)
    ensures Product(k, FrameSize(sri)) % sri.ItemSize() == 0
  {
    if sri.mode != 0 {
      var frames := if sri.subsize > 0 then sri.subsize else 1;
      assert Product(k, FrameSize(sri)) == 2 * Product(k, frames);
    }
  }

  /** The sub-packets, with the loop's running time stamp. */
  function Chunks(data: seq<Sample>, T: Time, EOS: bool, id: string, size: nat, sri: Sri): (ms: seq<Message>)
    requires size > 0 || data == []
    ensures ms != []
  {
    if |data| <= size then [PacketMessage(data, T, EOS, id)]
    else [PacketMessage(data[..size], T, false, id)] + Chunks(data[size..], NextTime(T, size, sri), EOS, id, size, sri)
  }

  /** Whole samples in a number of scalars. */
  function Samples(scalars: nat, sri: Sri): nat { if sri.Complex() then scalars / 2 else scalars }

  function NextTime(T: Time, n: nat, sri: Sri): Time {
    if T.tcstatus == TcsValid then Later(T, Samples(n, sri), sri.xdelta) else T
  }

  function Payload(ms: seq<Message>): seq<Sample> {
    if ms == [] then [] else (if ms[0].PacketMessage? then ms[0].data else []) + Payload(ms[1..])
  }

  /** The time of a sub-packet that starts `sent` scalars into a packet of time T. */
  function ChunkTime(T: Time, sent: nat, sri: Sri): Time {
    if T.tcstatus == TcsValid then TimeAt(T, Samples(sent, sri), sri.xdelta) else T
  }

  lemma NextChunkTime(T: Time, sent: nat, n: nat, sri: Sri)
    requires n > 0 && sent % sri.ItemSize() == 0 && n % sri.ItemSize() == 0
    ensures NextTime(ChunkTime(T, sent, sri), n, sri) == ChunkTime(T, sent + n, sri)
  {
    hide Later, TimeAt;
    var j, k := Samples(n, sri), Samples(sent, sri);
    assert Samples(sent + n, sri) == k + j && j > 0;
    TimeStays(T, k, sri.xdelta);
    TimeAtAdd(T, j, k, sri.xdelta);
  }

  lemma TimeStays(T: Time, k: nat, step: real)
    ensures TimeAt(T, k, step).tcstatus == T.tcstatus
  {
  }

  /** The sub-packets together carry the payload: no scalar is lost, repeated or moved. */
  lemma {:induction false} ChunksPayload(data: seq<Sample>, T: Time, EOS: bool, id: string, size: nat, sri: Sri)
    requires size > 0 || data == []
    ensures Payload(Chunks(data, T, EOS, id, size, sri)) == data
    decreases |data|
  {
    hide NextTime;
    var ms := Chunks(data, T, EOS, id, size, sri);
    if |data| <= size {
      assert ms[1..] == [] && data + [] == data;
    } else {
      ChunksPayload(data[size..], NextTime(T, size, sri), EOS, id, size, sri);
      assert ms[1..] == Chunks(data[size..], NextTime(T, size, sri), EOS, id, size, sri);
      assert data == data[..size] + data[size..];
    }
  }

  /** m is the sub-packet of a packet that starts `from` scalars into its data: of exactly the
      push size unless it is the last, with the end-of-stream only when it is the last, and with
      a valid time that is the packet's plus the samples already sent times xdelta. */
  predicate IsChunk(m: Message, from: nat, last: bool, data: seq<Sample>, T: Time, EOS: bool, id: string,
                    size: nat, sri: Sri, sent: nat)
  {
    && from <= |data|
    && (if last then |data| <= from + size else from + size < |data|)
    && m == PacketMessage(if last then data[from..] else data[from..from + size],
                          ChunkTime(T, sent + from, sri), last && EOS, id)
  }

  /** The k-th sub-packet starts k push sizes into the packet. */
  lemma {:induction false} ChunkAt(data: seq<Sample>, T: Time, EOS: bool, id: string, size: nat, sri: Sri, sent: nat,
                                   k: nat)
    requires size > 0 || data == []
    requires size % sri.ItemSize() == 0 && sent % sri.ItemSize() == 0
    requires k < |Chunks(data, ChunkTime(T, sent, sri), EOS, id, size, sri)|
    ensures var ms := Chunks(data, ChunkTime(T, sent, sri), EOS, id, size, sri);
            IsChunk(ms[k], Product(k, size), k == |ms| - 1, data, T, EOS, id, size, sri, sent)
    decreases k
  {
    hide ChunkTime, NextTime, Sri.ItemSize, Product, IsChunk;
    var ms := Chunks(data, ChunkTime(T, sent, sri), EOS, id, size, sri);
    if k == 0 {
      ChunkFirst(data, T, EOS, id, size, sri, sent);
    } else {
      NextChunkTime(T, sent, size, sri);
      SumWhole(sent, size, sri);
      OneMore(k, size);
      ChunkAt(data[size..], T, EOS, id, size, sri, sent + size, k - 1);
      ChunkShift(ms[k], Product(k - 1, size), k == |ms| - 1, data, T, EOS, id, size, sri, sent);
    }
  }

  /** The k-th sub-packet in figures: its scalars are those from k push sizes on, as many again unless
      it is the last, which alone has the end-of-stream; a valid time is the packet's, later by the
      samples before it times xdelta. */
  lemma ChunkFigures(data: seq<Sample>, T: Time, EOS: bool, id: string, size: nat, sri: Sri, k: nat)
    requires size > 0 && (sri.mode != 0 ==> size % 2 == 0) && k < |Chunks(data, T, EOS, id, size, sri)|
    ensures var ms, from := Chunks(data, T, EOS, id, size, sri), k * size;
            var m, last := ms[k], k == |ms| - 1;
            && m.PacketMessage? && m.streamID == id && (m.EOS <==> last && EOS) && 0 <= from <= |data|
            && (if last then |data| <= from + size && m.data == data[from..]
                else from + size < |data| && m.data == data[from..from + size])
            && (T.tcstatus != TcsValid ==> m.T == T)
            && (T.tcstatus == TcsValid ==>
                  var samples := from / if sri.mode != 0 then 2 else 1;
                  && m.T.twsec + m.T.tfsec == T.twsec + T.tfsec + samples as real * sri.xdelta
                  && m.T.tcmode == T.tcmode && m.T.tcstatus == T.tcstatus && m.T.toff == T.toff)
  {
    hide Product, Chunks, ChunkTime;
    TimeFigures(T, 0, sri);
    ProductIs(k, size);
    ChunkAt(data, T, EOS, id, size, sri, 0, k);
    TimeFigures(T, k * size, sri);
  }

  lemma TimeFigures(T: Time, n: nat, sri: Sri)
    ensures var r, samples := ChunkTime(T, n, sri), n / if sri.mode != 0 then 2 else 1;
            && (n == 0 ==> r == T) && (T.tcstatus != TcsValid ==> r == T)
            && (T.tcstatus == TcsValid ==>
                  && r.twsec + r.tfsec == T.twsec + T.tfsec + samples as real * sri.xdelta
                  && r.tcmode == T.tcmode && r.tcstatus == T.tcstatus && r.toff == T.toff)
  {
    if n == 0 { assert 0 as real * sri.xdelta == 0.0; }
    if sri.mode == 0 { assert n / 1 == n; }
    var samples := Samples(n, sri);
    if samples == 0 { assert samples as real * sri.xdelta == 0.0; }
  }

  lemma ChunkFirst(data: seq<Sample>, T: Time, EOS: bool, id: string, size: nat, sri: Sri, sent: nat)
    requires size > 0 || data == []
    ensures var ms := Chunks(data, ChunkTime(T, sent, sri), EOS, id, size, sri);
            IsChunk(ms[0], Product(0, size), 0 == |ms| - 1, data, T, EOS, id, size, sri, sent)
  {
    hide ChunkTime, NextTime;
    assert data[0..] == data;
  }

  lemma ChunkShift(m: Message, from: nat, last: bool, data: seq<Sample>, T: Time, EOS: bool, id: string,
                   size: nat, sri: Sri, sent: nat)
    requires size <= |data|
    requires IsChunk(m, from, last, data[size..], T, EOS, id, size, sri, sent + size)
    ensures IsChunk(m, from + size, last, data, T, EOS, id, size, sri, sent)
  {
    hide ChunkTime;
    Tail(data, size, from);
  }

  lemma SumWhole(a: nat, b: nat, sri: Sri)
    requires a % sri.ItemSize() == 0 && b % sri.ItemSize() == 0
    ensures (a + b) % sri.ItemSize() == 0
  {
    if sri.mode != 0 { assert (a + b) % 2 == 0; }
  }

  lemma OneMore(k: nat, size: nat)
    requires k > 0
    ensures Product(k, size) == Product(k - 1, size) + size
  {
  }

  lemma Tail(data: seq<Sample>, size: nat, from: nat)
    requires from + size <= |data|
    ensures data[size..][from..] == data[from + size..]
    ensures from + size + size <= |data| ==> data[size..][from..from + size] == data[from + size..from + size + size]
  {
  }

  /** One round of the loop, on its counters: without room for a frame it goes nowhere. */
  function Round(first: nat, samplesRemaining: nat, size: nat): (nat, nat) {
    (first + Min(samplesRemaining, size), samplesRemaining - Min(samplesRemaining, size))
  }

  lemma StuckWithoutRoom(first: nat, samplesRemaining: nat, maxSamplesPerPush: nat, sri: Sri)
    requires samplesRemaining > 0
    ensures Round(first, samplesRemaining, PushSize(maxSamplesPerPush, sri)) == (first, samplesRemaining)
            <==> maxSamplesPerPush < FrameSize(sri)
  {
    PushSizeWhole(maxSamplesPerPush, sri);
  }
}
