/** What the operations of an output stream send and leave, in figures. */
module Emissions {
  import opened BulkioTypes
  import opened PrecisionTime
  import opened Buffering

  lemma Distribute(m: int, n: int, x: real)
    ensures (m + n) as real * x == m as real * x + n as real * x
  {
  }

  /** Time that passes keeps the rest of a timestamp. */
  lemma LaterFigures(t: Time, n: nat, x: real)
    ensures var r := Later(t, n, x);
            && r.twsec + r.tfsec == t.twsec + t.tfsec + n as real * x
            && r.tcmode == t.tcmode && r.tcstatus == t.tcstatus && r.toff == t.toff
  {
  }

  /** The k-th packet of a buffered write is of exactly the buffer size. If it starts with a scalar of
      the write, that is the one at k times the size less what was buffered, and its time is the
      write's and that many steps of xdelta; otherwise it has the time of what was buffered. */
  lemma {:induction false} PacketFigures(s: Sender, data: seq<Sample>, time: Time, k: nat)
    requires |s.buffer| < s.size && k < |DoBufferEmits(s, data, time)|
    ensures var p := DoBufferEmits(s, data, time)[k];
            && |p.data| == s.size && p.sri == s.sri && p.version == s.modcount && !p.EOS
            && (k == 0 && s.buffer != [] ==> p.T == s.time)
            && (k > 0 || s.buffer == [] ==>
                  var n := k * s.size - |s.buffer|;
                  && 0 <= n < |data| && (n == 0 ==> p.T == time)
                  && p.T.twsec + p.T.tfsec == time.twsec + time.tfsec + n as real * s.sri.xdelta
                  && p.T.tcmode == time.tcmode && p.T.tcstatus == time.tcstatus && p.T.toff == time.toff)
    decreases |data|
  {
    hide DoBuffer, DoBufferEmits, Later, Filled;
    DoBufferCases(s, data, time);
    var n, x := Count(s, data), s.sri.xdelta;
    FilledFigures(s, data, time);
    if k == 0 {
      assert 0 * s.size == 0;
    } else {
      NextPacket(s, data, time, k);
    }
  }

  lemma FilledFigures(s: Sender, data: seq<Sample>, time: Time)
    requires |s.buffer| < s.size
    ensures var f, n := Filled(s, data, time), Count(s, data);
            && f.sri == s.sri && f.modcount == s.modcount && f.size == s.size && |f.buffer| == |s.buffer| + n
            && f.time == (if s.buffer == [] then time else s.time)
            && |f.buffer| <= s.size && (|f.buffer| < s.size ==> n == |data|)
  {
  }

  lemma {:induction false} NextPacket(s: Sender, data: seq<Sample>, time: Time, k: nat)
    requires |s.buffer| < s.size && 0 < k < |DoBufferEmits(s, data, time)|
    ensures var p, n := DoBufferEmits(s, data, time)[k], k * s.size - |s.buffer|;
            && |p.data| == s.size && p.sri == s.sri && p.version == s.modcount && !p.EOS
            && 0 <= n < |data|
            && p.T.twsec + p.T.tfsec == time.twsec + time.tfsec + n as real * s.sri.xdelta
            && p.T.tcmode == time.tcmode && p.T.tcstatus == time.tcstatus && p.T.toff == time.toff
            && (n == 0 ==> p.T == time)
    decreases |data|, 0
  {
    hide DoBuffer, DoBufferEmits, Later, Filled;
    DoBufferCases(s, data, time);
    FilledFigures(s, data, time);
    var n, x := Count(s, data), s.sri.xdelta;
    var next, rest, later := Emptied(Filled(s, data, time)), data[n..], Later(time, n, x);
    LaterFigures(time, n, x);
    PacketFigures(next, rest, later, k - 1);
    var m := (k - 1) * s.size;
    assert k * s.size - |s.buffer| == n + m by { assert k * s.size == (k - 1) * s.size + s.size; }
    Distribute(n, m, x);
  }

  /** What is left of a buffered write: less than a buffer, with its time. */
  lemma {:induction false} LeftFigures(s: Sender, data: seq<Sample>, time: Time)
    requires |s.buffer| < s.size
    ensures var ps, after := DoBufferEmits(s, data, time), DoBuffer(s, data, time);
            && |ps| * s.size + |after.buffer| == |s.buffer| + |data| && |after.buffer| < s.size
            && after.sri == s.sri && after.modcount == s.modcount && after.size == s.size
            && (ps == [] && s.buffer != [] ==> after.time == s.time)
            && (ps != [] && after.buffer != [] ==>
                  var n := |data| - |after.buffer|;
                  && 0 <= n
                  && after.time.twsec + after.time.tfsec == time.twsec + time.tfsec + n as real * s.sri.xdelta
                  && after.time.tcmode == time.tcmode && after.time.tcstatus == time.tcstatus
                  && after.time.toff == time.toff)
            && (s.buffer == [] && ps == [] && data != [] ==> after.time == time)
    decreases |data|
  {
    hide DoBuffer, DoBufferEmits, Later, Filled;
    DoBufferCases(s, data, time);
    FilledFigures(s, data, time);
    var n, x, filled := Count(s, data), s.sri.xdelta, Filled(s, data, time);
    if |filled.buffer| == s.size && n < |data| {
      var next, rest, later := Emptied(filled), data[n..], Later(time, n, x);
      LaterFigures(time, n, x);
      LeftFigures(next, rest, later);
      var more, after := DoBufferEmits(next, rest, later), DoBuffer(s, data, time);
      assert (|more| + 1) * s.size == |more| * s.size + s.size;
      if after.buffer != [] { Distribute(n, |rest| - |after.buffer|, x); }
    } else {
      assert 0 * s.size == 0 && 1 * s.size == s.size;
    }
  }

  // ---------- the operations ----------

  /** A write goes straight out if nothing is to be buffered, or nothing is and it would fill the
      buffer; otherwise it is buffered, and only full buffers go out. */
  lemma WriteFigures(s: Sender, data: seq<Sample>, time: Time)
    requires s.Valid()
    ensures var ps, after := OpEmits(s, WriteOp(data, time)), OpStep(s, WriteOp(data, time));
            if s.size == 0 || (s.buffer == [] && |data| >= s.size) then
              ps == [Push(data, time, false, s.sri, s.modcount)] && after == s
            else
              && |ps| * s.size + |after.buffer| == |s.buffer| + |data| && |after.buffer| < s.size
              && (forall k :: 0 <= k < |ps| ==> |ps[k].data| == s.size)
              && after.sri == s.sri && after.modcount == s.modcount && after.size == s.size
              && (ps == [] ==> after.buffer == s.buffer + data)
  {
    hide DoBuffer, DoBufferEmits;
    if !(s.size == 0 || (s.buffer == [] && |data| >= s.size)) {
      LeftFigures(s, data, time);
      DoBufferKeeps(s, data, time);
      var ps, after := OpEmits(s, WriteOp(data, time)), OpStep(s, WriteOp(data, time));
      assert ps == DoBufferEmits(s, data, time) && after == DoBuffer(s, data, time);
      forall k | 0 <= k < |ps| ensures |ps[k].data| == s.size { PacketFigures(s, data, time, k); }
      assert ps == [] ==> Scalars(ps) + after.buffer == after.buffer;
    }
  }

  /** A write that does not fill the buffer sends nothing. */
  lemma NothingSent(s: Sender, data: seq<Sample>, time: Time)
    requires s.Valid() && |s.buffer| + |data| < s.size
    ensures OpEmits(s, WriteOp(data, time)) == []
  {
    assert data[..|data|] == data;
  }

  /** Whatever changes, what was buffered goes out under the SRI, the version and the time it had. */
  lemma ChangeFigures(s: Sender, op: Op)
    requires s.Valid() && !op.WriteOp?
    ensures var ps, after := OpEmits(s, op), OpStep(s, op);
            var flushes := s.buffer != [] && (op.FlushOp? || (op.SizeOp? && op.size <= |s.buffer|)
                                              || (op.SriOp? && s.sri != op.sri.(streamID := s.sri.streamID)));
            && ps == (if flushes then [Push(s.buffer, s.time, false, s.sri, s.modcount)] else [])
            && after.buffer == (if flushes then [] else s.buffer) && after.time == s.time
            && after.size == (if op.SizeOp? then op.size else s.size)
            && after.sri == (if op.SriOp? then op.sri.(streamID := s.sri.streamID) else s.sri)
            && after.modcount == s.modcount + if after.sri == s.sri then 0 else 1
  {
  }

  /** The end of a stream goes out with what is buffered and its time, or with nothing at no time. */
  lemma CloseFigures(s: Sender)
    ensures CloseEmit(s) == Push(s.buffer, if s.buffer == [] then Time(0, TcsInvalid, 0.0, 0.0, 0.0) else s.time,
                                 true, s.sri, s.modcount)
  {
  }
}
