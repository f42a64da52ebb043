/** What a buffered output stream makes of the calls on it, as a function of its state. */
module Buffering {
  import opened BulkioTypes
  import opened PrecisionTime

  /** A packet handed to the port, with the SRI and its version at that moment. */
  datatype Push = Push(data: seq<Sample>, T: Time, EOS: bool, sri: Sri, version: int)

  /** buffer is the first _bufferOffset scalars of _buffer. */
  datatype Sender = Sender(sri: Sri, modcount: int, size: nat, buffer: seq<Sample>, time: Time)
  {
    /** A full buffer never stays. */
    predicate Valid() { buffer == [] || |buffer| < size }

    function Emit(data: seq<Sample>, T: Time, EOS: bool): Push { Push(data, T, EOS, sri, modcount) }
  }

  datatype Op =
    | WriteOp(data: seq<Sample>, time: Time)
    | SizeOp(size: nat)
    | FlushOp
    | SriOp(sri: Sri)

  /** Room left in the buffer, up to what is offered. */
  function Count(s: Sender, data: seq<Sample>): (n: nat)
    requires |s.buffer| < s.size
    ensures n <= |data| && |s.buffer| + n <= s.size && (n == 0 ==> data == [])
  {
    Min(|data|, s.size - |s.buffer|)
  }

  /** The buffer with the next scalars added; the first of them give it its time. */
  function Filled(s: Sender, data: seq<Sample>, time: Time): Sender
    requires |s.buffer| < s.size
  {
    s.(buffer := s.buffer + data[..Count(s, data)], time := if s.buffer == [] then time else s.time)
  }

  function Emptied(s: Sender): Sender { s.(buffer := []) }

  /** _doBuffer. */
  function DoBuffer(s: Sender, data: seq<Sample>, time: Time): Sender
    requires |s.buffer| < s.size
    decreases |data|
  {
    var filled := Filled(s, data, time);
    var next := if |filled.buffer| >= s.size then Emptied(filled) else filled;
    var n := Count(s, data);
    if n < |data| then DoBuffer(next, data[n..], Later(time, n, s.sri.xdelta)) else next
  }

  function DoBufferEmits(s: Sender, data: seq<Sample>, time: Time): seq<Push>
    requires |s.buffer| < s.size
    decreases |data|
  {
    var filled := Filled(s, data, time);
    var full := |filled.buffer| >= s.size;
    var n := Count(s, data);
    (if full then [filled.Emit(filled.buffer, filled.time, false)] else [])
    + if n < |data|
      then DoBufferEmits(if full then Emptied(filled) else filled, data[n..], Later(time, n, s.sri.xdelta)) else []
  }

  /** Whether a write goes straight to the port. */
  predicate Direct(s: Sender, data: seq<Sample>) {
    s.size == 0 || (s.buffer == [] && |data| >= s.size)
  }

  /** The same SRI, whatever its stream ID. */
  predicate SameFields(a: Sri, b: Sri) { a == b.(streamID := a.streamID) }

  function OpStep(s: Sender, op: Op): (after: Sender)
    requires s.Valid()
  {
    match op
    case WriteOp(data, time) => if Direct(s, data) then s else DoBuffer(s, data, time)
    case SizeOp(size) =>
      var sized := s.(size := size);
      if size != s.size && size <= |s.buffer| then Emptied(sized) else sized
    case FlushOp => Emptied(s)
    case SriOp(sri) =>
      if SameFields(s.sri, sri) then s
      else Emptied(s).(sri := sri.(streamID := s.sri.streamID), modcount := s.modcount + 1)
  }

  function FlushEmits(s: Sender): seq<Push> {
    if s.buffer == [] then [] else [s.Emit(s.buffer, s.time, false)]
  }

  function OpEmits(s: Sender, op: Op): seq<Push>
    requires s.Valid()
  {
    match op
    case WriteOp(data, time) => if Direct(s, data) then [s.Emit(data, time, false)] else DoBufferEmits(s, data, time)
    case SizeOp(size) => if size != s.size && size <= |s.buffer| then FlushEmits(s) else []
    case FlushOp => FlushEmits(s)
    case SriOp(sri) => if SameFields(s.sri, sri) then [] else FlushEmits(s)
  }

  /** The last packet of a stream: what is buffered, or nothing at no particular time. */
  function CloseEmit(s: Sender): Push {
    if s.buffer == [] then s.Emit([], NotSet(), true) else s.Emit(s.buffer, s.time, true)
  }

  /** The scalars of a list of packets. */
  function Scalars(ps: seq<Push>): seq<Sample> {
    if ps == [] then [] else ps[0].data + Scalars(ps[1..])
  }

  /** Every packet of a list carries one SRI and version, and is not the last of its stream. */
  predicate AllWith(ps: seq<Push>, sri: Sri, version: int) {
    forall p :: p in ps ==> p.sri == sri && p.version == version && !p.EOS
  }

  predicate AllOfSize(ps: seq<Push>, size: nat) { forall p :: p in ps ==> |p.data| == size }

  /** Buffering a write: the scalars sent and those left in the buffer are those that were there
      and those written, in order; every packet sent was filled to the buffer size; and no full
      buffer is left. */
  lemma {:induction false} DoBufferKeeps(s: Sender, data: seq<Sample>, time: Time)
    requires |s.buffer| < s.size
    ensures var after := DoBuffer(s, data, time);
            && Scalars(DoBufferEmits(s, data, time)) + after.buffer == s.buffer + data
            && |after.buffer| < s.size && after == s.(buffer := after.buffer, time := after.time)
    ensures AllOfSize(DoBufferEmits(s, data, time), s.size) && AllWith(DoBufferEmits(s, data, time), s.sri, s.modcount)
    decreases |data|
  {
    hide Later;
    var n := Count(s, data);
    var filled := Filled(s, data, time);
    var full := |filled.buffer| >= s.size;
    var next := if full then Emptied(filled) else filled;
    assert data[..n] + data[n..] == data;
    if n < |data| {
      var later := Later(time, n, s.sri.xdelta);
      DoBufferKeeps(next, data[n..], later);
      var rest := DoBufferEmits(next, data[n..], later);
      assert DoBufferEmits(s, data, time) == [filled.Emit(filled.buffer, filled.time, false)] + rest;
      KeepsStep(s.buffer, data[..n], data[n..], filled.Emit(filled.buffer, filled.time, false), rest,
                DoBuffer(s, data, time).buffer);
    } else if full {
      LastKeeps(filled.Emit(filled.buffer, filled.time, false));
    }
  }

  lemma KeepsStep(buffer: seq<Sample>, a: seq<Sample>, b: seq<Sample>, p: Push, rest: seq<Push>, left: seq<Sample>)
    requires p.data == buffer + a && Scalars(rest) + left == [] + b
    ensures Scalars([p] + rest) + left == buffer + (a + b)
  {
    assert ([p] + rest)[1..] == rest;
    assert p.data + Scalars(rest) + left == p.data + (Scalars(rest) + left);
  }

  lemma LastKeeps(p: Push)
    ensures Scalars([p] + []) + [] == p.data
  {
    assert Scalars([p]) == p.data + [];
  }

  /** What an operation writes. */
  function Written(op: Op): seq<Sample> { if op.WriteOp? then op.data else [] }

  /** Every operation conserves the scalars, keeps the buffer from staying full, sends what it
      sends with the SRI and version it finds, and changes those two only with the buffer empty. */
  lemma OpKeeps(s: Sender, op: Op)
    requires s.Valid()
    ensures Scalars(OpEmits(s, op)) + OpStep(s, op).buffer == s.buffer + Written(op)
    ensures AllWith(OpEmits(s, op), s.sri, s.modcount)
    ensures OpStep(s, op).Valid()
    ensures var after := OpStep(s, op);
            if after.modcount == s.modcount then after.sri == s.sri
            else && op.SriOp? && after.modcount == s.modcount + 1 && after.buffer == []
                 && after.sri.streamID == s.sri.streamID
    ensures op.WriteOp? ==> AllOfSize(OpEmits(s, op), if Direct(s, op.data) then |op.data| else s.size)
  {
    match op
    case WriteOp(data, time) =>
      if Direct(s, data) {
        LastKeeps(s.Emit(data, time, false));
        DirectKeeps(s, data, time);
      } else {
        DoBufferKeeps(s, data, time);
      }
    case _ =>
      if s.buffer != [] { LastKeeps(s.Emit(s.buffer, s.time, false)); }
      assert s.buffer + [] == s.buffer;
  }

  lemma DirectKeeps(s: Sender, data: seq<Sample>, time: Time)
    requires s.Valid() && Direct(s, data)
    ensures s.buffer == [] && Scalars([s.Emit(data, time, false)]) + s.buffer == s.buffer + data
  {
    assert Scalars([s.Emit(data, time, false)]) == data + [];
  }

  function Run(s: Sender, ops: seq<Op>): (after: Sender)
    requires s.Valid()
    decreases |ops|
  {
    if ops == [] then s
    else
      OpKeeps(s, ops[0]);
      Run(OpStep(s, ops[0]), ops[1..])
  }

  function RunEmits(s: Sender, ops: seq<Op>): seq<Push>
    requires s.Valid()
    decreases |ops|
  {
    if ops == [] then []
    else
      OpKeeps(s, ops[0]);
      OpEmits(s, ops[0]) + RunEmits(OpStep(s, ops[0]), ops[1..])
  }

  function RunWritten(ops: seq<Op>): seq<Sample> {
    if ops == [] then [] else Written(ops[0]) + RunWritten(ops[1..])
  }

  lemma {:induction false} ScalarsConcat(a: seq<Push>, b: seq<Push>)
    ensures Scalars(a + b) == Scalars(a) + Scalars(b)
  {
    if a == [] {
      assert a + b == b;
    } else {
      ScalarsConcat(a[1..], b);
      assert (a + b)[0] == a[0] && (a + b)[1..] == a[1..] + b;
      Regroup(a[0].data, Scalars(a[1..]), Scalars(b));
    }
  }

  lemma RunFirst(s: Sender, op: Op, rest: seq<Op>)
    requires s.Valid()
    ensures OpStep(s, op).Valid() && Run(s, [op] + rest) == Run(OpStep(s, op), rest)
    ensures RunEmits(s, [op] + rest) == OpEmits(s, op) + RunEmits(OpStep(s, op), rest)
  {
    hide OpStep, OpEmits, Scalars;
    OpKeeps(s, op);
    assert ([op] + rest)[1..] == rest;
  }

  /** Writes alone change neither the SRI nor its version. */
  lemma {:induction false} WritesKeepSri(s: Sender, ops: seq<Op>)
    requires s.Valid() && (forall op :: op in ops ==> op.WriteOp?)
    ensures Run(s, ops).Valid() && Run(s, ops).sri == s.sri && Run(s, ops).modcount == s.modcount
    ensures AllWith(RunEmits(s, ops), s.sri, s.modcount)
    decreases |ops|
  {
    hide OpStep, OpEmits, Scalars;
    if ops != [] {
      assert ops[0] in ops;
      OpKeeps(s, ops[0]);
      WritesKeepSri(OpStep(s, ops[0]), ops[1..]);
    }
  }

  /** In every run of writes, size changes, flushes and metadata changes, the packets sent and
      the scalars buffered are exactly what was written, in order. */
  lemma {:induction false} RunKeeps(s: Sender, ops: seq<Op>)
    requires s.Valid()
    ensures Run(s, ops).Valid()
    ensures Scalars(RunEmits(s, ops)) + Run(s, ops).buffer == s.buffer + RunWritten(ops)
    decreases |ops|
  {
    hide OpStep, OpEmits, Scalars;
    if ops == [] {
      assert Scalars([]) == [] by { NoScalars(); }
    } else {
      OpKeeps(s, ops[0]);
      var next := OpStep(s, ops[0]);
      RunKeeps(next, ops[1..]);
      var e, rest := OpEmits(s, ops[0]), RunEmits(next, ops[1..]);
      ScalarsConcat(e, rest);
      Regroup(Scalars(e), Scalars(rest), Run(s, ops).buffer);
      Regroup(Scalars(e), next.buffer, RunWritten(ops[1..]));
      Regroup(s.buffer, Written(ops[0]), RunWritten(ops[1..]));
    }
  }

  lemma NoScalars()
    ensures Scalars([]) == []
  {
  }

  // The times of the packets

  /** The times of n scalars of one write, from the k-th on. */
  function WriteTimes(time: Time, k: nat, n: nat, xdelta: real): (ts: seq<Time>)
    ensures |ts| == n
    decreases n
  {
    if n == 0 then [] else [TimeAt(time, k, xdelta)] + WriteTimes(time, k + 1, n - 1, xdelta)
  }

  lemma {:induction false} WriteTimesSplit(time: Time, k: nat, m: nat, n: nat, xdelta: real)
    requires m <= n
    ensures WriteTimes(time, k, n, xdelta) == WriteTimes(time, k, m, xdelta) + WriteTimes(time, k + m, n - m, xdelta)
    decreases m
  {
    hide TimeAt;
    if m == 0 {
      assert [] + WriteTimes(time, k, n, xdelta) == WriteTimes(time, k, n, xdelta);
    } else {
      WriteTimesSplit(time, k + 1, m - 1, n - 1, xdelta);
      Regroup([TimeAt(time, k, xdelta)], WriteTimes(time, k + 1, m - 1, xdelta),
              WriteTimes(time, k + m, n - m, xdelta));
    }
  }

  /** The rest of a write, at the time _doBuffer makes for it, has the times it had in the write. */
  lemma {:induction false} WriteTimesLater(time: Time, j: nat, k: nat, n: nat, xdelta: real)
    requires j > 0
    ensures WriteTimes(Later(time, j, xdelta), k, n, xdelta) == WriteTimes(time, j + k, n, xdelta)
    decreases n
  {
    if n > 0 {
      LaterLater(time, j, k, xdelta);
      WriteTimesLater(time, j, k + 1, n - 1, xdelta);
    }
  }

  lemma LaterLater(time: Time, j: nat, k: nat, xdelta: real)
    requires j > 0
    ensures TimeAt(Later(time, j, xdelta), k, xdelta) == TimeAt(time, j + k, xdelta)
  {
    if k > 0 { TimeAtAdd(time, k, j, xdelta); }
  }

  /** Each packet of a list has the time of its first scalar, and so has what is left after them. */
  predicate Timed(ps: seq<Push>, left: seq<Sample>, t: Time, times: seq<Time>) {
    if ps == [] then |left| == |times| && (left != [] ==> t == times[0])
    else
      && |ps[0].data| <= |times|
      && (ps[0].data != [] ==> ps[0].T == times[0])
      && Timed(ps[1..], left, t, times[|ps[0].data|..])
  }

  lemma {:induction false} DoBufferTimed(s: Sender, data: seq<Sample>, time: Time, held: seq<Time>)
    requires |s.buffer| < s.size && Timed([], s.buffer, s.time, held)
    ensures var after := DoBuffer(s, data, time);
            Timed(DoBufferEmits(s, data, time), after.buffer, after.time,
                  held + WriteTimes(time, 0, |data|, s.sri.xdelta))
    decreases |data|
  {
    hide Timed, Later, TimeAt, WriteTimes, Count, Filled;
    var n, x := Count(s, data), s.sri.xdelta;
    var filled := Filled(s, data, time);
    FrontTimed(s, data, time, held);
    if n < |data| {
      var next, later := Emptied(filled), Later(time, n, x);
      var front, back := held + WriteTimes(time, 0, n, x), WriteTimes(time, n, |data| - n, x);
      NothingTimed(filled.time);
      FilledUp(s, data, time);
      DoBufferTimed(next, data[n..], later, []);
      RestTimes(s, data, time, held);
      TimedCons(filled.Emit(filled.buffer, filled.time, false), DoBufferEmits(next, data[n..], later),
                DoBuffer(s, data, time), front, back);
    } else if |filled.buffer| >= s.size {
      OneTimed(filled, held + WriteTimes(time, 0, n, x));
    } else {
      assert DoBufferEmits(s, data, time) == [];
    }
  }

  lemma NothingTimed(time: Time)
    ensures Timed([], [], time, [])
  {
  }

  lemma FilledUp(s: Sender, data: seq<Sample>, time: Time)
    requires |s.buffer| < s.size
    ensures var filled := Filled(s, data, time);
            && filled.sri == s.sri && filled.size == s.size
            && |filled.buffer| == |s.buffer| + Count(s, data)
            && (Count(s, data) < |data| ==> |filled.buffer| == s.size && Count(s, data) > 0)
  {
  }

  lemma RestTimes(s: Sender, data: seq<Sample>, time: Time, held: seq<Time>)
    requires |s.buffer| < s.size && Count(s, data) < |data|
    ensures var n, x := Count(s, data), s.sri.xdelta;
            && held + WriteTimes(time, 0, |data|, x)
               == held + WriteTimes(time, 0, n, x) + WriteTimes(time, n, |data| - n, x)
            && [] + WriteTimes(Later(time, n, x), 0, |data| - n, x) == WriteTimes(time, n, |data| - n, x)
  {
    hide Later, WriteTimes;
    var n, x := Count(s, data), s.sri.xdelta;
    WriteTimesSplit(time, 0, n, |data|, x);
    WriteTimesLater(time, n, 0, |data| - n, x);
    Regroup(held, WriteTimes(time, 0, n, x), WriteTimes(time, n, |data| - n, x));
  }

  lemma FrontTimed(s: Sender, data: seq<Sample>, time: Time, held: seq<Time>)
    requires |s.buffer| < s.size && Timed([], s.buffer, s.time, held)
    ensures var filled, front := Filled(s, data, time), held + WriteTimes(time, 0, Count(s, data), s.sri.xdelta);
            Timed([], filled.buffer, filled.time, front) && |filled.buffer| == |front|
            && (filled.buffer != [] ==> filled.time == front[0])
  {
  }

  lemma TimedCons(p: Push, rest: seq<Push>, after: Sender, front: seq<Time>, back: seq<Time>)
    requires |p.data| == |front| && (p.data != [] ==> p.T == front[0]) && Timed(rest, after.buffer, after.time, back)
    ensures Timed([p] + rest, after.buffer, after.time, front + back)
  {
    assert ([p] + rest)[1..] == rest && (front + back)[|front|..] == back;
  }

  lemma OneTimed(filled: Sender, front: seq<Time>)
    requires Timed([], filled.buffer, filled.time, front)
    ensures Timed([filled.Emit(filled.buffer, filled.time, false)] + [], [], filled.time, front)
  {
  }

  /** The times of what an operation writes: the k-th scalar is k steps after the write's time. */
  function OpTimes(s: Sender, op: Op): seq<Time> {
    if op.WriteOp? then WriteTimes(op.time, 0, |op.data|, s.sri.xdelta) else []
  }

  lemma OpTimed(s: Sender, op: Op, held: seq<Time>)
    requires s.Valid() && Timed([], s.buffer, s.time, held)
    ensures Timed(OpEmits(s, op), OpStep(s, op).buffer, OpStep(s, op).time, held + OpTimes(s, op))
  {
    hide WriteTimes, DoBuffer, DoBufferEmits;
    assert held + [] == held;
    match op
    case WriteOp(data, time) =>
      if Direct(s, data) {
        DirectTimed(s, data, time, held);
      } else {
        DoBufferTimed(s, data, time, held);
      }
    case _ =>
      if s.buffer != [] { OneTimed(s, held); }
  }

  lemma DirectTimed(s: Sender, data: seq<Sample>, time: Time, held: seq<Time>)
    requires s.Valid() && Direct(s, data) && Timed([], s.buffer, s.time, held)
    ensures Timed([s.Emit(data, time, false)], s.buffer, s.time, held + WriteTimes(time, 0, |data|, s.sri.xdelta))
  {
    assert held == [] && s.buffer == [];
    var p, ts := s.Emit(data, time, false), held + WriteTimes(time, 0, |data|, s.sri.xdelta);
    assert [p][1..] == [] && ts[|data|..] == [];
  }

  function RunTimes(s: Sender, ops: seq<Op>): seq<Time>
    requires s.Valid()
    decreases |ops|
  {
    if ops == [] then []
    else
      OpKeeps(s, ops[0]);
      OpTimes(s, ops[0]) + RunTimes(OpStep(s, ops[0]), ops[1..])
  }

  lemma LastTimes(times: seq<Time>, n: nat, k: nat)
    requires n + k <= |times|
    ensures times[|times| - k..] == times[n..][|times[n..]| - k..]
  {
  }

  lemma TimedFirst(p: Push, rest: seq<Push>, after: Sender, times: seq<Time>, more: seq<Time>)
    requires |p.data| <= |times| && (p.data != [] ==> p.T == times[0])
    requires Timed(rest, after.buffer, after.time, times[|p.data|..] + more)
    ensures Timed([p] + rest, after.buffer, after.time, times + more)
  {
    assert ([p] + rest)[1..] == rest && (times + more)[|p.data|..] == times[|p.data|..] + more;
  }

  lemma {:induction false} TimedThen(ps: seq<Push>, s: Sender, times: seq<Time>, qs: seq<Push>, after: Sender,
                                     more: seq<Time>)
    requires Timed(ps, s.buffer, s.time, times)
    requires |s.buffer| <= |times|
    requires Timed(qs, after.buffer, after.time, times[|times| - |s.buffer|..] + more)
    ensures Timed(ps + qs, after.buffer, after.time, times + more)
    decreases |ps|
  {
    if ps == [] {
      assert ps + qs == qs && times[0..] == times;
    } else {
      var n := |ps[0].data|;
      TimedLeft(ps[1..], s, times[n..]);
      LastTimes(times, n, |s.buffer|);
      TimedThen(ps[1..], s, times[n..], qs, after, more);
      assert ps + qs == [ps[0]] + (ps[1..] + qs);
      TimedFirst(ps[0], ps[1..] + qs, after, times, more);
    }
  }

  lemma {:induction false} TimedLeft(ps: seq<Push>, s: Sender, times: seq<Time>)
    requires Timed(ps, s.buffer, s.time, times)
    ensures |s.buffer| <= |times| && Timed([], s.buffer, s.time, times[|times| - |s.buffer|..])
    decreases |ps|
  {
    if ps != [] {
      TimedLeft(ps[1..], s, times[|ps[0].data|..]);
      LastTimes(times, |ps[0].data|, |s.buffer|);
    }
  }

  /** In every run, each packet sent has the time of its first scalar: the time of the write that
      scalar came in, plus the scalar's index in that write times the xdelta it was written with. */
  lemma {:induction false} RunTimed(s: Sender, ops: seq<Op>, held: seq<Time>)
    requires s.Valid() && Timed([], s.buffer, s.time, held)
    ensures Timed(RunEmits(s, ops), Run(s, ops).buffer, Run(s, ops).time, held + RunTimes(s, ops))
    decreases |ops|
  {
    hide OpStep, OpEmits, OpTimes, Timed;
    if ops == [] {
      assert held + [] == held;
    } else {
      OpKeeps(s, ops[0]);
      OpTimed(s, ops[0], held);
      var next, times := OpStep(s, ops[0]), held + OpTimes(s, ops[0]);
      TimedLeft(OpEmits(s, ops[0]), next, times);
      RunTimed(next, ops[1..], times[|times| - |next.buffer|..]);
      TimedThen(OpEmits(s, ops[0]), next, times, RunEmits(next, ops[1..]), Run(s, ops), RunTimes(next, ops[1..]));
      Regroup(held, OpTimes(s, ops[0]), RunTimes(next, ops[1..]));
    }
  }

  // Complex streams: the times of samples, not of scalars

  /** The times of n scalars of one write to a complex stream, from the k-th on: two scalars make
      a sample. */
  function SampleTimes(time: Time, k: nat, n: nat, xdelta: real): (ts: seq<Time>)
    ensures |ts| == n
    decreases n
  {
    if n == 0 then [] else [TimeAt(time, k / 2, xdelta)] + SampleTimes(time, k + 1, n - 1, xdelta)
  }

  lemma {:induction false} SampleTimesAt(time: Time, k: nat, n: nat, xdelta: real, i: nat)
    requires i < n
    ensures SampleTimes(time, k, n, xdelta)[i] == TimeAt(time, (k + i) / 2, xdelta)
    ensures WriteTimes(time, k, n, xdelta)[i] == TimeAt(time, k + i, xdelta)
    decreases n
  {
    hide TimeAt;
    if i > 0 { SampleTimesAt(time, k + 1, n - 1, xdelta, i - 1); }
  }

  lemma {:induction false} SampleTimesDrop(time: Time, k: nat, n: nat, xdelta: real, m: nat)
    requires m <= n
    ensures SampleTimes(time, k, n, xdelta)[m..] == SampleTimes(time, k + m, n - m, xdelta)
    decreases m
  {
    hide TimeAt;
    if m > 0 {
      SampleTimesDrop(time, k + 1, n - 1, xdelta, m - 1);
      assert SampleTimes(time, k, n, xdelta)[1..] == SampleTimes(time, k + 1, n - 1, xdelta);
      assert SampleTimes(time, k, n, xdelta)[1..][m - 1..] == SampleTimes(time, k, n, xdelta)[m..];
    }
  }

  /** The same time for every scalar that starts a sample. */
  predicate Agree(a: seq<Time>, b: seq<Time>) {
    |a| == |b| && forall i :: 0 <= i < |a| && i % 2 == 0 ==> a[i] == b[i]
  }

  predicate AllEven(ps: seq<Push>) { forall p :: p in ps ==> |p.data| % 2 == 0 }

  lemma {:induction false} TimedAgree(ps: seq<Push>, left: seq<Sample>, t: Time, a: seq<Time>, b: seq<Time>)
    requires Agree(a, b) && AllEven(ps) && Timed(ps, left, t, a)
    ensures Timed(ps, left, t, b)
    decreases |ps|
  {
    if ps != [] {
      assert ps[0] in ps;
      AgreeDrop(a, b, |ps[0].data|);
      TimedAgree(ps[1..], left, t, a[|ps[0].data|..], b[|ps[0].data|..]);
    }
  }

  lemma AgreeDrop(a: seq<Time>, b: seq<Time>, n: nat)
    requires Agree(a, b) && n % 2 == 0 && n <= |a|
    ensures Agree(a[n..], b[n..]) && (a != [] ==> a[0] == b[0])
  {
    forall i | 0 <= i < |a| - n && i % 2 == 0 ensures a[n..][i] == b[n..][i] {
      assert a[n + i] == b[n + i];
    }
  }

  lemma StillTimesAgree(time: Time, n: nat, held: seq<Time>)
    requires |held| % 2 == 0
    ensures Agree(held + WriteTimes(time, 0, n, 0.0), held + SampleTimes(time, 0, n, 0.0))
  {
    hide WriteTimes, SampleTimes;
    var a, b := held + WriteTimes(time, 0, n, 0.0), held + SampleTimes(time, 0, n, 0.0);
    forall i | 0 <= i < |a| && i % 2 == 0 ensures a[i] == b[i] {
      if i >= |held| {
        var k := i - |held|;
        SampleTimesAt(time, 0, n, 0.0, k);
        if k > 0 { ComplexTimes(time, k, 0.0); }
      }
    }
  }

  /** Counted by scalars the time of the sample that starts at an even scalar k > 0 is right only
      when xdelta is 0. */
  lemma ComplexTimes(time: Time, k: nat, xdelta: real)
    requires k > 0 && k % 2 == 0
    ensures TimeAt(time, k, xdelta) == TimeAt(time, k / 2, xdelta) <==> xdelta == 0.0
  {
    var j := k / 2;
    var a, b := k as real * xdelta, j as real * xdelta;
    assert a == 2.0 * b by { assert k as real == 2.0 * j as real; }
    PlusSeconds(time, a);
    PlusSeconds(time, b);
  }

  lemma PlusSeconds(time: Time, a: real)
    ensures Seconds(Plus(time, a)) == Seconds(time) + a
  {
  }

  /** One round of DoBuffer. */
  lemma DoBufferCases(s: Sender, data: seq<Sample>, time: Time)
    requires |s.buffer| < s.size
    ensures var n, filled := Count(s, data), Filled(s, data, time);
            var p, rest, later := filled.Emit(filled.buffer, filled.time, false), data[n..],
                Later(time, n, s.sri.xdelta);
            if |filled.buffer| < s.size then
              n == |data| && DoBuffer(s, data, time) == filled && DoBufferEmits(s, data, time) == []
            else if n == |data| then
              DoBuffer(s, data, time) == Emptied(filled) && DoBufferEmits(s, data, time) == [p]
            else
              && DoBuffer(s, data, time) == DoBuffer(Emptied(filled), rest, later)
              && DoBufferEmits(s, data, time) == [p] + DoBufferEmits(Emptied(filled), rest, later)
  {
  }

  /** What is buffered into an empty buffer goes on with the time it was given. */
  lemma FirstTimed(s: Sender, data: seq<Sample>, time: Time, ts: seq<Time>)
    requires s.buffer == [] && 0 < s.size && data != []
    requires var after := DoBuffer(s, data, time); Timed(DoBufferEmits(s, data, time), after.buffer, after.time, ts)
    ensures ts != [] && ts[0] == time
  {
    hide DoBuffer, DoBufferEmits, Later;
    DoBufferCases(s, data, time);
  }

  /** Buffering a write to a complex stream: the packets sent and the buffer left have the time of
      their first sample exactly when the write fits into the room left, or xdelta is 0. What is
      left of a write that is split is given a time that counts each scalar as a sample. */
  lemma DoBufferOnTime(s: Sender, data: seq<Sample>, time: Time, held: seq<Time>)
    requires s.sri.Complex() && |s.buffer| < s.size && Timed([], s.buffer, s.time, held)
    requires s.size % 2 == 0 && |s.buffer| % 2 == 0 && |data| % 2 == 0
    ensures var after := DoBuffer(s, data, time);
            Timed(DoBufferEmits(s, data, time), after.buffer, after.time,
                  held + SampleTimes(time, 0, |data|, s.sri.xdelta))
            <==> |data| <= s.size - |s.buffer| || s.sri.xdelta == 0.0
  {
    hide DoBuffer, DoBufferEmits, Timed, SampleTimes, Count, Filled;
    HeldCounts(s, held);
    if s.sri.xdelta == 0.0 {
      DoBufferStill(s, data, time, held);
    } else if |data| <= s.size - |s.buffer| {
      DoBufferWhole(s, data, time, held);
    } else {
      DoBufferSplit(s, data, time, held);
    }
  }

  lemma HeldCounts(s: Sender, held: seq<Time>)
    requires Timed([], s.buffer, s.time, held)
    ensures |held| == |s.buffer|
  {
  }

  lemma DoBufferStill(s: Sender, data: seq<Sample>, time: Time, held: seq<Time>)
    requires |s.buffer| < s.size && Timed([], s.buffer, s.time, held) && s.sri.xdelta == 0.0
    requires s.size % 2 == 0 && |held| % 2 == 0
    ensures var after := DoBuffer(s, data, time);
            Timed(DoBufferEmits(s, data, time), after.buffer, after.time, held + SampleTimes(time, 0, |data|, 0.0))
  {
    hide DoBuffer, DoBufferEmits, Timed, SampleTimes, WriteTimes, Agree, Scalars;
    DoBufferTimed(s, data, time, held);
    DoBufferKeeps(s, data, time);
    StillTimesAgree(time, |data|, held);
    var after := DoBuffer(s, data, time);
    TimedAgree(DoBufferEmits(s, data, time), after.buffer, after.time, held + WriteTimes(time, 0, |data|, 0.0),
               held + SampleTimes(time, 0, |data|, 0.0));
  }

  lemma DoBufferWhole(s: Sender, data: seq<Sample>, time: Time, held: seq<Time>)
    requires |s.buffer| < s.size && Timed([], s.buffer, s.time, held) && |data| <= s.size - |s.buffer|
    ensures var after := DoBuffer(s, data, time);
            Timed(DoBufferEmits(s, data, time), after.buffer, after.time,
                  held + SampleTimes(time, 0, |data|, s.sri.xdelta))
  {
    hide DoBuffer, DoBufferEmits, Later;
    DoBufferCases(s, data, time);
    var filled, times := Filled(s, data, time), held + SampleTimes(time, 0, |data|, s.sri.xdelta);
    assert data[..|data|] == data;
    assert filled.buffer != [] ==> filled.time == times[0];
    if |filled.buffer| >= s.size { OneTimed(filled, times); }
  }

  lemma DoBufferSplit(s: Sender, data: seq<Sample>, time: Time, held: seq<Time>)
    requires |s.buffer| < s.size && |held| == |s.buffer| && |data| > s.size - |s.buffer| && s.sri.xdelta != 0.0
    requires s.size % 2 == 0 && |s.buffer| % 2 == 0
    ensures var after := DoBuffer(s, data, time);
            !Timed(DoBufferEmits(s, data, time), after.buffer, after.time,
                   held + SampleTimes(time, 0, |data|, s.sri.xdelta))
  {
    hide DoBuffer, DoBufferEmits, SampleTimes, Later, TimeAt;
    var n, x, filled := Count(s, data), s.sri.xdelta, Filled(s, data, time);
    var later, times := Later(time, n, x), held + SampleTimes(time, 0, |data|, x);
    DoBufferCases(s, data, time);
    SampleTimesDrop(time, 0, |data|, x, n);
    assert times[s.size..] == SampleTimes(time, n, |data| - n, x);
    SampleTimesAt(time, n, |data| - n, x, 0);
    ComplexTimes(time, n, x);
    LaterIs(time, n, x);
    var after, rest := DoBuffer(s, data, time), DoBufferEmits(Emptied(filled), data[n..], later);
    var p := filled.Emit(filled.buffer, filled.time, false);
    assert ([p] + rest)[1..] == rest;
    if Timed([p] + rest, after.buffer, after.time, times) {
      FirstTimed(Emptied(filled), data[n..], later, times[s.size..]);
    }
  }

  lemma LaterIs(time: Time, n: nat, x: real)
    requires n > 0
    ensures Later(time, n, x) == TimeAt(time, n, x)
  {
  }

  /** The times of what an operation writes, by samples. */
  function OpSampleTimes(s: Sender, op: Op): seq<Time> {
    if !op.WriteOp? then []
    else if s.sri.Complex() then SampleTimes(op.time, 0, |op.data|, s.sri.xdelta)
    else WriteTimes(op.time, 0, |op.data|, s.sri.xdelta)
  }

  /** On a complex stream whole samples are written, and fill the buffer exactly. */
  predicate WholeOp(s: Sender, op: Op) {
    s.sri.Complex() ==> s.size % 2 == 0 && |s.buffer| % 2 == 0 && (op.WriteOp? ==> |op.data| % 2 == 0)
  }

  /** A write that is not split, or whose split does not matter. */
  predicate OnTime(s: Sender, op: Op) {
    op.WriteOp? && s.sri.Complex() && !Direct(s, op.data) ==> |op.data| <= s.size - |s.buffer| || s.sri.xdelta == 0.0
  }

  lemma OpOnTime(s: Sender, op: Op, held: seq<Time>)
    requires s.Valid() && WholeOp(s, op) && Timed([], s.buffer, s.time, held)
    ensures Timed(OpEmits(s, op), OpStep(s, op).buffer, OpStep(s, op).time, held + OpSampleTimes(s, op))
            <==> OnTime(s, op)
  {
    hide Timed, OpStep, OpEmits, WriteTimes, SampleTimes;
    if op.WriteOp? && s.sri.Complex() {
      WriteOnTime(s, op, held);
    } else {
      OpTimed(s, op, held);
    }
  }

  lemma WriteOnTime(s: Sender, op: Op, held: seq<Time>)
    requires op.WriteOp? && s.sri.Complex()
    requires s.Valid() && WholeOp(s, op) && Timed([], s.buffer, s.time, held)
    ensures Timed(OpEmits(s, op), OpStep(s, op).buffer, OpStep(s, op).time, held + OpSampleTimes(s, op))
            <==> OnTime(s, op)
  {
    hide DoBuffer, DoBufferEmits, Timed, SampleTimes;
    if Direct(s, op.data) {
      DirectOnTime(s, op.data, op.time, held);
    } else {
      DoBufferOnTime(s, op.data, op.time, held);
    }
  }

  lemma DirectOnTime(s: Sender, data: seq<Sample>, time: Time, held: seq<Time>)
    requires s.Valid() && Direct(s, data) && Timed([], s.buffer, s.time, held)
    ensures Timed([s.Emit(data, time, false)], s.buffer, s.time, held + SampleTimes(time, 0, |data|, s.sri.xdelta))
  {
    assert held == [] && s.buffer == [];
    var p, ts := s.Emit(data, time, false), held + SampleTimes(time, 0, |data|, s.sri.xdelta);
    assert [p][1..] == [] && ts[|data|..] == [];
  }

  function RunSampleTimes(s: Sender, ops: seq<Op>): seq<Time>
    requires s.Valid()
    decreases |ops|
  {
    if ops == [] then []
    else
      OpKeeps(s, ops[0]);
      OpSampleTimes(s, ops[0]) + RunSampleTimes(OpStep(s, ops[0]), ops[1..])
  }

  predicate RunWhole(s: Sender, ops: seq<Op>)
    requires s.Valid()
    decreases |ops|
  {
    if ops == [] then true
    else
      OpKeeps(s, ops[0]);
      WholeOp(s, ops[0]) && RunWhole(OpStep(s, ops[0]), ops[1..])
  }

  predicate RunOnTime(s: Sender, ops: seq<Op>)
    requires s.Valid()
    decreases |ops|
  {
    if ops == [] then true
    else
      OpKeeps(s, ops[0]);
      OnTime(s, ops[0]) && RunOnTime(OpStep(s, ops[0]), ops[1..])
  }

  /** What is buffered keeps its time until it is sent. */
  lemma OpHolds(s: Sender, op: Op)
    requires s.Valid() && s.buffer != []
    ensures var emits, after := OpEmits(s, op), OpStep(s, op);
            if emits == [] then after.buffer != [] && after.time == s.time
            else emits[0].data != [] && emits[0].T == s.time
  {
    hide DoBuffer, DoBufferEmits, Later;
    if op.WriteOp? { DoBufferCases(s, op.data, op.time); }
  }

  lemma {:induction false} RunHolds(s: Sender, ops: seq<Op>, ts: seq<Time>)
    requires s.Valid() && s.buffer != []
    requires Timed(RunEmits(s, ops), Run(s, ops).buffer, Run(s, ops).time, ts)
    ensures ts != [] && ts[0] == s.time
    decreases |ops|
  {
    hide OpStep, OpEmits, Scalars;
    if ops != [] {
      OpKeeps(s, ops[0]);
      OpHolds(s, ops[0]);
      var emits, next := OpEmits(s, ops[0]), OpStep(s, ops[0]);
      if emits == [] {
        assert emits + RunEmits(next, ops[1..]) == RunEmits(next, ops[1..]);
        RunHolds(next, ops[1..], ts);
      } else {
        assert RunEmits(s, ops)[0] == emits[0];
      }
    }
  }

  /** Right times of a run are right times of its beginning and of the rest. */
  lemma {:induction false} TimedApart(ps: seq<Push>, s: Sender, ops: seq<Op>, times: seq<Time>, more: seq<Time>)
    requires s.Valid() && |Scalars(ps)| + |s.buffer| == |times|
    requires Timed(ps + RunEmits(s, ops), Run(s, ops).buffer, Run(s, ops).time, times + more)
    ensures Timed(ps, s.buffer, s.time, times)
    ensures Timed(RunEmits(s, ops), Run(s, ops).buffer, Run(s, ops).time, times[|times| - |s.buffer|..] + more)
    decreases |ps|
  {
    hide Run, RunEmits;
    if ps == [] {
      assert ps + RunEmits(s, ops) == RunEmits(s, ops) && times[0..] == times;
      if s.buffer != [] { RunHolds(s, ops, times + more); }
    } else {
      hide Timed;
      var p, rest := ps[0], ps[1..];
      assert ps == [p] + rest;
      assert ps + RunEmits(s, ops) == [p] + (rest + RunEmits(s, ops));
      TimedRest(p, rest + RunEmits(s, ops), Run(s, ops), times, more);
      TimedApart(rest, s, ops, times[|p.data|..], more);
      LastTimes(times, |p.data|, |s.buffer|);
      assert times + [] == times && times[|p.data|..] + [] == times[|p.data|..];
      TimedFirst(p, rest, s, times, []);
    }
  }

  lemma TimedRest(p: Push, rest: seq<Push>, after: Sender, times: seq<Time>, more: seq<Time>)
    requires |p.data| <= |times| && Timed([p] + rest, after.buffer, after.time, times + more)
    ensures p.data != [] ==> p.T == times[0]
    ensures Timed(rest, after.buffer, after.time, times[|p.data|..] + more)
  {
    assert ([p] + rest)[1..] == rest && (times + more)[|p.data|..] == times[|p.data|..] + more;
  }

  /** In every run of writes of whole samples, on a stream that may be real and complex by turns:
      every packet has the time of its first sample exactly when no buffered write to the complex
      stream is split, but for those at an xdelta of 0. */
  lemma {:induction false} RunTimedSamples(s: Sender, ops: seq<Op>, held: seq<Time>)
    requires s.Valid() && RunWhole(s, ops) && Timed([], s.buffer, s.time, held)
    ensures Timed(RunEmits(s, ops), Run(s, ops).buffer, Run(s, ops).time, held + RunSampleTimes(s, ops))
            <==> RunOnTime(s, ops)
    decreases |ops|
  {
    hide OpStep, OpEmits, OpSampleTimes, Timed, OnTime, WholeOp, Scalars;
    if ops == [] {
      assert held + [] == held;
    } else {
      var op := ops[0];
      OpKeeps(s, op);
      OpOnTime(s, op, held);
      HeldCounts(s, held);
      var next, times, more := OpStep(s, op), held + OpSampleTimes(s, op), RunSampleTimes(OpStep(s, op), ops[1..]);
      Regroup(held, OpSampleTimes(s, op), more);
      TimesCount(s, op);
      if OnTime(s, op) {
        TimedLeft(OpEmits(s, op), next, times);
        RunTimedSamples(next, ops[1..], times[|times| - |next.buffer|..]);
      }
      ghost var whole := Timed(RunEmits(s, ops), Run(s, ops).buffer, Run(s, ops).time, held + RunSampleTimes(s, ops));
      if whole {
        TimedApart(OpEmits(s, op), next, ops[1..], times, more);
      } else if RunOnTime(s, ops) {
        TimedThen(OpEmits(s, op), next, times, RunEmits(next, ops[1..]), Run(s, ops), more);
      }
    }
  }

  lemma TimesCount(s: Sender, op: Op)
    requires s.Valid()
    ensures |Scalars(OpEmits(s, op))| + |OpStep(s, op).buffer| == |s.buffer| + |OpSampleTimes(s, op)|
  {
    hide OpStep, OpEmits, Scalars;
    OpKeeps(s, op);
    assert |Scalars(OpEmits(s, op)) + OpStep(s, op).buffer| == |s.buffer + Written(op)|;
  }
}
