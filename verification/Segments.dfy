/** What the reader of an input stream has in front of it: the samples still to come, cut into
    segments by SRI changes and queue flushes, and whether the stream has been ended. */
module Segments {
  import opened BulkioTypes
  import opened StreamCells

  /** A packet without payload leaves the segments alone; one that does not bridge starts a new
      segment, any other one carries on the last segment. */
  function AddPacket(segs: seq<seq<Sample>>, p: Packet): seq<seq<Sample>> {
    if p.buffer == [] then segs
    else if segs == [] || !p.Bridges() then segs + [p.buffer]
    else segs[..|segs| - 1] + [segs[|segs| - 1] + p.buffer]
  }

  function Extend(segs: seq<seq<Sample>>, ps: seq<Packet>): seq<seq<Sample>>
    decreases ps
  {
    if ps == [] then segs else Extend(AddPacket(segs, ps[0]), ps[1..])
  }

  /** The plain segment reader's only move: n samples of the current segment are passed. */
  function Advance(segs: seq<seq<Sample>>, n: nat): seq<seq<Sample>>
    requires segs != [] && n <= |segs[0]|
  {
    if n < |segs[0]| then [segs[0][n..]] + segs[1..] else segs[1..]
  }

  /** The same for any n: not beyond the current segment, and for none nothing happens. */
  function AdvanceBy(segs: seq<seq<Sample>>, n: nat): seq<seq<Sample>> {
    if n == 0 || segs == [] then segs else Advance(segs, Min(n, |segs[0]|))
  }

  /** The scalars of the whole samples among n scalars. */
  function WholeSamples(n: nat, item: nat): nat {
    if item == 2 then n / 2 * 2 else n
  }

  /** The most scalars that make whole samples. */
  lemma WholeSamplesIs(n: nat, item: nat)
    requires item == 1 || item == 2
    ensures var w := WholeSamples(n, item); w % item == 0 && w <= n < w + item
  {
  }

  /** How many scalars a skip of `count` samples passes. */
  function SkipOutcome(visible: seq<Sample>, item: nat, count: nat): nat {
    Min(count * item, |visible|)
  }

  lemma AdvanceNone(segs: seq<seq<Sample>>)
    ensures AdvanceBy(segs, 0) == segs
  {
  }

  /** What a plain segment reader does on read(count, consume): the block it returns, if any, and
      how far it moves, in scalars. `visible` is what can be had of the current segment, `ended`
      says that no more will join it, `item` is the number of scalars per sample. */
  datatype Outcome = Outcome(block: Option<seq<Sample>>, passed: nat)

  function ReadOutcome(visible: seq<Sample>, ended: bool, item: nat, count: nat, consume: nat, blocking: bool): Outcome
    requires item > 0
  {
    if visible == [] then Outcome(None, 0)
    else if |visible| >= Max(count, consume) * item then Outcome(Some(visible[..count * item]), consume * item)
    else if !blocking && !ended then Outcome(None, 0)
    else Outcome(Some(visible[..Min(count * item, |visible|)]),
                 if consume == 0 then 0 else WholeSamples(|visible|, item))
  }

  /** What _readData is asked to do when `held` scalars are held amounts to the plain reader's
      outcome. */
  lemma OutcomeOfHeld(visible: seq<Sample>, ended: bool, item: nat, count: nat, consume: nat, blocking: bool, held: nat)
    requires (item == 1 || item == 2) && 0 < held <= |visible|
    ensures var request := Max(consume * item, count * item);
            var o := ReadOutcome(visible, ended, item, count, consume, blocking);
            var pass := if Min(request, held) < request && consume * item != 0
                        then Min(request, held) else consume * item;
            (held < request ==> held == |visible|) ==>
              && pass <= held
              && if held < request && !blocking && !ended then o == Outcome(None, 0)
                 else o == Outcome(Some(visible[..Min(count * item, held)]), WholeSamples(pass, item))
  {
    assert Max(consume * item, count * item) == Max(count, consume) * item;
  }

  /** A block is the beginning of what is visible, and nothing is passed that is not. */
  lemma OutcomeWithin(visible: seq<Sample>, ended: bool, item: nat, count: nat, consume: nat, blocking: bool)
    requires item == 1 || item == 2
    ensures var o := ReadOutcome(visible, ended, item, count, consume, blocking);
            && (o.block.Some? ==> o.block.value <= visible) && o.passed <= |visible|
            && (o.block.None? <==> visible == []
                                   || (|visible| < Max(count, consume) * item && !blocking && !ended))
            && (o.block.Some? && |visible| >= Max(count, consume) * item ==>
                  |o.block.value| == count * item && o.passed == consume * item)
            && (o.block.Some? && |visible| < Max(count, consume) * item ==>
                  && |o.block.value| == Min(count * item, |visible|)
                  && o.passed == if consume == 0 then 0 else |visible| - |visible| % item)
  {
    assert Max(count, consume) * item >= count * item && Max(count, consume) * item >= consume * item;
  }

  lemma AdvanceTwice(segs: seq<seq<Sample>>, a: nat, b: nat)
    requires segs != [] && 0 < b && a + b <= |segs[0]|
    ensures AdvanceBy(AdvanceBy(segs, a), b) == AdvanceBy(segs, a + b)
  {
    assert segs[0][a..][b..] == segs[0][a + b..];
    assert ([segs[0][a..]] + segs[1..])[1..] == segs[1..];
  }

  /** A packet carries on the first segment only when there is no other. */
  lemma AddFirst(d: seq<Sample>, tail: seq<seq<Sample>>, p: Packet)
    ensures AddPacket([d] + tail, p) ==
            if tail == [] && p.buffer != [] && p.Bridges() then [d + p.buffer] + [] else [d] + AddPacket(tail, p)
  {
  }

  lemma {:induction false} ExtendFirst(d: seq<Sample>, e: seq<Sample>, tail: seq<seq<Sample>>, ps: seq<Packet>)
    requires d != [] && e != []
    ensures var x, y := Extend([d + e] + tail, ps), Extend([e] + tail, ps);
            x != [] && y != [] && y[0] != [] && x[0] == d + y[0] && x[1..] == y[1..]
    decreases ps
  {
    if ps != [] {
      var p := ps[0];
      AddFirst(d + e, tail, p);
      AddFirst(e, tail, p);
      if tail == [] && p.buffer != [] && p.Bridges() {
        assert d + e + p.buffer == d + (e + p.buffer);
        ExtendFirst(d, e + p.buffer, [], ps[1..]);
      } else {
        ExtendFirst(d, e, AddPacket(tail, p), ps[1..]);
      }
    }
  }

  /** Whatever follows, passing n samples before or after it is looked at is the same. */
  lemma AdvanceExtend(d: seq<Sample>, n: nat, ps: seq<Packet>)
    requires n < |d|
    ensures var x := Extend([d], ps);
            x != [] && d <= x[0] && Extend([d[n..]], ps) == Advance(x, n)
  {
    assert [d] + [] == [d] && [d[n..]] + [] == [d[n..]];
    ExtendKeepsFirst(d, [], ps);
    var x, y := Extend([d], ps), Extend([d[n..]], ps);
    if n > 0 {
      ExtendFirst(d[..n], d[n..], [], ps);
      assert d[..n] + d[n..] == d;
      assert x[0][n..] == y[0] && y == [y[0]] + y[1..];
    } else {
      assert d[0..] == d && x[0][0..] == x[0] && [x[0]] + x[1..] == x;
    }
  }

  lemma {:induction false} ExtendKeepsFirst(d: seq<Sample>, tail: seq<seq<Sample>>, ps: seq<Packet>)
    ensures Extend([d] + tail, ps) != [] && d <= Extend([d] + tail, ps)[0]
    decreases ps
  {
    if ps != [] {
      var next := AddPacket([d] + tail, ps[0]);
      assert next == [next[0]] + next[1..];
      ExtendKeepsFirst(next[0], next[1..], ps[1..]);
    }
  }

  /** Passing the whole of what is held leaves what follows. */
  lemma {:induction false} AdvanceAll(d: seq<Sample>, ps: seq<Packet>)
    requires d != []
    ensures var x := Extend([d], ps);
            x != [] && d <= x[0] && Extend([], ps) == Advance(x, |d|)
  {
    assert [d] + [] == [d];
    ExtendKeepsFirst(d, [], ps);
    if ps != [] {
      var p := ps[0];
      AddFirst(d, [], p);
      assert [] + [p.buffer] == [p.buffer] == [p.buffer] + [];
      if p.buffer == [] {
        AdvanceAll(d, ps[1..]);
      } else if p.Bridges() {
        ExtendFirst(d, p.buffer, [], ps[1..]);
        var y := Extend([p.buffer], ps[1..]);
        assert y == [y[0]] + y[1..];
      } else {
        ExtendBehind(d, [p.buffer], ps[1..]);
      }
    }
  }

  /** A segment behind which another one has started does not change any more. */
  lemma {:induction false} ExtendBehind(d: seq<Sample>, tail: seq<seq<Sample>>, ps: seq<Packet>)
    requires tail != []
    ensures Extend([d] + tail, ps) == [d] + Extend(tail, ps)
    decreases ps
  {
    if ps != [] {
      var t := AddPacket(tail, ps[0]);
      assert AddPacket([d] + tail, ps[0]) == [d] + t;
      ExtendBehind(d, t, ps[1..]);
    }
  }

  lemma {:induction false} ExtendConcat(segs: seq<seq<Sample>>, a: seq<Packet>, b: seq<Packet>)
    ensures Extend(segs, a + b) == Extend(Extend(segs, a), b)
    decreases a
  {
    if a == [] {
      assert a + b == b;
    } else {
      assert (a + b)[1..] == a[1..] + b;
      ExtendConcat(AddPacket(segs, a[0]), a[1..], b);
    }
  }
}
