/** What an input port loses on overflow, and what it says about it. Every packet pushed for a
    stream ID gets a serial number; the ledger follows the numbers through the queue. */
module Ledger {
  import opened BulkioTypes
  import opened PrecisionTime
  import opened PacketQueue

  /** A queued or delivered packet: the number it was pushed under, the number of the packet
      whose payload it now carries, and whether a flush mark was lost when it took that
      payload over. */
  datatype Entry = Entry(tag: nat, data: nat, muted: bool, packet: Packet)

  /** The account of one stream ID: what was pushed, and the packets that came out or are
      still queued, of which the first `taken` were delivered. */
  datatype Account = Account(pushed: seq<Packet>, entries: seq<Entry>, taken: nat)

  datatype Event = Arrive(p: Packet, full: bool) | Squeeze | Take

  function Packets(es: seq<Entry>): (ps: seq<Packet>)
    ensures |ps| == |es| && forall k :: 0 <= k < |es| ==> ps[k] == es[k].packet
  {
    seq(|es|, k requires 0 <= k < |es| => es[k].packet)
  }

  function AbsorbEntry(last: Entry, e: Entry): Entry {
    var r := Absorb(last.packet, e.packet);
    var swap := last.packet.buffer == [] && e.packet.buffer != [];
    last.(data := if swap then e.data else last.data,
          muted := !r.inputQueueFlushed && (last.muted || (swap && e.packet.inputQueueFlushed)),
          packet := r)
  }

  function CollapseEntries(es: seq<Entry>): seq<Entry> {
    if es == [] then [] else
      var t := CollapseEntries(es[1..]);
      if t != [] && !es[0].packet.EOS then [AbsorbEntry(t[0], es[0])] + t[1..] else [es[0]] + t
  }

  function PushFullEntries(es: seq<Entry>, e: Entry): seq<Entry> {
    var f := CollapseEntries(es);
    if f != [] && !f[|f| - 1].packet.EOS
    then f[..|f| - 1] + [e.(packet := Replacing(e.packet, f[|f| - 1].packet))]
    else f + [e]
  }

  function Step(a: Account, e: Event): Account
    requires a.taken <= |a.entries|
  {
    var gone, held := a.entries[..a.taken], a.entries[a.taken..];
    match e
    case Arrive(p, full) =>
      var entry := Entry(|a.pushed|, |a.pushed|, false, p);
      a.(pushed := a.pushed + [p],
         entries := gone + (if full then PushFullEntries(held, entry) else held + [entry]))
    case Squeeze => a.(entries := gone + CollapseEntries(held))
    case Take => if held == [] then a else a.(taken := a.taken + 1)
  }

  function Run(es: seq<Event>): (a: Account)
    ensures a.taken <= |a.entries|
  {
    if es == [] then Account([], [], 0) else Step(Run(es[..|es| - 1]), es[|es| - 1])
  }

  // ---------- honesty ----------

  /** Packets were lost between the delivery `prev` and e. */
  predicate Lost(prev: int, e: Entry) {
    e.tag - prev > if e.data == e.tag then 1 else 2
  }

  /** e follows number `prev`: it carries a payload pushed after prev, no end-of-stream was
      skipped, and its flush mark reports a loss exactly unless the mark was muted. */
  ghost predicate Honest(pushed: seq<Packet>, prev: int, e: Entry) {
    && prev < e.data <= e.tag < |pushed| && -1 <= prev
    && e.packet.EOS == pushed[e.tag].EOS && e.packet.SRI == pushed[e.tag].SRI
    && e.packet.buffer == pushed[e.data].buffer && e.packet.T == pushed[e.data].T
    && (e.data < e.tag ==> e.packet.EOS && pushed[e.tag].buffer == [] && e.packet.buffer != [])
    && (!e.packet.EOS ==> e.packet.buffer != [] && !e.muted)
    && (e.muted ==> e.data < e.tag && !e.packet.inputQueueFlushed)
    && (e.packet.inputQueueFlushed || e.muted <==> Lost(prev, e))
    && forall t :: prev < t < e.tag ==> !pushed[t].EOS
  }

  ghost predicate AllHonest(pushed: seq<Packet>, prev: int, es: seq<Entry>)
    decreases es
  {
    es == [] || (Honest(pushed, prev, es[0]) && AllHonest(pushed, es[0].tag, es[1..]))
  }

  /** The number of the last packet of es, or prev. */
  function LastTag(prev: int, es: seq<Entry>): int {
    if es == [] then prev else es[|es| - 1].tag
  }

  ghost predicate Sound(a: Account) {
    && a.taken <= |a.entries|
    && AllHonest(a.pushed, -1, a.entries)
    && LastTag(-1, a.entries) == |a.pushed| - 1
  }

  lemma {:induction false} HonestConcat(pushed: seq<Packet>, prev: int, a: seq<Entry>, b: seq<Entry>)
    ensures AllHonest(pushed, prev, a + b) <==>
            AllHonest(pushed, prev, a) && AllHonest(pushed, LastTag(prev, a), b)
    decreases a
  {
    if a == [] {
      assert a + b == b;
    } else {
      HonestConcat(pushed, a[0].tag, a[1..], b);
      assert (a + b)[1..] == a[1..] + b;
      assert LastTag(a[0].tag, a[1..]) == LastTag(prev, a);
    }
  }

  lemma {:induction false} HonestMonotone(pushed: seq<Packet>, p: Packet, prev: int, es: seq<Entry>)
    requires AllHonest(pushed, prev, es)
    ensures AllHonest(pushed + [p], prev, es)
    decreases es
  {
    if es != [] { HonestMonotone(pushed, p, es[0].tag, es[1..]); }
  }

  lemma AbsorbHonest(pushed: seq<Packet>, prev: int, e: Entry, next: Entry)
    requires Honest(pushed, prev, e) && Honest(pushed, e.tag, next) && !e.packet.EOS
    ensures Honest(pushed, prev, AbsorbEntry(next, e))
  {
    var r := AbsorbEntry(next, e);
    forall t | prev < t < r.tag ensures !pushed[t].EOS {
      if t > e.tag { assert e.tag < t < next.tag; }
    }
  }

  lemma {:induction false} CollapseHonest(pushed: seq<Packet>, prev: int, es: seq<Entry>)
    requires AllHonest(pushed, prev, es)
    ensures var r := CollapseEntries(es);
            AllHonest(pushed, prev, r) && LastTag(prev, r) == LastTag(prev, es) && (r == [] <==> es == [])
    decreases es
  {
    if es != [] {
      CollapseHonest(pushed, es[0].tag, es[1..]);
      var t := CollapseEntries(es[1..]);
      if t != [] && !es[0].packet.EOS {
        AbsorbHonest(pushed, prev, es[0], t[0]);
        assert ([AbsorbEntry(t[0], es[0])] + t[1..])[1..] == t[1..];
      } else {
        assert ([es[0]] + t)[1..] == t;
      }
    }
  }

  /** A new packet is honest after number |pushed| - 1, or after an earlier packet that is the
      last one kept when the ones in between are not end-of-streams and it is marked. */
  lemma NewHonest(pushed: seq<Packet>, p: Packet, prev: int, marked: Packet)
    requires GoodPush(p) && -1 <= prev < |pushed|
    requires forall t :: prev < t < |pushed| ==> !pushed[t].EOS
    requires marked.EOS == p.EOS && marked.SRI == p.SRI && marked.buffer == p.buffer && marked.T == p.T
    requires marked.inputQueueFlushed <==> prev < |pushed| - 1
    ensures AllHonest(pushed + [p], prev, [Entry(|pushed|, |pushed|, false, marked)])
  {
    var e := Entry(|pushed|, |pushed|, false, marked);
    assert [e][1..] == [];
    assert Honest(pushed + [p], prev, e);
  }

  lemma PushFullHonest(pushed: seq<Packet>, p: Packet, prev: int, es: seq<Entry>)
    requires GoodPush(p) && AllHonest(pushed, prev, es) && LastTag(prev, es) == |pushed| - 1 && -1 <= prev
    ensures var r := PushFullEntries(es, Entry(|pushed|, |pushed|, false, p));
            AllHonest(pushed + [p], prev, r) && LastTag(prev, r) == |pushed|
  {
    CollapseHonest(pushed, prev, es);
    var f := CollapseEntries(es);
    var n := |f| - 1;
    if f != [] && !f[n].packet.EOS {
      var front := f[..n];
      assert f == front + [f[n]];
      HonestConcat(pushed, prev, front, [f[n]]);
      HonestMonotone(pushed, p, prev, front);
      var before := LastTag(prev, front);
      assert Honest(pushed, before, f[n]);
      NewHonest(pushed, p, before, Replacing(p, f[n].packet));
      HonestConcat(pushed + [p], prev, front, [Entry(|pushed|, |pushed|, false, Replacing(p, f[n].packet))]);
    } else {
      HonestMonotone(pushed, p, prev, f);
      NewHonest(pushed, p, LastTag(prev, f), p);
      HonestConcat(pushed + [p], prev, f, [Entry(|pushed|, |pushed|, false, p)]);
    }
  }

  /** Whatever honestly replaces the queued part keeps the account sound. */
  lemma Requeue(a: Account, pushed: seq<Packet>, held: seq<Entry>)
    requires a.taken <= |a.entries| && AllHonest(pushed, -1, a.entries[..a.taken])
    requires var prev := LastTag(-1, a.entries[..a.taken]);
             AllHonest(pushed, prev, held) && LastTag(prev, held) == |pushed| - 1
    ensures Sound(Account(pushed, a.entries[..a.taken] + held, a.taken))
  {
    HonestConcat(pushed, -1, a.entries[..a.taken], held);
  }

  /** The two parts of a sound account. */
  lemma Divide(a: Account)
    requires Sound(a)
    ensures var gone, held := a.entries[..a.taken], a.entries[a.taken..];
            var prev := LastTag(-1, gone);
            && AllHonest(a.pushed, -1, gone) && -1 <= prev
            && AllHonest(a.pushed, prev, held) && LastTag(prev, held) == |a.pushed| - 1
  {
    hide AllHonest;
    var gone, held := a.entries[..a.taken], a.entries[a.taken..];
    assert a.entries == gone + held;
    HonestConcat(a.pushed, -1, gone, held);
    LastTagBound(a.pushed, -1, gone);
  }

  lemma {:induction false} LastTagBound(pushed: seq<Packet>, prev: int, es: seq<Entry>)
    requires AllHonest(pushed, prev, es) && -1 <= prev
    ensures -1 <= LastTag(prev, es)
    decreases es
  {
    if es != [] { LastTagBound(pushed, es[0].tag, es[1..]); }
  }

  lemma StepSound(a: Account, e: Event)
    requires Sound(a) && (e.Arrive? ==> GoodPush(e.p))
    ensures Sound(Step(a, e))
  {
    Divide(a);
    var gone, held := a.entries[..a.taken], a.entries[a.taken..];
    var prev := LastTag(-1, gone);
    match e
    case Arrive(p, full) =>
      HonestMonotone(a.pushed, p, -1, gone);
      if full {
        PushFullHonest(a.pushed, p, prev, held);
        Requeue(a, a.pushed + [p], PushFullEntries(held, Entry(|a.pushed|, |a.pushed|, false, p)));
      } else {
        PushHonest(a.pushed, p, prev, held);
        Requeue(a, a.pushed + [p], held + [Entry(|a.pushed|, |a.pushed|, false, p)]);
      }
    case Squeeze =>
      CollapseHonest(a.pushed, prev, held);
      Requeue(a, a.pushed, CollapseEntries(held));
    case Take =>
  }

  lemma PushHonest(pushed: seq<Packet>, p: Packet, prev: int, es: seq<Entry>)
    requires GoodPush(p) && AllHonest(pushed, prev, es) && LastTag(prev, es) == |pushed| - 1
    ensures AllHonest(pushed + [p], prev, es + [Entry(|pushed|, |pushed|, false, p)])
  {
    HonestMonotone(pushed, p, prev, es);
    NewHonest(pushed, p, |pushed| - 1, p);
    HonestConcat(pushed + [p], prev, es, [Entry(|pushed|, |pushed|, false, p)]);
  }

  lemma {:induction false} HonestAt(pushed: seq<Packet>, prev: int, es: seq<Entry>, k: nat)
    requires AllHonest(pushed, prev, es) && k < |es|
    ensures Honest(pushed, LastTag(prev, es[..k]), es[k])
    decreases k
  {
    hide Honest;
    if k > 0 {
      HonestAt(pushed, es[0].tag, es[1..], k - 1);
      assert es[1..][..k - 1] == es[..k][1..];
    }
  }

  /** In every run, whatever is delivered or still queued is honest. */
  lemma {:induction false} RunSound(es: seq<Event>)
    requires forall i :: 0 <= i < |es| && es[i].Arrive? ==> GoodPush(es[i].p)
    ensures Sound(Run(es))
  {
    if es != [] {
      RunSound(es[..|es| - 1]);
      StepSound(Run(es[..|es| - 1]), es[|es| - 1]);
    }
  }

  // ---------- the port's queue keeps these accounts ----------

  /** A push, with the capacity and the blocking flag of that moment, or a fetch; an empty
      stream ID fetches whatever is in front. A packet with neither payload nor end-of-stream is
      no push at all, one that a blocking port makes wait has not been pushed yet, and one pushed
      at a port of no capacity is dropped. */
  datatype QueueEvent = Push(p: Packet, maxQueue: nat, blocking: bool) | Fetch(id: string)

  datatype QueueRun = QueueRun(queue: seq<Packet>, pushed: seq<Packet>, delivered: seq<Packet>)

  /** Which stream ID a fetch finds, if any. */
  function Fetched(q: seq<Packet>, id: string): Option<string> {
    if id == "" then (if q == [] then None else Some(q[0].streamID))
    else if Has(q, id) then Some(id) else None
  }

  predicate Empty(p: Packet) { p.buffer == [] && !p.EOS }

  /** A push as a port of some capacity takes it: marks are the port's own doing. */
  predicate Regular(e: QueueEvent) { e.Push? ==> e.maxQueue > 0 && !e.p.inputQueueFlushed }

  function QueueStep(r: QueueRun, e: QueueEvent): QueueRun {
    match e
    case Push(p, maxQueue, blocking) =>
      if maxQueue == 0 then (if Empty(p) then r else r.(pushed := r.pushed + [p]))
      else if Empty(p) then r
      else if |r.queue| < maxQueue then QueueRun(r.queue + [p], r.pushed + [p], r.delivered)
      else if blocking then r
      else QueueRun(PushFull(r.queue, p), r.pushed + [p], r.delivered)
    case Fetch(id) =>
      match Fetched(r.queue, id)
      case None => r
      case Some(x) =>
        HasLane(r.queue, x);
        r.(queue := Without(r.queue, x), delivered := r.delivered + [Lane(r.queue, x)[0]])
  }

  function RunQueue(es: seq<QueueEvent>): QueueRun {
    if es == [] then QueueRun([], [], []) else QueueStep(RunQueue(es[..|es| - 1]), es[|es| - 1])
  }

  /** The account of a stream ID describes what the queue did with its packets. */
  ghost predicate Describes(a: Account, r: QueueRun, id: string) {
    && a.taken <= |a.entries|
    && a.pushed == Lane(r.pushed, id)
    && Packets(a.entries[..a.taken]) == Lane(r.delivered, id)
    && Packets(a.entries[a.taken..]) == Lane(r.queue, id)
  }

  lemma {:induction false} CollapsePackets(es: seq<Entry>, id: string)
    requires SingleLane(Packets(es), id)
    ensures Packets(CollapseEntries(es)) == Collapse(Packets(es))
  {
    if es == [] {
      assert Packets(es) == [];
    } else {
      var ps := Packets(es);
      assert ps[1..] == Packets(es[1..]);
      CollapsePackets(es[1..], id);
      CollapseLane(ps[1..], id);
      CollapseHead(ps, id);
      CollapsedPackets(es, ps);
    }
  }

  lemma {:induction false} CollapsedPackets(es: seq<Entry>, ps: seq<Packet>)
    requires es != [] && ps == Packets(es)
    requires Packets(CollapseEntries(es[1..])) == Collapse(ps[1..])
    requires var t, r := ps[1..], Collapse(ps[1..]);
             Collapse(ps) == if t != [] && !ps[0].EOS then r[0 := Absorb(r[0], ps[0])] else [ps[0]] + r
    ensures Packets(CollapseEntries(es)) == Collapse(ps)
  {
    hide Absorb, Collapse;
  }

  lemma PushFullPackets(es: seq<Entry>, e: Entry)
    requires SingleLane(Packets(es), e.packet.streamID)
    ensures Packets(PushFullEntries(es, e)) == PushFullLane(Packets(es), e.packet)
  {
    hide CollapseEntries, Collapse, Replacing;
    CollapsePackets(es, e.packet.streamID);
  }

  /** Each event of the queue is one event, or none, for the account of a stream ID. */
  function Concerning(r: QueueRun, e: QueueEvent, id: string): Option<Event> {
    match e
    case Push(p, maxQueue, blocking) =>
      if Empty(p) || (|r.queue| >= maxQueue && blocking) then None
      else if p.streamID == id then Some(Arrive(p, |r.queue| >= maxQueue))
      else if |r.queue| >= maxQueue then Some(Squeeze) else None
    case Fetch(x) => if Fetched(r.queue, x) == Some(id) then Some(Take) else None
  }

  lemma Follow(a: Account, r: QueueRun, e: QueueEvent, id: string)
    requires Describes(a, r, id) && Regular(e)
    ensures var c := Concerning(r, e, id);
            Describes(if c.None? then a else Step(a, c.value), QueueStep(r, e), id)
  {
    hide Describes, Step;
    match e
    case Push(p, maxQueue, blocking) =>
      if !Empty(p) {
        if |r.queue| < maxQueue {
          FollowPush(a, r, p, id);
        } else if !blocking {
          FollowFull(a, r, p, id);
        }
      }
    case Fetch(x) =>
      if Fetched(r.queue, x).Some? { FollowFetch(a, r, Fetched(r.queue, x).value, id); }
  }

  lemma FollowPush(a: Account, r: QueueRun, p: Packet, id: string)
    requires Describes(a, r, id)
    ensures Describes(if p.streamID == id then Step(a, Arrive(p, false)) else a,
                      QueueRun(r.queue + [p], r.pushed + [p], r.delivered), id)
  {
    hide Lane;
    LaneSnoc(r.pushed, p, id);
    LaneSnoc(r.queue, p, id);
    if p.streamID == id { Described(a, a.entries[a.taken..] + [Entry(|a.pushed|, |a.pushed|, false, p)]); }
  }

  /** The entries after a step, apart again. */
  lemma Described(a: Account, held: seq<Entry>)
    requires a.taken <= |a.entries|
    ensures var entries := a.entries[..a.taken] + held;
            entries[..a.taken] == a.entries[..a.taken] && entries[a.taken..] == held
  {
  }

  lemma FollowFull(a: Account, r: QueueRun, p: Packet, id: string)
    requires Describes(a, r, id)
    ensures Describes(if p.streamID == id then Step(a, Arrive(p, true)) else Step(a, Squeeze),
                      QueueRun(PushFull(r.queue, p), r.pushed + [p], r.delivered), id)
  {
    hide Lane, PushFull, PushFullLane, PushFullEntries, CollapseEntries, Collapse;
    LaneSingle(r.queue, id);
    LaneSnoc(r.pushed, p, id);
    LanePushFull(r.queue, p, id);
    var held, entry := a.entries[a.taken..], Entry(|a.pushed|, |a.pushed|, false, p);
    if p.streamID == id {
      PushFullPackets(held, entry);
      Described(a, PushFullEntries(held, entry));
    } else {
      CollapsePackets(held, id);
      Described(a, CollapseEntries(held));
    }
  }

  lemma FollowFetch(a: Account, r: QueueRun, x: string, id: string)
    requires Describes(a, r, id) && Has(r.queue, x)
    ensures Lane(r.queue, x) != []
    ensures Describes(if x == id then Step(a, Take) else a,
                      r.(queue := Without(r.queue, x), delivered := r.delivered + [Lane(r.queue, x)[0]]), id)
  {
    hide Lane, Without;
    HasLane(r.queue, x);
    LaneSingle(r.queue, x);
    LaneWithout(r.queue, x, id);
    LaneSnoc(r.delivered, Lane(r.queue, x)[0], id);
    if x == id { Taken(a); }
  }

  lemma Taken(a: Account)
    requires a.taken < |a.entries|
    ensures Packets(a.entries[..a.taken + 1]) == Packets(a.entries[..a.taken]) + [Packets(a.entries[a.taken..])[0]]
    ensures Packets(a.entries[a.taken + 1..]) == Packets(a.entries[a.taken..])[1..]
  {
  }

  /** The account that a run of the queue amounts to. */
  function AccountOf(es: seq<QueueEvent>, id: string): (a: Account)
    ensures a.taken <= |a.entries|
  {
    if es == [] then Account([], [], 0)
    else
      var c := Concerning(RunQueue(es[..|es| - 1]), es[|es| - 1], id);
      var a := AccountOf(es[..|es| - 1], id);
      if c.None? then a else Step(a, c.value)
  }

  /** In every run of a port's queue, with any mix of stream IDs, positive capacities and overflows, and
      for every stream ID: the packets delivered carry payloads in the order they were pushed,
      no end-of-stream is ever skipped, and a delivered packet is marked exactly when some
      packet between it and the previously delivered one was dropped, but for end-of-streams
      that took over the payload of a marked packet. */
  lemma {:induction false} NoSilentLoss(es: seq<QueueEvent>, id: string)
    requires forall i :: 0 <= i < |es| ==> Regular(es[i])
    ensures var a, r := AccountOf(es, id), RunQueue(es);
            Describes(a, r, id) && Sound(a)
  {
    if es != [] {
      var before := es[..|es| - 1];
      NoSilentLoss(before, id);
      Follow(AccountOf(before, id), RunQueue(before), es[|es| - 1], id);
      var c := Concerning(RunQueue(before), es[|es| - 1], id);
      if c.Some? { StepSound(AccountOf(before, id), c.value); }
    }
  }

  /** For a stream ID that was never ended: the deliveries are an in-order subsequence of the
      packets pushed, under the numbers `tags`, and each carries the mark exactly when a number
      was skipped before it. */
  predicate MarkedSubsequence(pushed: seq<Packet>, delivered: seq<Packet>, tags: seq<nat>) {
    |tags| == |delivered| &&
    forall k :: 0 <= k < |tags| ==> MarkedDelivery(pushed, delivered[k], Previous(tags, k), tags[k])
  }

  predicate MarkedDelivery(pushed: seq<Packet>, d: Packet, previous: int, tag: nat) {
    && previous < tag < |pushed|
    && d.buffer == pushed[tag].buffer && d.T == pushed[tag].T
    && (d.inputQueueFlushed <==> previous + 1 < tag)
  }

  /** The number delivered before the k-th one. */
  function Previous(tags: seq<nat>, k: nat): int
    requires k < |tags|
  {
    if k == 0 then -1 else tags[k - 1]
  }

  function Tags(es: seq<Entry>): seq<nat> {
    seq(|es|, k requires 0 <= k < |es| => es[k].tag)
  }

  lemma OpenStreamMarks(es: seq<QueueEvent>, id: string)
    requires forall i :: 0 <= i < |es| ==> Regular(es[i])
    requires forall i :: 0 <= i < |Lane(RunQueue(es).pushed, id)| ==> !Lane(RunQueue(es).pushed, id)[i].EOS
    ensures exists tags :: MarkedSubsequence(Lane(RunQueue(es).pushed, id), Lane(RunQueue(es).delivered, id), tags)
  {
    hide Sound;
    NoSilentLoss(es, id);
    var a := AccountOf(es, id);
    OpenAccountMarks(a);
  }

  lemma OpenAccountMarks(a: Account)
    requires Sound(a) && forall i :: 0 <= i < |a.pushed| ==> !a.pushed[i].EOS
    ensures MarkedSubsequence(a.pushed, Packets(a.entries[..a.taken]), Tags(a.entries[..a.taken]))
  {
    Divide(a);
    var gone := a.entries[..a.taken];
    var tags, packets := Tags(gone), Packets(gone);
    forall k | 0 <= k < |gone| ensures MarkedDelivery(a.pushed, packets[k], Previous(tags, k), tags[k]) {
      PreviousTag(gone, k);
      HonestAt(a.pushed, -1, gone, k);
      MarkDelivery(a.pushed, Previous(tags, k), gone[k]);
    }
  }

  lemma PreviousTag(es: seq<Entry>, k: nat)
    requires k < |es|
    ensures LastTag(-1, es[..k]) == Previous(Tags(es), k)
  {
  }

  lemma MarkDelivery(pushed: seq<Packet>, prev: int, e: Entry)
    requires Honest(pushed, prev, e) && !pushed[e.tag].EOS
    ensures MarkedDelivery(pushed, e.packet, prev, e.tag)
  {
  }

  // ---------- the exceptions, as runs of a port ----------

  /** A packet is lost on overflow and its successor marked; then an empty end-of-stream takes the
      successor's payload over without the mark, and is delivered. */
  function MutingRun(data: Packet, end: Packet, other: Packet): seq<QueueEvent> {
    [Push(data, 2, false), Push(data, 2, false), Push(data, 2, false), Push(end, 2, false), Push(other, 2, false),
     Fetch(end.streamID)]
  }

  /** The exception is real: in this run of a port of capacity 2 three payloads are pushed, one
      comes out, and nothing says that the others are lost. */
  lemma MarkCanBeMuted(data: Packet, end: Packet, other: Packet)
    requires GoodPush(data) && !data.EOS && GoodPush(end) && end.EOS && end.buffer == []
             && end.streamID == data.streamID
    requires GoodPush(other) && other.streamID != data.streamID
    ensures forall i :: 0 <= i < 6 ==> Regular(MutingRun(data, end, other)[i])
    ensures var r := RunQueue(MutingRun(data, end, other));
            && Lane(r.pushed, data.streamID) == [data, data, data, end]
            && r.delivered == [end.(buffer := data.buffer, T := data.T,
                                    sriChanged := end.sriChanged || data.sriChanged)]
            && !r.delivered[0].inputQueueFlushed
  {
    hide Collapse, PushFull, Evict, Lane, Without, Has;
    var id, marked := data.streamID, Replacing(data, Absorb(data, data));
    var e0, e3, e4, e5 := Push(data, 2, false), Push(end, 2, false), Push(other, 2, false), Fetch(id);
    var r1, r2 := QueueRun([data], [data], []), QueueRun([data, data], [data, data], []);
    var r3, r4 := QueueRun([marked], [data, data, data], []), QueueRun([marked, end], [data, data, data, end], []);
    var last := Absorb(end, marked);
    var r5 := QueueRun([last, other], [data, data, data, end, other], []);
    ReplaceTwo(data, data);
    CollapseTwo(marked, end);
    PushElsewhere([marked, end], other, last);
    assert QueueStep(QueueRun([], [], []), e0) == r1 && QueueStep(r1, e0) == r2;
    assert QueueStep(r2, e0) == r3 && QueueStep(r3, e3) == r4 && QueueStep(r4, e4) == r5;
    FetchFirst(last, other, id);
    RunSix(e0, e3, e4, e5);
    LaneFive(data, end, other);
  }

  lemma RunSix(e0: QueueEvent, e3: QueueEvent, e4: QueueEvent, e5: QueueEvent)
    ensures RunQueue([e0, e0, e0, e3, e4, e5])
            == QueueStep(QueueStep(QueueStep(QueueStep(QueueStep(QueueStep(QueueRun([], [], []), e0), e0), e0), e3),
                                   e4), e5)
  {
    hide QueueStep;
    RunOne([], e0);
    RunOne([e0], e0);
    RunOne([e0, e0], e0);
    RunOne([e0, e0, e0], e3);
    RunOne([e0, e0, e0, e3], e4);
    RunOne([e0, e0, e0, e3, e4], e5);
    assert [] + [e0] == [e0] && [e0] + [e0] == [e0, e0] && [e0, e0] + [e0] == [e0, e0, e0];
    assert [e0, e0, e0] + [e3] == [e0, e0, e0, e3] && [e0, e0, e0, e3] + [e4] == [e0, e0, e0, e3, e4];
    assert [e0, e0, e0, e3, e4] + [e5] == [e0, e0, e0, e3, e4, e5];
  }

  lemma RunOne(es: seq<QueueEvent>, e: QueueEvent)
    ensures RunQueue(es + [e]) == QueueStep(RunQueue(es), e)
  {
    assert (es + [e])[..|es|] == es;
  }

  lemma CollapseTwo(p: Packet, q: Packet)
    requires p.streamID == q.streamID && !p.EOS
    ensures Collapse([p, q]) == [Absorb(q, p)]
  {
    assert [p, q][1..] == [q] && [q][1..] == [];
    assert Collapse([q]) == [q];
  }

  lemma ReplaceTwo(data: Packet, p: Packet)
    requires !data.EOS && p.streamID == data.streamID
    ensures PushFull([data, data], p) == [Replacing(p, Absorb(data, data))]
  {
    hide Absorb;
    CollapseTwo(data, data);
    var kept := Absorb(data, data);
    AbsorbKeeps(data, data);
    assert [kept][1..] == [] && [kept][..0] == [];
    assert Lane([kept], data.streamID) == [kept] && Evict([kept], data.streamID) == [];
  }

  lemma AbsorbKeeps(last: Packet, p: Packet)
    ensures Absorb(last, p).streamID == last.streamID && Absorb(last, p).EOS == last.EOS
  {
  }

  lemma PushElsewhere(q: seq<Packet>, p: Packet, kept: Packet)
    requires Collapse(q) == [kept] && kept.streamID != p.streamID
    ensures PushFull(q, p) == [kept, p]
  {
    assert [kept][1..] == [];
    assert Lane([kept], p.streamID) == [];
  }

  lemma FetchFirst(p: Packet, q: Packet, id: string)
    requires p.streamID == id
    ensures Fetched([p, q], id) == Some(id) && Without([p, q], id) == [q] && Lane([p, q], id) != []
            && Lane([p, q], id)[0] == p
  {
    assert [p, q][1..] == [q];
  }

  lemma LaneFive(data: Packet, end: Packet, other: Packet)
    requires end.streamID == data.streamID && other.streamID != data.streamID
    ensures Lane([data, data, data, end, other], data.streamID) == [data, data, data, end]
  {
    hide Lane;
    var id := data.streamID;
    LaneCons(data, [data, data, end, other], id);
    LaneCons(data, [data, end, other], id);
    LaneCons(data, [end, other], id);
    LaneCons(end, [other], id);
    LaneCons(other, [], id);
    NoLane(id);
    assert [other] + [] == [other] && [end] + [other] == [end, other] && [data] + [end, other] == [data, end, other];
    assert [data] + [data, end, other] == [data, data, end, other];
    assert [data] + [data, data, end, other] == [data, data, data, end, other];
    assert [end] + [] == [end] && [data] + [end] == [data, end] && [data] + [data, end] == [data, data, end];
    assert [data] + [data, data, end] == [data, data, data, end];
  }

  /** Capacity is needed: a port of none drops a packet, and the next one comes out unmarked. */
  lemma ZeroCapacityIsSilent(lost: Packet, next: Packet, blocking: bool)
    requires GoodPush(lost) && GoodPush(next) && lost.streamID == next.streamID
    ensures var r := RunQueue([Push(lost, 0, blocking), Push(next, 1, false), Fetch(next.streamID)]);
            && Lane(r.pushed, next.streamID) == [lost, next] && r.delivered == [next]
               && !r.delivered[0].inputQueueFlushed
  {
    hide Lane, Without, Has;
    var id, e0, e1 := next.streamID, Push(lost, 0, blocking), Push(next, 1, false);
    RunOne([], e0);
    RunOne([e0], e1);
    RunOne([e0, e1], Fetch(id));
    assert [] + [e0] == [e0] && [e0] + [e1] == [e0, e1] && [e0, e1] + [Fetch(id)] == [e0, e1, Fetch(id)];
    LaneCons(lost, [next], id);
    LaneCons(next, [], id);
    NoLane(id);
    HasLane([next], id);
    assert [next] + [] == [next] && [lost] + [next] == [lost, next];
    var r1, r2 := QueueRun([], [lost], []), QueueRun([next], [lost, next], []);
    assert QueueStep(QueueRun([], [], []), e0) == r1;
    assert QueueStep(r1, e1) == r2;
    assert Fetched([next], id) == Some(id);
    assert QueueStep(r2, Fetch(id)).delivered == [next];
  }
}
