/** BULKIO::PrecisionUTCTime over exact reals: a count of whole seconds and a fraction that the
    arithmetic keeps apart, and the normal form that makes the pair unique. */
module PrecisionTime {

  datatype Status = TcsInvalid | TcsValid

  /** tcmode and toff are carried along but never computed with. */
  datatype Time = Time(tcmode: int, tcstatus: Status, toff: real, twsec: real, tfsec: real)

  /** The instant a timestamp denotes, in seconds. */
  function Seconds(t: Time): real {
    t.twsec + t.tfsec
  }

  predicate Integral(x: real) {
    x == x.Floor as real
  }

  predicate Normal(t: Time) {
    Integral(t.twsec) && 0.0 <= t.tfsec < 1.0
  }

  /** The normal timestamp that agrees with t in everything but the instant, which is s. */
  function Canonical(t: Time, s: real): (r: Time)
    ensures Normal(r) && Seconds(r) == s
  {
    t.(twsec := s.Floor as real, tfsec := s - s.Floor as real)
  }

  /** What operator+ returns: see Add. */
  function Plus(t: Time, s: real): Time {
    Canonical(t, Seconds(t) + s)
  }

  function Minus(t: Time, s: real): Time {
    Plus(t, -s)
  }

  /** operator- on two timestamps. */
  function Difference(a: Time, b: Time): real {
    (a.twsec - b.twsec) + (a.tfsec - b.tfsec)
  }

  /** The whole part of x, rounded towards zero as by std::modf and by a cast to long. */
  function Truncate(x: real): (w: int) {
    if x >= 0.0 then x.Floor else -((-x).Floor)
  }

  method Modf(x: real) returns (fraction: real, whole: real)
    ensures whole == Truncate(x) as real && fraction == x - whole
  {
    whole := Truncate(x) as real;
    fraction := x - whole;
  }

  lemma TruncateBounds(x: real)
    ensures x >= 0.0 ==> 0.0 <= x - Truncate(x) as real < 1.0
    ensures x <= 0.0 ==> -1.0 < x - Truncate(x) as real <= 0.0
  {
  }

  /** Normal forms are unique: the instant and the untouched fields determine the timestamp. */
  lemma NormalFormUnique(a: Time, b: Time)
    requires Normal(a) && Normal(b) && Seconds(a) == Seconds(b)
    requires a.tcmode == b.tcmode && a.tcstatus == b.tcstatus && a.toff == b.toff
    ensures a == b
  {
    var d := a.twsec.Floor - b.twsec.Floor;
    assert d as real == b.tfsec - a.tfsec;
    assert -1 < d < 1;
  }

  method Normalize(time: Time) returns (r: Time)
    ensures r == Canonical(time, Seconds(time))
  {
    r := time;
    var fadj, whole := Modf(r.twsec);
    r := r.(twsec := whole);
    var fraction, wadj := Modf(r.tfsec + fadj);
    TruncateBounds(r.tfsec + fadj);
    r := r.(tfsec := fraction);
    if r.tfsec < 0.0 {
      r := r.(tfsec := r.tfsec + 1.0);
      wadj := wadj - 1.0;
    }
    r := r.(twsec := r.twsec + wadj);
    assert r.twsec == (Truncate(time.twsec) + wadj.Floor) as real;
    NormalFormUnique(r, Canonical(time, Seconds(time)));
  }

  /** operator+=: the fraction of the addend goes to tfsec and its whole part to twsec. */
  method Add(lhs: Time, seconds: real) returns (r: Time)
    ensures r == Plus(lhs, seconds)
  {
    var fraction, whole := Modf(seconds);
    r := lhs.(tfsec := lhs.tfsec + fraction);
    r := r.(twsec := r.twsec + whole);
    r := Normalize(r);
  }

  /** operator-=. */
  method Subtract(lhs: Time, seconds: real) returns (r: Time)
    ensures r == Minus(lhs, seconds)
  {
    var fraction, whole := Modf(seconds);
    r := lhs.(tfsec := lhs.tfsec - fraction);
    r := r.(twsec := r.twsec - whole);
    r := Normalize(r);
  }

  /** Adding then subtracting gives back the timestamp exactly when it was normalised, and
      the difference of the sum and the timestamp is always what was added. */
  lemma AddThenSubtract(t: Time, s: real)
    ensures Difference(Plus(t, s), t) == s
    ensures Minus(Plus(t, s), s) == t <==> Normal(t)
  {
    if Normal(t) {
      NormalFormUnique(Minus(Plus(t, s), s), t);
    }
  }

  lemma PlusPlus(t: Time, a: real, b: real)
    ensures Plus(Plus(t, a), b) == Plus(t, a + b)
  {
    assert Seconds(t) + a + b == Seconds(t) + (a + b);
  }

  /** operator< and operator<=: lexicographic. */
  predicate Before(a: Time, b: Time) {
    if a.twsec == b.twsec then a.tfsec < b.tfsec else a.twsec < b.twsec
  }

  predicate NotAfter(a: Time, b: Time) {
    if a.twsec == b.twsec then a.tfsec <= b.tfsec else a.twsec <= b.twsec
  }

  /** operator> and operator>=. */
  predicate After(a: Time, b: Time) {
    if a.twsec == b.twsec then a.tfsec > b.tfsec else a.twsec > b.twsec
  }

  predicate NotBefore(a: Time, b: Time) {
    if a.twsec == b.twsec then a.tfsec >= b.tfsec else a.twsec >= b.twsec
  }

  /** The four orderings say of a and b what their instants do. */
  predicate Chronological(a: Time, b: Time) {
    && (Before(a, b) <==> Seconds(a) < Seconds(b)) && (NotAfter(a, b) <==> Seconds(a) <= Seconds(b))
    && (After(a, b) <==> Seconds(a) > Seconds(b)) && (NotBefore(a, b) <==> Seconds(a) >= Seconds(b))
  }

  /** On normalised timestamps the lexicographic orderings are the orderings of instants. */
  lemma OrderingIsChronological(a: Time, b: Time)
    requires Normal(a) && Normal(b)
    ensures Chronological(a, b)
  {
    if a.twsec < b.twsec {
      assert a.twsec.Floor + 1 <= b.twsec.Floor;
    } else if b.twsec < a.twsec {
      assert b.twsec.Floor + 1 <= a.twsec.Floor;
    }
  }

  /** And only there: a timestamp is ordered rightly with all normalised ones exactly when it is
      normalised itself. */
  lemma OrderingNeedsNormalForm(a: Time)
    ensures Normal(a) <==> forall b :: Normal(b) ==> Chronological(a, b)
  {
    if Normal(a) {
      forall b | Normal(b) ensures Chronological(a, b) {
        OrderingIsChronological(a, b);
      }
    } else {
      var b := Canonical(a, Seconds(a));
      assert Normal(b) && Seconds(b) == Seconds(a);
      assert !Chronological(a, b);
    }
  }

  method AddSampleOffset(t: Time, numSamples: nat, xdelta: real) returns (r: Time)
    ensures Seconds(r) == Seconds(t) + numSamples as real * xdelta
    ensures Normal(t) ==>
              (r == Plus(t, numSamples as real * xdelta) <==>
               0.0 <= t.tfsec + (numSamples as real * xdelta - Truncate(numSamples as real * xdelta) as real))
    ensures Normal(t) && 0.0 <= xdelta ==> r == Plus(t, numSamples as real * xdelta)
  {
    var offset := numSamples as real * xdelta;
    assert 0.0 <= xdelta ==> 0.0 <= offset;
    TruncateBounds(offset);
    hide Truncate, Plus;
    r := t.(twsec := t.twsec + Truncate(offset) as real);
    r := r.(tfsec := r.tfsec + (offset - Truncate(offset) as real));
    if r.tfsec >= 1.0 {
      r := r.(twsec := r.twsec + 1.0);
      r := r.(tfsec := r.tfsec - 1.0);
    }
    if Normal(t) { Carried(t, Truncate(offset), offset - Truncate(offset) as real, r); }
  }

  lemma Carried(t: Time, w: int, f: real, r: Time)
    requires Normal(t) && -1.0 < f < 1.0
    requires var carry := if t.tfsec + f >= 1.0 then 1 else 0;
             r == t.(twsec := t.twsec + (w + carry) as real, tfsec := t.tfsec + f - carry as real)
    ensures r == Plus(t, w as real + f) <==> 0.0 <= t.tfsec + f
  {
    if 0.0 <= t.tfsec + f {
      var whole := t.twsec.Floor + w + if t.tfsec + f >= 1.0 then 1 else 0;
      assert r.twsec == whole as real && (whole as real).Floor == whole;
      NormalFormUnique(r, Plus(t, w as real + f));
    } else {
      assert Normal(Plus(t, w as real + f));
    }
  }

  /** bulkio::time::utils::notSet. */
  function NotSet(): Time { Time(0, TcsInvalid, 0.0, 0.0, 0.0) }

  /** k steps after t, as `t += k * step`. */
  function Later(t: Time, k: nat, step: real): Time { Plus(t, k as real * step) }

  /** The time of the sample k steps after one taken at t: t itself when k is 0. */
  function TimeAt(t: Time, k: nat, step: real): Time { if k == 0 then t else Later(t, k, step) }

  lemma TimeAtAdd(t: Time, j: nat, k: nat, step: real)
    requires j > 0
    ensures Later(TimeAt(t, k, step), j, step) == TimeAt(t, k + j, step)
  {
    var a, b := k as real * step, j as real * step;
    assert (k + j) as real * step == a + b by {
      assert (k + j) as real == k as real + j as real;
    }
    PlusPlus(t, a, b);
  }
}
