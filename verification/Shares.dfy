/** Members of a concilium take shares of a round line; a slot picks the member into whose share it falls. */
module Shares {
  import opened Collections
  import opened Arithmetic

  function Sum(shares: seq<real>): real {
    if shares == [] then 0.0 else Sum(shares[..|shares| - 1]) + shares[|shares| - 1]
  }

  /** `m` falls into the share of member `i`. */
  predicate InShare(shares: seq<real>, i: nat, m: real)
    requires i < |shares|
  {
    Sum(shares[..i]) <= m < Sum(shares[..i + 1])
  }

  predicate Positive(shares: seq<real>) {
    forall i :: 0 <= i < |shares| ==> shares[i] > 0.0
  }

  /** The remainder of `x` by `m`. */
  function Mod(x: real, m: real): (r: real)
    requires m > 0.0 && x >= 0.0
    ensures 0.0 <= r < m
  {
    var a := x / m;
    Divided(x, m, a);
    Remainder(x, m, a, a.Floor as real);
    x - m * a.Floor as real
  }

  lemma Divided(x: real, m: real, a: real)
    requires m > 0.0 && a == x / m
    ensures x == m * a
  {
  }

  lemma Remainder(x: real, m: real, a: real, q: real)
    requires m > 0.0 && x == m * a && q <= a < q + 1.0
    ensures 0.0 <= x - m * q < m
  {
    var f := a - q;
    var rest := m * f;
    ScaleUnit(m, f);
    assert rest < m;
    assert x - m * q == rest;
    assert x - m * q < m;
  }

  lemma ScaleUnit(m: real, a: real)
    requires m > 0.0 && 0.0 <= a < 1.0
    ensures 0.0 <= m * a < m
  {
    assert m * (1.0 - a) > 0.0;
  }

  lemma SumStep(shares: seq<real>, i: nat)
    requires i < |shares|
    ensures Sum(shares[..i + 1]) == Sum(shares[..i]) + shares[i]
  {
    assert shares[..i + 1][..i] == shares[..i];
  }

  lemma {:induction false} SumGrows(shares: seq<real>, i: nat, j: nat)
    requires Positive(shares) && i <= j <= |shares|
    ensures Sum(shares[..i]) <= Sum(shares[..j])
    decreases j
  {
    if i < j {
      SumStep(shares, j - 1);
      SumGrows(shares, i, j - 1);
    }
  }

  /** No point of the line belongs to two members. */
  lemma ShareUnique(shares: seq<real>, i: nat, j: nat, m: real)
    requires Positive(shares) && i < |shares| && j < |shares|
    requires InShare(shares, i, m) && InShare(shares, j, m)
    ensures i == j
  {
    if i < j { SumGrows(shares, i + 1, j); }
    if j < i { SumGrows(shares, j + 1, i); }
  }

  /** Every point of the line belongs to some member. */
  method FindIdxByRound(shares: seq<real>, total: real, round: real) returns (idx: nat)
    requires Positive(shares) && shares != [] && total == Sum(shares) > 0.0 && round >= 0.0
    ensures idx < |shares| && InShare(shares, idx, Mod(round, total))
  {
    var start := 0.0;
    var r := Mod(round, total);
    assert shares[..|shares|] == shares;
    for i := 0 to |shares|
      invariant start == Sum(shares[..i]) && start <= r
    {
      SumStep(shares, i);
      if r >= start && r < shares[i] + start { return i; }
      start := start + shares[i];
    }
    assert false;
  }

  /** ---------- counting ---------- */

  predicate Between(lo: nat, r: nat, hi: nat) {
    lo <= r < hi
  }

  /** How many of `points` lie in `[lo, hi)`. */
  function Count(points: seq<nat>, lo: nat, hi: nat): nat {
    if points == [] then 0
    else Count(points[..|points| - 1], lo, hi) + if Between(lo, points[|points| - 1], hi) then 1 else 0
  }

  lemma {:induction false} CountConcat(a: seq<nat>, b: seq<nat>, lo: nat, hi: nat)
    ensures Count(a + b, lo, hi) == Count(a, lo, hi) + Count(b, lo, hi)
  {
    if b == [] {
      assert a + b == a;
    } else {
      assert (a + b)[..|a + b| - 1] == a + b[..|b| - 1];
      CountConcat(a, b[..|b| - 1], lo, hi);
    }
  }

  function Range(lo: nat, hi: nat): (range: set<nat>)
    requires lo <= hi
    ensures |range| == hi - lo && forall r :: r in range <==> lo <= r < hi
  {
    if lo == hi then {} else Range(lo, hi - 1) + {hi - 1}
  }

  function Inside(points: seq<nat>, lo: nat, hi: nat): set<nat> {
    set r | r in points && Between(lo, r, hi)
  }

  lemma InsideStep(init: seq<nat>, last: nat, lo: nat, hi: nat)
    requires last !in init
    ensures |Inside(init + [last], lo, hi)| == |Inside(init, lo, hi)| + if Between(lo, last, hi) then 1 else 0
  {
    assert Inside(init + [last], lo, hi) == Inside(init, lo, hi) + if Between(lo, last, hi) then {last} else {};
    assert last !in Inside(init, lo, hi);
  }

  lemma {:induction false} CountIsSize(points: seq<nat>, lo: nat, hi: nat)
    requires Distinct(points)
    ensures Count(points, lo, hi) == |Inside(points, lo, hi)|
  {
    if points == [] {
      assert Inside(points, lo, hi) == {};
    } else {
      var init, last := points[..|points| - 1], points[|points| - 1];
      CountIsSize(init, lo, hi);
      assert points == init + [last] && last !in init;
      InsideStep(init, last, lo, hi);
    }
  }

  /** `T` different points of a line of length `T` fill every stretch of it. */
  lemma {:induction false} FullLine(points: seq<nat>, lo: nat, hi: nat)
    requires Distinct(points) && (forall k :: 0 <= k < |points| ==> points[k] < |points|) && lo <= hi <= |points|
    ensures Count(points, lo, hi) == hi - lo
  {
    var T := |points|;
    CountIsSize(points, 0, T);
    CountAll(points, T);
    SubsetSize(Inside(points, 0, T), Range(0, T));
    assert Inside(points, lo, hi) == Range(lo, hi) by {
      forall r | r in Range(lo, hi)
        ensures r in Inside(points, lo, hi)
      {
        assert r in Range(0, T);
        assert r in Inside(points, 0, T);
      }
    }
    CountIsSize(points, lo, hi);
  }

  lemma {:induction false} CountAll(points: seq<nat>, T: nat)
    requires forall k :: 0 <= k < |points| ==> points[k] < T
    ensures Count(points, 0, T) == |points|
  {
    if points != [] {
      CountAll(points[..|points| - 1], T);
    }
  }

  /** ---------- fairness ---------- */

  const SLOT_OFFSET: nat := 3559

  function Slot(x: nat): nat {
    SLOT_FACTOR * x + SLOT_OFFSET
  }

  /** Slots start at 3559 and go on by 1289. */
  lemma {:induction false} SlotsAdvance(x: nat)
    ensures Slot(0) == 3559 && Slot(x + 1) == Slot(x) + 1289
  {
  }

  function Total(ns: seq<nat>): nat {
    if ns == [] then 0 else Total(ns[..|ns| - 1]) + ns[|ns| - 1]
  }

  /** The points of a line of length `T` that the `n` slots from `s` on fall on. */
  function Points(T: nat, s: nat, n: nat): (points: seq<nat>)
    requires T > 0
    ensures |points| == n && forall k :: 0 <= k < n ==> points[k] == Slot(s + k) % T
  {
    seq(n, k requires 0 <= k < n => Slot(s + k) % T)
  }

  /** How often the `n` slots from `s` on pick member `i`. */
  function Picks(ns: seq<nat>, i: nat, s: nat, n: nat): nat
    requires i < |ns| && Total(ns) > 0
  {
    Count(Points(Total(ns), s, n), Total(ns[..i]), Total(ns[..i + 1]))
  }

  lemma TotalStep(ns: seq<nat>, i: nat)
    requires i < |ns|
    ensures Total(ns[..i + 1]) == Total(ns[..i]) + ns[i]
  {
    assert ns[..i + 1][..i] == ns[..i];
  }

  lemma {:induction false} TotalGrows(ns: seq<nat>, i: nat, j: nat)
    requires i <= j <= |ns|
    ensures Total(ns[..i]) <= Total(ns[..j])
    decreases j
  {
    if i < j {
      TotalStep(ns, j - 1);
      TotalGrows(ns, i, j - 1);
    }
  }

  /** Different slots among `T` consecutive ones fall on different points, unless 1289 divides `T`. */
  lemma SlotsDiffer(T: nat, x: nat, y: nat)
    requires T > 0 && !Divides(SLOT_FACTOR, T) && x < y < x + T
    ensures Slot(x) % T != Slot(y) % T
  {
    if Slot(x) % T == Slot(y) % T {
      var a, b := Slot(x) / T, Slot(y) / T;
      assert SLOT_FACTOR * (y - x) == T * (b - a) by {
        assert Slot(x) == T * a + Slot(x) % T && Slot(y) == T * b + Slot(y) % T;
        assert T * (b - a) == T * b - T * a;
      }
      MultipleOf(T, b - a);
      NoSmallMultiple(T, y - x);
    }
  }

  lemma PointsDiffer(T: nat, s: nat)
    requires T > 0 && !Divides(SLOT_FACTOR, T)
    ensures Distinct(Points(T, s, T))
    ensures forall k :: 0 <= k < T ==> Points(T, s, T)[k] < T
  {
    forall j, k | 0 <= j < k < T
      ensures Points(T, s, T)[j] != Points(T, s, T)[k]
    {
      SlotsDiffer(T, s + j, s + k);
    }
  }

  /** Over `T` consecutive slots every member is picked as often as its share says. */
  lemma {:induction false} FairPicks(ns: seq<nat>, i: nat, s: nat)
    requires i < |ns| && Total(ns) > 0 && !Divides(SLOT_FACTOR, Total(ns))
    ensures Picks(ns, i, s, Total(ns)) == ns[i]
  {
    TotalStep(ns, i);
    TotalGrows(ns, i + 1, |ns|);
    assert ns[..|ns|] == ns;
    PointsDiffer(Total(ns), s);
    FullLine(Points(Total(ns), s, Total(ns)), Total(ns[..i]), Total(ns[..i + 1]));
  }

  /** If 1289 divides `T`, the points repeat after `T / 1289` slots. */
  lemma SlotsRepeat(T: nat, x: nat, P: nat)
    requires T > 0 && T == SLOT_FACTOR * P
    ensures Slot(x + P) % T == Slot(x) % T
  {
    assert Slot(x + P) == Slot(x) + T * 1;
    ModShift(T, Slot(x), 1);
  }

  lemma PointsRepeat(T: nat, s: nat, P: nat, n: nat)
    requires T > 0 && T == SLOT_FACTOR * P
    ensures Points(T, s + P, n) == Points(T, s, n)
  {
    forall k | 0 <= k < n
      ensures Points(T, s + P, n)[k] == Points(T, s, n)[k]
    {
      SlotsRepeat(T, s + k, P);
    }
  }

  lemma {:induction false} OnePeriodMore(ns: seq<nat>, i: nat, s: nat, P: nat, n: nat)
    requires i < |ns| && Total(ns) > 0 && Total(ns) == SLOT_FACTOR * P
    ensures Picks(ns, i, s, P + n) == Picks(ns, i, s, P) + Picks(ns, i, s, n)
  {
    var T := Total(ns);
    PointsRepeat(T, s, P, n);
    assert Points(T, s, P + n) == Points(T, s, P) + Points(T, s + P, n);
    CountConcat(Points(T, s, P), Points(T, s + P, n), Total(ns[..i]), Total(ns[..i + 1]));
  }

  function Times(n: nat, k: nat): nat {
    if k == 0 then 0 else n + Times(n, k - 1)
  }

  lemma {:induction false} TimesIsProduct(n: nat, k: nat)
    ensures Times(n, k) == n * k
  {
    if k > 0 {
      TimesIsProduct(n, k - 1);
      assert n * k == n + n * (k - 1);
    }
  }

  lemma {:induction false} RepeatedPicks(ns: seq<nat>, i: nat, s: nat, P: nat, k: nat)
    requires i < |ns| && Total(ns) > 0 && Total(ns) == SLOT_FACTOR * P
    ensures Picks(ns, i, s, Times(P, k)) == Times(Picks(ns, i, s, P), k)
    decreases k
  {
    if k > 0 {
      RepeatedPicks(ns, i, s, P, k - 1);
      OnePeriodMore(ns, i, s, P, Times(P, k - 1));
    } else {
      assert Points(Total(ns), s, 0) == [];
    }
  }

  ghost predicate Fair(ns: seq<nat>)
    requires Total(ns) > 0
  {
    forall i: nat, s: nat :: i < |ns| ==> Picks(ns, i, s, Total(ns)) == ns[i]
  }

  /** Integer shares without a common divisor are fairly served iff 1289 does not divide their total. */
  lemma {:induction false} FairIff(ns: seq<nat>)
    requires Total(ns) > 0 && IsGCD(1, ns)
    ensures Fair(ns) <==> !Divides(SLOT_FACTOR, Total(ns))
  {
    if !Divides(SLOT_FACTOR, Total(ns)) {
      forall i: nat, s: nat | i < |ns| { FairPicks(ns, i, s); }
    } else if Fair(ns) {
      TooSmall(SLOT_FACTOR, 1);
      assert !CommonDivisor(SLOT_FACTOR, ns);
      var P := Total(ns) / SLOT_FACTOR;
      forall i | 0 <= i < |ns|
        ensures Divides(SLOT_FACTOR, ns[i])
      {
        RepeatedPicks(ns, i, 0, P, SLOT_FACTOR);
        TimesIsProduct(P, SLOT_FACTOR);
        TimesIsProduct(Picks(ns, i, 0, P), SLOT_FACTOR);
        assert Picks(ns, i, 0, Total(ns)) == ns[i];
        MultipleOf(SLOT_FACTOR, Picks(ns, i, 0, P));
      }
    }
  }
}
