/** How often each member of a proof-of-stake concilium proposes. */
module Fairness {
  import opened Ledger
  import opened Arithmetic
  import opened Shares
  import opened Conciliums
  import opened ConciliumRounds

  function InUnits(amounts: seq<nat>, unit: nat): (ns: seq<nat>)
    requires unit > 0
    ensures |ns| == |amounts| && forall k :: 0 <= k < |ns| ==> ns[k] == amounts[k] / unit
  {
    seq(|amounts|, k requires 0 <= k < |amounts| => amounts[k] / unit)
  }

  lemma ProductDivides(d: nat, g: nat, n: nat, amount: nat)
    requires d > 0 && g > 0 && Divides(d, n) && amount == g * n
    ensures d * g > 0 && Divides(d * g, amount)
  {
    var m := n / d;
    assert n == d * m;
    assert g * (d * m) == (d * g) * m;
    Positive2(d, g);
    MultipleOf(d * g, m);
  }

  lemma Positive2(d: nat, g: nat)
    requires d > 0 && g > 0
    ensures d * g > 0
  {
  }

  lemma NotWithin(d: nat, g: nat)
    requires d > 0 && g > 0 && d * g > 0 && Divides(d * g, g)
    ensures d == 1
  {
    if d >= 2 { Grow2(g, d); }
  }

  /** Amounts measured in their greatest common divisor have no common divisor left. */
  lemma ReducedGCD(amounts: seq<nat>, g: nat)
    requires g > 0 && IsGCD(g, amounts)
    ensures IsGCD(1, InUnits(amounts, g))
  {
    var ns := InUnits(amounts, g);
    forall d: nat | d > 0
      ensures Divides(d, 1) <==> CommonDivisor(d, ns)
    {
      if d > 1 {
        TooSmall(d, 1);
        if CommonDivisor(d, ns) {
          Positive2(d, g);
          forall k | 0 <= k < |amounts|
            ensures Divides(d * g, amounts[k])
          {
            UnitsExact(amounts, g, k);
            assert Divides(d, ns[k]);
            ProductDivides(d, g, ns[k], amounts[k]);
          }
          assert CommonDivisor(d * g, amounts);
          NotWithin(d, g);
        }
      }
    }
  }

  lemma UnitsExact(amounts: seq<nat>, g: nat, k: nat)
    requires g > 0 && IsGCD(g, amounts) && k < |amounts|
    ensures amounts[k] == g * InUnits(amounts, g)[k]
  {
    assert Divides(g, g) by { Quotient(g, 1, 0); }
    assert CommonDivisor(g, amounts);
    assert Divides(g, amounts[k]);
  }

  /** On a line of whole length, slots fall on whole points. */
  lemma WholePoint(slot: nat, T: nat)
    requires T > 0
    ensures Mod(slot as real, T as real) == (slot % T) as real
  {
    var q, r := slot / T, slot % T;
    assert slot == T * q + r;
    var x, m, a := slot as real, T as real, slot as real / T as real;
    Divided(x, m, a);
    assert x == m * q as real + r as real;
    WholePart(x, m, a, q, r as real);
  }

  lemma ScaleWeak(a: real, b: real, t: real)
    requires t > 0.0 && a <= b
    ensures a * t <= b * t
  {
    assert (b - a) * t >= 0.0;
  }

  lemma WholePart(x: real, m: real, a: real, q: nat, r: real)
    requires m > 0.0 && x == m * a && x == m * q as real + r && 0.0 <= r < m
    ensures a.Floor == q
  {
    var f := a - q as real;
    assert m * f == r by { assert m * f == m * a - m * q as real; }
    if f < 0.0 { ScaleOrder(f, 0.0, m); }
    if f >= 1.0 { ScaleWeak(1.0, f, m); }
  }

  lemma {:induction false} WholePrefix(members: seq<Member>, unit: nat, k: nat)
    requires unit > 0 && IsGCD(unit, Amounts(members)) && k <= |members|
    ensures Sum(SharesOf(members, unit)[..k]) == Total(InUnits(Amounts(members), unit)[..k]) as real
    decreases k
  {
    if k > 0 {
      WholePrefix(members, unit, k - 1);
      SumStep(SharesOf(members, unit), k - 1);
      TotalStep(InUnits(Amounts(members), unit), k - 1);
      UnitsExact(Amounts(members), unit, k - 1);
      WholeShare(members[k - 1].amount, unit, InUnits(Amounts(members), unit)[k - 1]);
    }
  }

  lemma WholeShare(amount: nat, unit: nat, n: nat)
    requires unit > 0 && amount == unit * n
    ensures amount as real / unit as real == n as real
  {
    assert amount as real == unit as real * n as real;
    Cancel(amount as real, unit as real, n as real);
  }

  lemma Cancel(a: real, u: real, n: real)
    requires u > 0.0 && a == u * n
    ensures a / u == n
  {
  }

  /** The stake is measured in the greatest common divisor of its amounts, not in a larger unit. */
  predicate WholeUnits(members: seq<Member>, gcd: nat) {
    ShareUnit(Total(Amounts(members)), gcd) == gcd
  }

  lemma WholeTotal(members: seq<Member>, gcd: nat)
    requires WellFormed(Stake(members)) && IsGCD(gcd, Amounts(members)) && WholeUnits(members, gcd)
    ensures gcd > 0 && Total(InUnits(Amounts(members), gcd)) > 0
    ensures Total(Amounts(members)) as real / gcd as real == Total(InUnits(Amounts(members), gcd)) as real
  {
    TwoShares(members, gcd);
    var shares, ns := SharesOf(members, gcd), InUnits(Amounts(members), gcd);
    var all := Total(Amounts(members)) as real / gcd as real;
    WholePrefix(members, gcd, |members|);
    assert shares[..|members|] == shares && ns[..|members|] == ns;
    SumOfShares(members, gcd);
    ShareOut(members, gcd, gcd, all);
  }

  /** A member proposes in a round iff the round's slot falls on one of its points. */
  lemma ProposesIsPick(members: seq<Member>, gcd: nat, round: nat, k: nat)
    requires WellFormed(Stake(members)) && IsGCD(gcd, Amounts(members)) && WholeUnits(members, gcd) && k < |members|
    ensures gcd > 0 && Total(InUnits(Amounts(members), gcd)) > 0
    ensures var ns := InUnits(Amounts(members), gcd);
      Proposes(Stake(members), gcd, round, members[k].addr) <==>
      Between(Total(ns[..k]), Slot(round) % Total(ns), Total(ns[..k + 1]))
  {
    WholeTotal(members, gcd);
    var ns, shares := InUnits(Amounts(members), gcd), SharesOf(members, gcd);
    WholePoint(Slot(round), Total(ns));
    WholePrefix(members, gcd, k);
    WholePrefix(members, gcd, k + 1);
    assert InShare(shares, k, Mod(Slot(round) as real, Total(ns) as real)) <==>
           Between(Total(ns[..k]), Slot(round) % Total(ns), Total(ns[..k + 1]));
    forall j | 0 <= j < |members| && members[j].addr == members[k].addr
      ensures j == k
    {
      assert Addresses(Stake(members))[j] == Addresses(Stake(members))[k];
    }
  }

  /** In how many of the `n` rounds from `s` on it is the turn of `addr`. */
  ghost function Turns(members: seq<Member>, gcd: nat, addr: Address, s: nat, n: nat): nat
    requires WellFormed(Stake(members)) && IsGCD(gcd, Amounts(members))
  {
    if n == 0 then 0
    else Turns(members, gcd, addr, s, n - 1) + if Proposes(Stake(members), gcd, s + n - 1, addr) then 1 else 0
  }

  lemma {:induction false} TurnsArePicks(members: seq<Member>, gcd: nat, k: nat, s: nat, n: nat)
    requires WellFormed(Stake(members)) && IsGCD(gcd, Amounts(members)) && WholeUnits(members, gcd) && k < |members|
    ensures gcd > 0 && Total(InUnits(Amounts(members), gcd)) > 0
    ensures Turns(members, gcd, members[k].addr, s, n) == Picks(InUnits(Amounts(members), gcd), k, s, n)
    decreases n
  {
    WholeTotal(members, gcd);
    var ns := InUnits(Amounts(members), gcd);
    var T := Total(ns);
    if n > 0 {
      TurnsArePicks(members, gcd, k, s, n - 1);
      ProposesIsPick(members, gcd, s + n - 1, k);
      assert Points(T, s, n)[..n - 1] == Points(T, s, n - 1);
    }
  }

  ghost predicate ServedByStake(members: seq<Member>, gcd: nat)
    requires WellFormed(Stake(members)) && IsGCD(gcd, Amounts(members)) && gcd > 0
  {
    var ns := InUnits(Amounts(members), gcd);
    forall k: nat, s: nat :: k < |members| ==> Turns(members, gcd, members[k].addr, s, Total(ns)) == ns[k]
  }

  /**
    Any `T` consecutive rounds, `T` being the stake in units of its greatest common divisor,
    give every member as many turns as it has units, iff 1289 does not divide `T`.
   */
  lemma ServedByStakeIff(members: seq<Member>, gcd: nat)
    requires WellFormed(Stake(members)) && IsGCD(gcd, Amounts(members)) && WholeUnits(members, gcd)
    ensures gcd > 0
    ensures ServedByStake(members, gcd) <==> !Divides(SLOT_FACTOR, Total(InUnits(Amounts(members), gcd)))
  {
    WholeTotal(members, gcd);
    var ns := InUnits(Amounts(members), gcd);
    ReducedGCD(Amounts(members), gcd);
    FairIff(ns);
    forall k: nat, s: nat | k < |members|
      ensures Turns(members, gcd, members[k].addr, s, Total(ns)) == Picks(ns, k, s, Total(ns))
    {
      TurnsArePicks(members, gcd, k, s, Total(ns));
    }
  }

  /** Stakes of 1 and 1288 add up to 1289, and are not served. */
  lemma UnfairStakes()
    ensures var members := [Member(1, 1), Member(2, 1288)];
      WellFormed(Stake(members)) && IsGCD(1, Amounts(members)) && !ServedByStake(members, 1)
  {
    var members := [Member(1, 1), Member(2, 1288)];
    var amounts := Amounts(members);
    assert amounts == [1, 1288] && Addresses(Stake(members)) == [1, 2];
    forall d: nat | d > 0
      ensures Divides(d, 1) <==> CommonDivisor(d, amounts)
    {
      assert CommonDivisor(d, amounts) ==> Divides(d, amounts[0]);
      if Divides(d, 1) { assert d == 1; }
    }
    assert amounts[..1] == [1] && [1][..0] == [];
    assert Total(amounts) == 1289;
    var ns := InUnits(amounts, 1);
    assert ns == amounts;
    ServedByStakeIff(members, 1);
  }
}
