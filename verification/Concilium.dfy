/**
  Conciliums, the committees that witness blocks: who weighs how much, what a quorum is, and
  whose turn it is to propose. Members of a round-robin concilium take turns; members of a
  proof-of-stake one are picked in proportion to their stake.
 */
module Conciliums {
  import opened Collections
  import opened Ledger
  import opened Arithmetic
  import opened Shares

  datatype Member = Member(addr: Address, amount: nat)

  /** A round-robin quorum of 0 means that none was given. */
  datatype Definition =
    | RoundRobin(addresses: seq<Address>, givenQuorum: nat)
    | Stake(members: seq<Member>)

  function Addresses(def: Definition): (addresses: seq<Address>)
    ensures def.Stake? ==> |addresses| == |def.members|
  {
    match def
    case RoundRobin(addresses, _) => addresses
    case Stake(members) => seq(|members|, k requires 0 <= k < |members| => members[k].addr)
  }

  function Amounts(members: seq<Member>): (amounts: seq<nat>)
    ensures |amounts| == |members|
  {
    seq(|members|, k requires 0 <= k < |members| => members[k].amount)
  }

  predicate WellFormed(def: Definition) {
    && Addresses(def) != [] && Distinct(Addresses(def))
    && (def.Stake? ==> forall k :: 0 <= k < |def.members| ==> def.members[k].amount > 0)
  }

  /** ---------- stake ---------- */

  /** What shares are measured in; small divisors of large stakes are replaced. */
  function ShareUnit(total: nat, gcd: nat): nat {
    if total >= 1_000_000_000 && gcd < 1_000_000 then 1_000_000
    else if total >= 1_000_000 && gcd < 1_000 then 1_000
    else gcd
  }

  function SharesOf(members: seq<Member>, unit: nat): (shares: seq<real>)
    requires unit > 0
    ensures |shares| == |members|
  {
    seq(|members|, k requires 0 <= k < |members| => members[k].amount as real / unit as real)
  }

  /** Half and one share more. */
  function StakeQuorum(members: nat, total: real): real
    requires total > 0.0
  {
    if members == 1 then 1.0 else (0.5 * total + 1.0) / total
  }

  lemma {:induction false} TotalPositive(ns: seq<nat>)
    requires forall k :: 0 <= k < |ns| ==> ns[k] > 0
    ensures Total(ns) >= |ns|
  {
    if ns != [] { TotalPositive(ns[..|ns| - 1]); }
  }

  lemma {:induction false} TotalInUnits(ns: seq<nat>, unit: nat)
    requires unit > 0 && CommonDivisor(unit, ns) && forall k :: 0 <= k < |ns| ==> ns[k] > 0
    ensures Total(ns) >= unit * |ns|
  {
    if ns != [] {
      var init, last := ns[..|ns| - 1], ns[|ns| - 1];
      forall k | 0 <= k < |init|
        ensures Divides(unit, init[k])
      {
        assert init[k] == ns[k];
      }
      TotalInUnits(init, unit);
      assert Divides(unit, last);
      if last < unit { TooSmall(unit, last); }
      assert unit * |ns| == unit * |init| + unit;
    }
  }

  /** At least two shares, unless there is a single member. */
  lemma TwoShares(members: seq<Member>, gcd: nat)
    requires WellFormed(Stake(members)) && IsGCD(gcd, Amounts(members))
    ensures gcd > 0 && ShareUnit(Total(Amounts(members)), gcd) > 0
    ensures |members| >= 2 ==> Total(Amounts(members)) >= 2 * ShareUnit(Total(Amounts(members)), gcd)
  {
    var ns := Amounts(members);
    assert |Addresses(Stake(members))| == |members|;
    assert ns[0] != 0;
    GCDIsGreatest(gcd, ns);
    TotalInUnits(ns, gcd);
    if |members| >= 2 {
      assert gcd * |ns| >= gcd * 2 by { Grow2(gcd, |ns|); }
    }
  }

  lemma Grow2(a: nat, b: nat)
    requires b >= 2
    ensures a * b >= a * 2
  {
    assert a * b == a * (b - 2) + a * 2;
  }

  lemma ScaleOrder(a: real, b: real, t: real)
    requires t > 0.0 && a < b
    ensures a * t < b * t
  {
    assert (b - a) * t > 0.0;
  }

  /** A quorum of stake is more than half, and can be reached. */
  lemma QuorumInRange(members: nat, total: real)
    requires members > 0 && total > 0.0 && (members >= 2 ==> total >= 2.0)
    ensures 0.5 < StakeQuorum(members, total) <= 1.0
  {
    if members >= 2 { QuotientBetween(0.5 * total + 1.0, total, 0.5, 1.0); }
  }

  lemma QuotientTimes(a: real, c: real)
    requires c > 0.0
    ensures (a / c) * c == a
  {
  }

  lemma QuotientBetween(a: real, c: real, low: real, high: real)
    requires c > 0.0 && low * c < a <= high * c
    ensures low < a / c <= high
  {
    var q := a / c;
    QuotientTimes(a, c);
    ScaleAll(low, high, c, q);
  }

  lemma ScaleAll(low: real, high: real, c: real, q: real)
    requires c > 0.0 && low * c < q * c <= high * c
    ensures low < q <= high
  {
    if q < low { ScaleOrder(q, low, c); }
    if q > high { ScaleOrder(high, q, c); }
  }

  lemma {:induction false} SumOfShares(members: seq<Member>, unit: nat)
    requires unit > 0
    ensures Sum(SharesOf(members, unit)) == Total(Amounts(members)) as real / unit as real
  {
    var shares, amounts := SharesOf(members, unit), Amounts(members);
    if members != [] {
      var init, last := members[..|members| - 1], members[|members| - 1];
      SumOfShares(init, unit);
      assert shares[..|shares| - 1] == SharesOf(init, unit);
      assert amounts[..|amounts| - 1] == Amounts(init);
      AddFractions(Total(Amounts(init)) as real, last.amount as real, unit as real);
    }
  }

  lemma AddFractions(a: real, b: real, c: real)
    requires c > 0.0
    ensures a / c + b / c == (a + b) / c
  {
  }

  lemma PositiveFraction(a: real, c: real)
    requires a > 0.0 && c > 0.0
    ensures a / c > 0.0
  {
    var q := a / c;
    QuotientTimes(a, c);
    if q < 0.0 { ScaleOrder(q, 0.0, c); }
  }

  lemma AtLeastTwice(a: real, c: real)
    requires c > 0.0 && a >= 2.0 * c
    ensures a / c >= 2.0
  {
    var q := a / c;
    QuotientTimes(a, c);
    if q < 2.0 { ScaleOrder(q, 2.0, c); }
  }

  /** The shares of stake: positive, adding up to `total`, with the quorum more than half of it. */
  lemma ShareOut(members: seq<Member>, gcd: nat, unit: nat, total: real)
    requires WellFormed(Stake(members)) && IsGCD(gcd, Amounts(members))
    requires unit == ShareUnit(Total(Amounts(members)), gcd) && unit > 0
    requires total == Total(Amounts(members)) as real / unit as real
    ensures Positive(SharesOf(members, unit)) && Sum(SharesOf(members, unit)) == total > 0.0
    ensures 0.5 < StakeQuorum(|members|, total) <= 1.0
  {
    var amounts, shares := Amounts(members), SharesOf(members, unit);
    assert |Addresses(Stake(members))| == |members|;
    SumOfShares(members, unit);
    TotalPositive(amounts);
    PositiveFraction(Total(amounts) as real, unit as real);
    forall k | 0 <= k < |shares|
      ensures shares[k] > 0.0
    {
      PositiveFraction(members[k].amount as real, unit as real);
    }
    TwoShares(members, gcd);
    if |members| >= 2 {
      AtLeastTwice(Total(amounts) as real, unit as real);
    }
    QuorumInRange(|members|, total);
  }

  /** ---------- weights ---------- */

  /** The weight of member `k`: one in a round-robin concilium, its part of all stake in another. */
  function Weight(def: Definition, k: nat): real
    requires WellFormed(def) && k < |Addresses(def)|
  {
    match def
    case RoundRobin(_, _) => 1.0
    case Stake(members) =>
      TotalPositive(Amounts(members));
      members[k].amount as real / Total(Amounts(members)) as real
  }

  function Weights(def: Definition): (weights: seq<real>)
    requires WellFormed(def)
    ensures |weights| == |Addresses(def)|
  {
    seq(|Addresses(def)|, k requires 0 <= k < |Addresses(def)| => Weight(def, k))
  }

  lemma {:induction false} SumOfParts(members: seq<Member>, parts: seq<real>, all: real)
    requires |parts| == |members| && all > 0.0
    requires forall k :: 0 <= k < |members| ==> parts[k] == members[k].amount as real / all
    ensures Sum(parts) == Total(Amounts(members)) as real / all
  {
    var amounts := Amounts(members);
    if members != [] {
      var init, last := members[..|members| - 1], members[|members| - 1];
      SumOfParts(init, parts[..|parts| - 1], all);
      assert amounts[..|amounts| - 1] == Amounts(init);
      AddFractions(Total(Amounts(init)) as real, last.amount as real, all);
    }
  }

  lemma {:induction false} SumOfOnes(parts: seq<real>)
    requires forall k :: 0 <= k < |parts| ==> parts[k] == 1.0
    ensures Sum(parts) == |parts| as real
  {
    if parts != [] { SumOfOnes(parts[..|parts| - 1]); }
  }

  lemma WholeFraction(a: real)
    requires a > 0.0
    ensures a / a == 1.0
  {
  }

  lemma StakeWeightsAddUp(members: seq<Member>, all: real)
    requires WellFormed(Stake(members)) && all == Total(Amounts(members)) as real
    ensures Positive(Weights(Stake(members))) && Sum(Weights(Stake(members))) == 1.0
  {
    TotalPositive(Amounts(members));
    forall k | 0 <= k < |members|
      ensures Weights(Stake(members))[k] > 0.0
    {
      PositiveFraction(members[k].amount as real, all);
    }
    SumOfParts(members, Weights(Stake(members)), all);
    WholeFraction(all);
  }

  /** Weights are positive; those of stake add up to one, the others to the number of members. */
  lemma WeightsAddUp(def: Definition)
    requires WellFormed(def)
    ensures Positive(Weights(def))
    ensures Sum(Weights(def)) == if def.Stake? then 1.0 else |Addresses(def)| as real
  {
    match def
    case RoundRobin(_, _) => SumOfOnes(Weights(def));
    case Stake(members) => StakeWeightsAddUp(members, Total(Amounts(members)) as real);
  }

  /** Shares over their sum are the parts of all stake, whatever the unit. */
  lemma ShareIsPart(members: seq<Member>, unit: nat, k: nat)
    requires WellFormed(Stake(members)) && unit > 0 && k < |members|
    requires Total(Amounts(members)) > 0
    ensures Total(Amounts(members)) as real / unit as real > 0.0
    ensures SharesOf(members, unit)[k] / (Total(Amounts(members)) as real / unit as real) == Weight(Stake(members), k)
  {
    PositiveFraction(Total(Amounts(members)) as real, unit as real);
    CancelUnit(members[k].amount as real, Total(Amounts(members)) as real, unit as real);
  }

  lemma CancelUnit(a: real, b: real, c: real)
    requires b > 0.0 && c > 0.0 && b / c > 0.0
    ensures (a / c) / (b / c) == a / b
  {
  }
}
