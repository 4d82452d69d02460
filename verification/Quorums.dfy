/** What it takes to be a quorum of stake, in stake. */
module Quorums {
  import opened Ledger
  import opened Arithmetic
  import opened Shares
  import opened Conciliums
  import opened ConciliumRounds
  import opened Voting

  /** The stake of the members marked. */
  function MarkedStake(marks: seq<bool>, members: seq<Member>): nat
    requires |marks| == |members|
  {
    if marks == [] then 0
    else
      var n := |marks| - 1;
      MarkedStake(marks[..n], members[..n]) + if marks[n] then members[n].amount else 0
  }

  lemma {:induction false} MarkedParts(marks: seq<bool>, members: seq<Member>, parts: seq<real>, all: real)
    requires |marks| == |members| == |parts| && all > 0.0
    requires forall k :: 0 <= k < |members| ==> parts[k] == members[k].amount as real / all
    ensures Marked(marks, parts) == MarkedStake(marks, members) as real / all
  {
    if marks != [] {
      var n := |marks| - 1;
      MarkedParts(marks[..n], members[..n], parts[..n], all);
      if marks[n] {
        AddFractions(MarkedStake(marks[..n], members[..n]) as real, members[n].amount as real, all);
      }
    }
  }

  /** Of the fractions `a / c` and `(b / 2 + 1) / b`, with `b == c / unit`. */
  lemma HalfAndOneUnit(a: real, b: real, c: real, unit: real)
    requires c > 0.0 && unit > 0.0 && b == c / unit && b > 0.0
    ensures a / c >= (0.5 * b + 1.0) / b <==> 2.0 * a >= c + 2.0 * unit
  {
    var p, q := a / c, (0.5 * b + 1.0) / b;
    QuotientTimes(a, c);
    QuotientTimes(0.5 * b + 1.0, b);
    QuotientTimes(c, unit);
    assert q * c == q * b * unit == (0.5 * b + 1.0) * unit == 0.5 * c + unit;
    if p < q { ScaleOrder(p, q, c); }
    if p > q { ScaleOrder(q, p, c); }
  }

  /** Of several members, those with half of all stake and one unit more are a quorum, and no others. */
  lemma {:induction false} StakeQuorumIff(c: Concilium, marks: seq<bool>)
    requires c.SharesOk() && c.def.Stake? && |marks| == |c.def.members| >= 2
    ensures |Weights(c.def)| == |marks|
    ensures Marked(marks, Weights(c.def)) >= c.Quorum() <==>
      2 * MarkedStake(marks, c.def.members) >= Total(Amounts(c.def.members)) + 2 * c.unit
  {
    var members, weights := c.def.members, Weights(c.def);
    var all, stake := Total(Amounts(members)), MarkedStake(marks, members);
    TotalPositive(Amounts(members));
    MarkedParts(marks, members, weights, all as real);
    HalfAndOneUnit(stake as real, c.total, all as real, c.unit as real);
    assert Marked(marks, weights) >= c.Quorum() <==> 2.0 * stake as real >= all as real + 2.0 * c.unit as real;
  }

  /** A single member is a quorum, and nobody is none. */
  lemma {:induction false} SoleStakeQuorum(c: Concilium, marks: seq<bool>)
    requires c.SharesOk() && c.def.Stake? && |marks| == |c.def.members| == 1
    ensures |Weights(c.def)| == |marks|
    ensures Marked(marks, Weights(c.def)) >= c.Quorum() <==> marks[0]
  {
    SoleMember(c);
    assert marks[..0] == [];
  }

  /** A unit is the greatest common divisor, but at least a million of a billion, and a thousand of a million. */
  lemma UnitIs(total: nat, gcd: nat)
    ensures ShareUnit(total, gcd) >= gcd
    ensures total < 1_000_000 ==> ShareUnit(total, gcd) == gcd
    ensures total >= 1_000_000 ==> ShareUnit(total, gcd) >= 1_000
    ensures total >= 1_000_000_000 ==> ShareUnit(total, gcd) >= 1_000_000
    ensures ShareUnit(total, gcd) != gcd ==> ShareUnit(total, gcd) == if total < 1_000_000_000 then 1_000 else 1_000_000
  {
  }
}
