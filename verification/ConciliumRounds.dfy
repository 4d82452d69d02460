/** The rounds of a concilium, and who proposes in them. */
module ConciliumRounds {
  import opened Wrappers
  import opened Ledger
  import opened Arithmetic
  import opened Shares
  import opened Conciliums

  /** Who may say that it is the turn of `addr`: the members in turn, or whoever's share the slot falls into. */
  ghost predicate Proposes(def: Definition, gcd: nat, round: nat, addr: Address)
    requires WellFormed(def) && (def.Stake? ==> IsGCD(gcd, Amounts(def.members)))
  {
    match def
    case RoundRobin(addresses, _) => addr == addresses[round % |addresses|]
    case Stake(members) =>
      TwoShares(members, gcd);
      TotalPositive(Amounts(members));
      var unit := ShareUnit(Total(Amounts(members)), gcd);
      PositiveFraction(Total(Amounts(members)) as real, unit as real);
      var total := Total(Amounts(members)) as real / unit as real;
      exists k: nat ::
        k < |members| && members[k].addr == addr && InShare(SharesOf(members, unit), k, Mod(Slot(round) as real, total))
  }

  /** In a round-robin concilium every member has just one turn in as many consecutive rounds as there are members. */
  lemma TakesTurns(def: Definition, gcd: nat, first: nat, k: nat) returns (round: nat)
    requires WellFormed(def) && def.RoundRobin? && k < |def.addresses|
    ensures first <= round < first + |def.addresses| && Proposes(def, gcd, round, def.addresses[k])
    ensures forall r: nat ::
      first <= r < first + |def.addresses| && Proposes(def, gcd, r, def.addresses[k]) ==> r == round
  {
    var n := |def.addresses|;
    round := first + (k - first) % n;
    ModShift(n, k, (k - first) / n * -1);
    assert (k - first) == n * ((k - first) / n) + (k - first) % n;
    assert round == k + n * ((k - first) / n * -1);
    Quotient(n, 0, k);
    forall r: nat | first <= r < first + n && Proposes(def, gcd, r, def.addresses[k])
      ensures r == round
    {
      OneTurn(n, first, r, round);
    }
  }

  lemma OneTurn(n: nat, first: nat, r: nat, s: nat)
    requires n > 0 && first <= r < first + n && first <= s < first + n && r % n == s % n
    ensures r == s
  {
    assert r - s == n * (r / n - s / n);
    Scale(n, r / n - s / n);
  }

  lemma GCDUnique(g: nat, h: nat, numbers: seq<int>)
    requires IsGCD(g, numbers) && IsGCD(h, numbers) && exists k :: 0 <= k < |numbers| && numbers[k] != 0
    ensures g == h
  {
    GCDIsGreatest(g, numbers);
    GCDIsGreatest(h, numbers);
  }

  /** A definition and a round determine the proposer. */
  lemma ProposerUnique(def: Definition, gcd: nat, gcd': nat, round: nat, a: Address, b: Address)
    requires WellFormed(def) && (def.Stake? ==> IsGCD(gcd, Amounts(def.members)) && IsGCD(gcd', Amounts(def.members)))
    requires Proposes(def, gcd, round, a) && Proposes(def, gcd', round, b)
    ensures a == b
  {
    if def.Stake? {
      var members := def.members;
      assert |Addresses(def)| == |members|;
      assert Amounts(members)[0] != 0;
      GCDUnique(gcd, gcd', Amounts(members));
      StakeProposerUnique(def, gcd, round, a, b);
    }
  }

  lemma StakeProposerUnique(def: Definition, gcd: nat, round: nat, a: Address, b: Address)
    requires WellFormed(def) && def.Stake? && IsGCD(gcd, Amounts(def.members))
    requires Proposes(def, gcd, round, a) && Proposes(def, gcd, round, b)
    ensures a == b
  {
    var members := def.members;
    TwoShares(members, gcd);
    var unit := ShareUnit(Total(Amounts(members)), gcd);
    var total := Total(Amounts(members)) as real / unit as real;
    ShareOut(members, gcd, unit, total);
    var shares, m := SharesOf(members, unit), Mod(Slot(round) as real, total);
    var j: nat :| j < |members| && members[j].addr == a && InShare(shares, j, m);
    var k: nat :| k < |members| && members[k].addr == b && InShare(shares, k, m);
    ShareUnique(shares, j, k, m);
  }

  /** ---------- following a round ---------- */

  /** A sequence that started before there was a seed starts over. */
  function AdjustedBase(base: nat, seed: nat): nat {
    if base == 0 && seed != 0 then seed else base
  }

  /** The local round after following `roundNo`: its distance from the base, if that is less than a sequence. */
  function AdjustedLocal(base: nat, local: nat, seed: nat, seqLength: nat, roundNo: nat): nat {
    var distance := Abs(roundNo - AdjustedBase(base, seed));
    if distance < seqLength then distance else if base == 0 && seed != 0 then 0 else local
  }

  /** A round less than a sequence away is followed iff it does not lie before the base; else its mirror is. */
  lemma AdjustedIff(base: nat, local: nat, seed: nat, seqLength: nat, roundNo: nat)
    requires Abs(roundNo - AdjustedBase(base, seed)) < seqLength
    ensures AdjustedBase(base, seed) + AdjustedLocal(base, local, seed, seqLength, roundNo) == roundNo <==>
      AdjustedBase(base, seed) <= roundNo
    ensures roundNo < AdjustedBase(base, seed) ==>
      AdjustedLocal(base, local, seed, seqLength, roundNo) == AdjustedBase(base, seed) - roundNo
  {
  }

  /** A round out of reach changes nothing, but that a sequence that started without a seed starts over. */
  lemma OutOfReach(base: nat, local: nat, seed: nat, seqLength: nat, roundNo: nat)
    requires var start := if base != 0 then base else seed;
      roundNo + seqLength <= start || start + seqLength <= roundNo
    ensures base != 0 || seed == 0 ==>
      AdjustedBase(base, seed) == base && AdjustedLocal(base, local, seed, seqLength, roundNo) == local
    ensures base == 0 && seed != 0 ==>
      AdjustedBase(base, seed) == seed && AdjustedLocal(base, local, seed, seqLength, roundNo) == 0
  {
  }

  /** Agreeing on round 4, three nodes of base 5 go on in round 6. */
  lemma RoundBelowIsMirrored()
    ensures AdjustedBase(5, 5) + AdjustedLocal(5, 0, 5, 3, 4) == 6
  {
  }

  class Concilium {
    const def: Definition
    const seqLength: nat
    ghost const gcd: nat
    const unit: nat
    const shares: seq<real>
    const total: real
    const quorum: real
    var seed: nat
    var base: nat
    var local: Option<nat>
    var proposers: seq<nat>

    ghost predicate SharesOk() {
      && WellFormed(def) && seqLength > 0
      && (def.RoundRobin? ==> seqLength == |def.addresses|)
      && (def.Stake? ==>
            && IsGCD(gcd, Amounts(def.members)) && unit > 0 && unit == ShareUnit(Total(Amounts(def.members)), gcd)
            && shares == SharesOf(def.members, unit)
            && total == Total(Amounts(def.members)) as real / unit as real > 0.0
            && quorum == StakeQuorum(|def.members|, total))
    }

    /** The table of proposers is that of the rounds from `base` on. */
    ghost predicate TableOk()
      requires SharesOk() && def.Stake?
      reads this
    {
      |proposers| == seqLength &&
      forall k :: 0 <= k < seqLength ==>
        proposers[k] < |shares| && InShare(shares, proposers[k], Mod(Slot(base + k) as real, total))
    }

    ghost predicate Valid()
      reads this
    {
      && SharesOk()
      && (local.Some? ==> local.value < seqLength && (def.Stake? ==> TableOk()))
    }

    constructor (d: Definition, rounds: nat)
      requires WellFormed(d) && (d.Stake? ==> rounds > 0)
      ensures Valid() && def == d && local.None? && seed == 0
      ensures d.Stake? ==> seqLength == rounds
    {
      def, seed, base, local, proposers := d, 0, 0, None, [];
      if d.Stake? {
        var amounts := Amounts(d.members);
        assert |Addresses(d)| == |d.members|;
        TotalPositive(amounts);
        var divisor := GCD(amounts);
        gcd := divisor;
        TwoShares(d.members, divisor);
        var nGcd := ShareUnit(Total(amounts), divisor);
        PositiveFraction(Total(amounts) as real, nGcd as real);
        var all := Total(amounts) as real / nGcd as real;
        seqLength, unit, shares, total := rounds, nGcd, SharesOf(d.members, nGcd), all;
        quorum := StakeQuorum(|d.members|, all);
      } else {
        seqLength, unit, shares, total, quorum := |d.addresses|, 1, [], 1.0, 0.0;
        gcd := 1;
      }
    }

    /** More than half of all weight, and not more than all of it. */
    method GetQuorum() returns (q: real)
      requires SharesOk()
      ensures def.Stake? ==> 0.5 < q <= 1.0
      ensures def.RoundRobin? ==>
        q == (if def.givenQuorum != 0 then def.givenQuorum else |def.addresses| / 2 + 1) as real
      ensures q == Quorum()
    {
      match def
      case RoundRobin(addresses, given) =>
        q := if given != 0 then given as real else (|addresses| / 2 + 1) as real;
      case Stake(members) =>
        ShareOut(members, gcd, unit, total);
        q := quorum;
    }

    ghost function Quorum(): real {
      match def
      case RoundRobin(addresses, given) => if given != 0 then given as real else (|addresses| / 2 + 1) as real
      case Stake(_) => quorum
    }

    /** A member's part of the stake; throws for strangers. In a round-robin concilium everybody weighs one. */
    method GetWitnessWeight(addr: Address) returns (r: Result<real>)
      requires SharesOk()
      ensures forall k :: 0 <= k < |Addresses(def)| && Addresses(def)[k] == addr ==> r == Success(Weight(def, k))
      ensures addr !in Addresses(def) ==> r == if def.Stake? then Failure(UnknownWitness) else Success(1.0)
    {
      if def.RoundRobin? { return Success(1.0); }
      for k := 0 to |def.members|
        invariant forall j :: 0 <= j < k ==> Addresses(def)[j] != addr
      {
        if def.members[k].addr == addr {
          ShareIsPart(def.members, unit, k);
          return Success(shares[k] / total);
        }
      }
      return Failure(UnknownWitness);
    }

    method FormProposerAddressesSequence(first: nat)
      requires SharesOk() && def.Stake?
      modifies this`proposers
      ensures |proposers| == seqLength
      ensures forall k :: 0 <= k < seqLength ==>
        proposers[k] < |shares| && InShare(shares, proposers[k], Mod(Slot(first + k) as real, total))
    {
      ShareOut(def.members, gcd, unit, total);
      proposers := [];
      for i := 0 to seqLength
        invariant |proposers| == i
        invariant forall k :: 0 <= k < i ==>
          proposers[k] < |shares| && InShare(shares, proposers[k], Mod(Slot(first + k) as real, total))
      {
        var idx := FindIdxByRound(shares, total, Slot(first + i) as real);
        proposers := proposers + [idx];
      }
    }

    method InitRounds()
      requires SharesOk()
      modifies this`base, this`local, this`proposers
      ensures Valid() && base == seed && local == Some(0)
    {
      base := seed;
      local := Some(0);
      if def.Stake? { FormProposerAddressesSequence(base); }
    }

    method GetRound() returns (r: Result<nat>)
      ensures r == if local.Some? then Success(base + local.value) else Failure(RoundsNotInitialised)
    {
      return if local.Some? then Success(base + local.value) else Failure(RoundsNotInitialised);
    }

    /** The next round of the sequence, or the first of a new one. */
    method NextRound() returns (r: Result<nat>)
      requires Valid()
      modifies this`base, this`local, this`proposers
      ensures Valid()
      ensures old(local).None? ==> r.Failure? && local.None?
      ensures old(local).Some? ==> local.Some? && r == Success(base + local.value)
      ensures old(local).Some? ==>
        if old(local).value + 1 < seqLength then base == old(base) && local.value == old(local).value + 1
        else base == seed && local.value == 0
    {
      if local.None? { return Failure(RoundsNotInitialised); }
      if local.value + 1 >= seqLength {
        InitRounds();
      } else {
        local := Some(local.value + 1);
      }
      r := GetRound();
    }

    method ChangeSeed(newSeed: nat)
      requires Valid()
      modifies this`seed
      ensures Valid() && seed == newSeed
    {
      seed := newSeed;
    }

    /** Follow the round the others agreed on, if it is less than a sequence away from the base. */
    method AdjustRound(roundNo: nat)
      requires Valid()
      modifies this`base, this`local, this`proposers
      ensures Valid()
      ensures old(local).None? ==> local.None? && base == old(base)
      ensures old(local).Some? ==>
        && base == AdjustedBase(old(base), seed)
        && local == Some(AdjustedLocal(old(base), old(local).value, seed, seqLength, roundNo))
    {
      if local.None? { return; }
      if base == 0 && seed != 0 { InitRounds(); }
      var distance := Abs(roundNo - base);
      if distance < seqLength { local := Some(distance); }
    }

    /** The proposer of the current round; the lookup never fails. */
    method GetProposerAddress() returns (addr: Address)
      requires Valid() && local.Some?
      ensures Proposes(def, gcd, base + local.value, addr)
    {
      match def
      case RoundRobin(addresses, _) =>
        addr := addresses[(base + local.value) % |addresses|];
      case Stake(members) =>
        addr := members[proposers[local.value]].addr;
    }
  }

  /** Replicas of one concilium that are in one round name the same proposer. */
  lemma ReplicasAgree(a: Concilium, b: Concilium, x: Address, y: Address)
    requires a.Valid() && b.Valid() && a.def == b.def && a.local.Some? && b.local.Some?
    requires a.base + a.local.value == b.base + b.local.value
    requires Proposes(a.def, a.gcd, a.base + a.local.value, x) && Proposes(b.def, b.gcd, b.base + b.local.value, y)
    ensures x == y
  {
    ProposerUnique(a.def, a.gcd, b.gcd, a.base + a.local.value, x, y);
  }

  /** Replicas of one base and seed that follow one round within reach are in one round and name one proposer. */
  lemma AdjustedReplicasAgree(a: Concilium, b: Concilium, base: nat, seed: nat, roundNo: nat, la: nat, lb: nat,
                              x: Address, y: Address)
    requires a.Valid() && b.Valid() && a.def == b.def
    requires a.base == b.base == AdjustedBase(base, seed)
    requires a.local == Some(AdjustedLocal(base, la, seed, a.seqLength, roundNo))
    requires b.local == Some(AdjustedLocal(base, lb, seed, b.seqLength, roundNo))
    requires Abs(roundNo - a.base) < a.seqLength && Abs(roundNo - b.base) < b.seqLength
    requires Proposes(a.def, a.gcd, a.base + a.local.value, x) && Proposes(b.def, b.gcd, b.base + b.local.value, y)
    ensures a.base + a.local.value == b.base + b.local.value && x == y
    ensures a.base + a.local.value == roundNo <==> a.base <= roundNo
  {
    AdjustedIff(base, la, seed, a.seqLength, roundNo);
    ReplicasAgree(a, b, x, y);
  }

  /** A definition determines the quorum. */
  lemma SameQuorum(a: Concilium, b: Concilium)
    requires a.SharesOk() && b.SharesOk() && a.def == b.def
    ensures a.Quorum() == b.Quorum()
  {
    if a.def.Stake? {
      var members := a.def.members;
      assert |Addresses(a.def)| == |members|;
      assert Amounts(members)[0] != 0;
      GCDUnique(a.gcd, b.gcd, Amounts(members));
    }
  }

  /** A single member weighs one, and is a quorum unless a greater one was given. */
  lemma SoleMember(c: Concilium)
    requires c.SharesOk() && |Addresses(c.def)| == 1
    ensures Weights(c.def) == [1.0]
    ensures c.Quorum() > 0.0 && (c.Quorum() <= 1.0 <==> c.def.Stake? || c.def.givenQuorum <= 1)
  {
    if c.def.Stake? {
      var amounts := Amounts(c.def.members);
      assert amounts[..0] == [] && Total(amounts) == amounts[0];
      WholeFraction(amounts[0] as real);
    }
    assert Weights(c.def)[0] == 1.0;
  }

  /** The quorum is more than half of all weight, unless a smaller one was given to a round-robin concilium. */
  lemma QuorumIsMajority(c: Concilium)
    requires c.SharesOk() && (c.def.RoundRobin? && c.def.givenQuorum != 0 ==> 2 * c.def.givenQuorum > |c.def.addresses|)
    ensures 2.0 * c.Quorum() > Sum(Weights(c.def)) > 0.0
  {
    WeightsAddUp(c.def);
    if c.def.Stake? {
      ShareOut(c.def.members, c.gcd, c.unit, c.total);
    }
  }
}
