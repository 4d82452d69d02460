/** The consensus of one concilium at one node: rounds, votes, and the signatures of a committed block. */
module Bft {
  import opened Wrappers
  import opened Collections
  import opened Ledger
  import opened Shares
  import opened Conciliums
  import opened ConciliumRounds
  import opened Voting

  datatype State = ROUND_CHANGE | BLOCK | VOTE_BLOCK | COMMIT

  /** What the consensus tells its witness to do. */
  datatype Event =
    | SendRound(roundNo: nat)
    | SendVote(vote: Option<Hash>)
    | CreateBlock
    | CommitBlock(block: Hash, signatures: seq<Signature>)

  /** Signatures recover, for the hash they sign, to an address. */
  type Recover = (Hash, Signature) -> Address

  function StateOf(content: Content): State {
    match content
    case NextRound(_) => ROUND_CHANGE
    case Vote(_) => VOTE_BLOCK
  }

  /** A quorum that is more than half of all weight. */
  predicate MajorityQuorum(def: Definition) {
    def.RoundRobin? && def.givenQuorum != 0 ==> 2 * def.givenQuorum > |def.addresses|
  }

  /** ---------- signatures of a block ---------- */

  function IndexOf(addresses: seq<Address>, addr: Address): (k: nat)
    requires addr in addresses
    ensures k < |addresses| && addresses[k] == addr
  {
    if addresses[0] == addr then 0 else 1 + IndexOf(addresses[1..], addr)
  }

  /** The weight behind signatures, counted one by one; none if one of them is a stranger's. */
  function GatheredWeight(addresses: seq<Address>, weights: seq<real>, recover: Recover, block: Hash,
                          signatures: seq<Signature>): Option<real>
    requires |addresses| == |weights|
  {
    if signatures == [] then Some(0.0)
    else
      var rest := GatheredWeight(addresses, weights, recover, block, signatures[..|signatures| - 1]);
      var addr := recover(block, signatures[|signatures| - 1]);
      if rest.None? || addr !in addresses then None else Some(rest.value + weights[IndexOf(addresses, addr)])
  }

  lemma {:induction false} StrangersStay(addresses: seq<Address>, weights: seq<real>, recover: Recover, block: Hash,
                                         signatures: seq<Signature>, k: nat)
    requires |addresses| == |weights| && k <= |signatures|
    requires GatheredWeight(addresses, weights, recover, block, signatures[..k]).None?
    ensures GatheredWeight(addresses, weights, recover, block, signatures).None?
    decreases |signatures| - k
  {
    if k == |signatures| {
      assert signatures[..k] == signatures;
    } else {
      assert signatures[..k + 1][..k] == signatures[..k];
      StrangersStay(addresses, weights, recover, block, signatures, k + 1);
    }
  }

  /** All signatures are those of members, and their weights, counted one by one, make up the quorum. */
  ghost predicate Acceptable(concilium: Concilium, recover: Recover, block: Hash, signatures: seq<Signature>)
    requires concilium.SharesOk()
  {
    var weight := GatheredWeight(Addresses(concilium.def), Weights(concilium.def), recover, block, signatures);
    weight.Some? && weight.value >= concilium.Quorum()
  }

  method VerifyBlockSignatures(concilium: Concilium, recover: Recover, block: Hash, signatures: seq<Signature>)
    returns (ok: bool)
    requires concilium.SharesOk()
    ensures ok <==> Acceptable(concilium, recover, block, signatures)
  {
    var addresses, weights := Addresses(concilium.def), Weights(concilium.def);
    var gatheredWeight := 0.0;
    for k := 0 to |signatures|
      invariant GatheredWeight(addresses, weights, recover, block, signatures[..k]) == Some(gatheredWeight)
    {
      assert signatures[..k + 1][..k] == signatures[..k];
      var addr := recover(block, signatures[k]);
      if addr !in addresses {
        StrangersStay(addresses, weights, recover, block, signatures, k + 1);
        return false;
      }
      var weight := concilium.GetWitnessWeight(addr);
      assert weight == Success(weights[IndexOf(addresses, addr)]);
      gatheredWeight := gatheredWeight + weight.value;
    }
    assert signatures[..|signatures|] == signatures;
    var quorum := concilium.GetQuorum();
    return gatheredWeight >= quorum;
  }

  /** ---------- what acceptance means ---------- */

  predicate HasSigned(recover: Recover, block: Hash, signatures: seq<Signature>, addr: Address) {
    exists k :: 0 <= k < |signatures| && recover(block, signatures[k]) == addr
  }

  /** Which of the members have signed. */
  function Signed(addresses: seq<Address>, recover: Recover, block: Hash,
                  signatures: seq<Signature>): (marks: seq<bool>)
    ensures |marks| == |addresses|
  {
    seq(|addresses|, i requires 0 <= i < |addresses| => HasSigned(recover, block, signatures, addresses[i]))
  }

  predicate DifferentSigners(recover: Recover, block: Hash, signatures: seq<Signature>) {
    forall j, k :: 0 <= j < k < |signatures| ==> recover(block, signatures[j]) != recover(block, signatures[k])
  }

  /** All signatures are counted iff all are those of members. */
  lemma {:induction false} GatheredIff(addresses: seq<Address>, weights: seq<real>, recover: Recover, block: Hash,
                                       signatures: seq<Signature>)
    requires |addresses| == |weights|
    ensures GatheredWeight(addresses, weights, recover, block, signatures).Some? <==>
      forall k :: 0 <= k < |signatures| ==> recover(block, signatures[k]) in addresses
  {
    if signatures != [] { GatheredIff(addresses, weights, recover, block, signatures[..|signatures| - 1]); }
  }

  lemma SignedSnoc(recover: Recover, block: Hash, init: seq<Signature>, last: Signature, addr: Address)
    ensures HasSigned(recover, block, init + [last], addr) <==>
      HasSigned(recover, block, init, addr) || recover(block, last) == addr
  {
    var all := init + [last];
    if HasSigned(recover, block, init, addr) {
      var k :| 0 <= k < |init| && recover(block, init[k]) == addr;
      assert all[k] == init[k];
    }
    assert all[|init|] == last;
  }

  lemma DifferentSnoc(recover: Recover, block: Hash, init: seq<Signature>, last: Signature)
    ensures DifferentSigners(recover, block, init + [last]) <==>
      DifferentSigners(recover, block, init) && !HasSigned(recover, block, init, recover(block, last))
  {
    var all := init + [last];
    assert forall k :: 0 <= k < |init| ==> all[k] == init[k];
    assert all[|init|] == last;
  }

  lemma {:induction false} MarkOne(marks: seq<bool>, weights: seq<real>, i: nat)
    requires |marks| == |weights| && i < |marks| && !marks[i]
    ensures Marked(marks[i := true], weights) == Marked(marks, weights) + weights[i]
  {
    var n := |marks| - 1;
    if i < n {
      MarkOne(marks[..n], weights[..n], i);
      assert marks[i := true][..n] == marks[..n][i := true];
    } else {
      assert marks[i := true][..n] == marks[..n];
    }
  }

  lemma SignedMarks(addresses: seq<Address>, recover: Recover, block: Hash, init: seq<Signature>, last: Signature,
                    i: nat)
    requires Distinct(addresses) && i < |addresses| && addresses[i] == recover(block, last)
    ensures Signed(addresses, recover, block, init + [last]) == Signed(addresses, recover, block, init)[i := true]
  {
    var was := Signed(addresses, recover, block, init);
    forall m | 0 <= m < |addresses|
      ensures Signed(addresses, recover, block, init + [last])[m] == was[i := true][m]
    {
      SignedSnoc(recover, block, init, last, addresses[m]);
    }
  }

  /** The weight counted is at least that of the members who signed, and just that iff nobody signed twice. */
  lemma {:induction false} GatheredIsSigned(addresses: seq<Address>, weights: seq<real>, recover: Recover, block: Hash,
                                            signatures: seq<Signature>)
    requires |addresses| == |weights| && Distinct(addresses) && Positive(weights)
    requires GatheredWeight(addresses, weights, recover, block, signatures).Some?
    ensures var gathered := GatheredWeight(addresses, weights, recover, block, signatures).value;
      var signed := Marked(Signed(addresses, recover, block, signatures), weights);
      signed <= gathered && (signed == gathered <==> DifferentSigners(recover, block, signatures))
  {
    if signatures == [] {
      NobodySigned(addresses, weights, recover, block);
    } else {
      var init, last := signatures[..|signatures| - 1], signatures[|signatures| - 1];
      assert signatures == init + [last];
      GatheredIsSigned(addresses, weights, recover, block, init);
      OneMoreSigned(addresses, weights, recover, block, init, last);
      DifferentSnoc(recover, block, init, last);
    }
  }

  lemma {:induction false} NobodyMarked(marks: seq<bool>, weights: seq<real>)
    requires |marks| == |weights| && forall i :: 0 <= i < |marks| ==> !marks[i]
    ensures Marked(marks, weights) == 0.0
  {
    if marks != [] { NobodyMarked(marks[..|marks| - 1], weights[..|marks| - 1]); }
  }

  lemma {:induction false} NobodySigned(addresses: seq<Address>, weights: seq<real>, recover: Recover, block: Hash)
    requires |addresses| == |weights|
    ensures Marked(Signed(addresses, recover, block, []), weights) == 0.0
  {
    NobodyMarked(Signed(addresses, recover, block, []), weights);
  }

  /** One more signature adds a weight to what is signed only if its signer had not signed. */
  lemma {:induction false} OneMoreSigned(addresses: seq<Address>, weights: seq<real>, recover: Recover, block: Hash,
                                         init: seq<Signature>, last: Signature)
    requires |addresses| == |weights| && Distinct(addresses) && recover(block, last) in addresses
    ensures var was := Signed(addresses, recover, block, init);
      Marked(Signed(addresses, recover, block, init + [last]), weights) == Marked(was, weights) +
        if HasSigned(recover, block, init, recover(block, last)) then 0.0
        else weights[IndexOf(addresses, recover(block, last))]
  {
    var was, i := Signed(addresses, recover, block, init), IndexOf(addresses, recover(block, last));
    SignedMarks(addresses, recover, block, init, last, i);
    if was[i] {
      assert was[i := true] == was;
    } else {
      MarkOne(was, weights, i);
    }
  }

  /** Signatures of different members are accepted iff these members make up the quorum; repeated ones may be before. */
  lemma AcceptedIffSigned(concilium: Concilium, recover: Recover, block: Hash, signatures: seq<Signature>)
    requires concilium.SharesOk()
    ensures var def := concilium.def;
      var members := forall k :: 0 <= k < |signatures| ==> recover(block, signatures[k]) in Addresses(def);
      var quorum := Marked(Signed(Addresses(def), recover, block, signatures), Weights(def)) >= concilium.Quorum();
      && (members && quorum ==> Acceptable(concilium, recover, block, signatures))
      && (Acceptable(concilium, recover, block, signatures) ==> members)
      && (DifferentSigners(recover, block, signatures) ==>
            (Acceptable(concilium, recover, block, signatures) <==> members && quorum))
  {
    var addresses, weights := Addresses(concilium.def), Weights(concilium.def);
    WeightsAddUp(concilium.def);
    GatheredIff(addresses, weights, recover, block, signatures);
    if GatheredWeight(addresses, weights, recover, block, signatures).Some? {
      GatheredIsSigned(addresses, weights, recover, block, signatures);
    }
  }

  lemma {:induction false} GatheredSnoc(addresses: seq<Address>, weights: seq<real>, recover: Recover, block: Hash,
                                        init: seq<Signature>,
                                        last: Signature)
    requires |addresses| == |weights| && recover(block, last) in addresses
    requires GatheredWeight(addresses, weights, recover, block, init).Some?
    ensures GatheredWeight(addresses, weights, recover, block, init + [last]) ==
      Some(GatheredWeight(addresses, weights, recover, block, init).value +
           weights[IndexOf(addresses, recover(block, last))])
  {
    assert (init + [last])[..|init|] == init;
  }

  /** A signature that is there twice counts twice. */
  lemma {:induction false} CountedTwice(addresses: seq<Address>, weights: seq<real>, recover: Recover, block: Hash,
                                        s: Signature)
    requires |addresses| == |weights| && Distinct(addresses) && recover(block, s) in addresses
    ensures var weight := weights[IndexOf(addresses, recover(block, s))];
      && GatheredWeight(addresses, weights, recover, block, [s, s]) == Some(weight + weight)
      && Marked(Signed(addresses, recover, block, [s, s]), weights) == weight
  {
    var once: seq<Signature> := [] + [s];
    assert once + [s] == [s, s];
    NobodySigned(addresses, weights, recover, block);
    GatheredSnoc(addresses, weights, recover, block, [], s);
    OneMoreSigned(addresses, weights, recover, block, [], s);
    SignedSnoc(recover, block, [], s, recover(block, s));
    GatheredSnoc(addresses, weights, recover, block, once, s);
    OneMoreSigned(addresses, weights, recover, block, once, s);
  }

  /** One of three members signs, and the signature is there twice: it is accepted for a quorum of two. */
  lemma RepeatedSignatureCounts(concilium: Concilium, recover: Recover, block: Hash, s: Signature)
    requires concilium.SharesOk() && concilium.def == RoundRobin([1, 2, 3], 0) && recover(block, s) == 1
    ensures Acceptable(concilium, recover, block, [s, s])
    ensures Marked(Signed([1, 2, 3], recover, block, [s, s]), Weights(concilium.def)) == 1.0 < concilium.Quorum()
  {
    CountedTwice([1, 2, 3], Weights(concilium.def), recover, block, s);
    assert Weights(concilium.def)[0] == 1.0;
  }

  /** ---------- signatures of votes ---------- */

  /** The signatures come, in order, from the different members `signers`. */
  ghost predicate SignedBy(addresses: seq<Address>, recover: Recover, block: Hash, signatures: seq<Signature>,
                           signers: seq<nat>)
  {
    && |signers| == |signatures|
    && (forall j, k :: 0 <= j < k < |signers| ==> signers[j] < signers[k])
    && (forall k :: 0 <= k < |signers| ==>
          signers[k] < |addresses| && recover(block, signatures[k]) == addresses[signers[k]])
  }

  lemma {:induction false} IndexOfAt(addresses: seq<Address>, i: nat)
    requires i < |addresses| && Distinct(addresses)
    ensures IndexOf(addresses, addresses[i]) == i
  {
    assert addresses[IndexOf(addresses, addresses[i])] == addresses[i];
  }

  lemma {:induction false} OneMoreSignature(addresses: seq<Address>, weights: seq<real>, recover: Recover, block: Hash,
                                            signatures: seq<Signature>, signature: Signature, i: nat)
    requires |addresses| == |weights| && Distinct(addresses)
    requires i < |addresses| && recover(block, signature) == addresses[i]
    requires GatheredWeight(addresses, weights, recover, block, signatures).Some?
    ensures GatheredWeight(addresses, weights, recover, block, signatures + [signature]) ==
      Some(GatheredWeight(addresses, weights, recover, block, signatures).value + weights[i])
  {
    assert (signatures + [signature])[..|signatures|] == signatures;
    IndexOfAt(addresses, i);
  }

  /** What the vote `r` of a witness must be for its signature to be used. */
  predicate SignsBlock(recover: Recover, addr: Address, block: Hash, r: Option<Report>) {
    && r.Some? && r.value.content == Vote(Some(block))
    && r.value.signature.Some? && recover(block, r.value.signature.value) == addr
  }

  function Signing(recover: Recover, addresses: seq<Address>, block: Hash,
                   votes: seq<Option<Report>>): (marks: seq<bool>)
    requires |votes| <= |addresses|
    ensures |marks| == |votes|
  {
    seq(|votes|, i requires 0 <= i < |votes| => SignsBlock(recover, addresses[i], block, votes[i]))
  }

  /** The weight of the witnesses whose votes sign the block. */
  function SigningWeight(addresses: seq<Address>, weights: seq<real>, recover: Recover, block: Hash,
                         votes: seq<Option<Report>>): real
    requires |votes| <= |addresses| == |weights|
  {
    Marked(Signing(recover, addresses, block, votes), weights[..|votes|])
  }

  /** The signatures of those votes, and whose they are. */
  function SignaturesOf(recover: Recover, addresses: seq<Address>, block: Hash,
                        votes: seq<Option<Report>>): seq<Signature>
    requires |votes| <= |addresses|
  {
    if votes == [] then []
    else
      var i := |votes| - 1;
      SignaturesOf(recover, addresses, block, votes[..i]) +
        if SignsBlock(recover, addresses[i], block, votes[i]) then [votes[i].value.signature.value] else []
  }

  function SignersOf(recover: Recover, addresses: seq<Address>, block: Hash,
                     votes: seq<Option<Report>>): (signers: seq<nat>)
    requires |votes| <= |addresses|
    ensures forall k :: 0 <= k < |signers| ==> signers[k] < |votes|
  {
    if votes == [] then []
    else
      var i := |votes| - 1;
      SignersOf(recover, addresses, block, votes[..i]) +
        if SignsBlock(recover, addresses[i], block, votes[i]) then [i] else []
  }

  lemma {:induction false} SignersDiffer(recover: Recover, addresses: seq<Address>, block: Hash,
                                         votes: seq<Option<Report>>)
    requires |votes| <= |addresses|
    ensures SignedBy(addresses, recover, block, SignaturesOf(recover, addresses, block, votes),
                     SignersOf(recover, addresses, block, votes))
  {
    if votes != [] {
      SignersDiffer(recover, addresses, block, votes[..|votes| - 1]);
    }
  }

  /** Whoever counts the signatures finds the weight of the votes they were taken from. */
  lemma {:induction false} SameWeight(addresses: seq<Address>, weights: seq<real>, recover: Recover, block: Hash,
                                      votes: seq<Option<Report>>)
    requires |votes| <= |addresses| == |weights| && Distinct(addresses)
    ensures GatheredWeight(addresses, weights, recover, block, SignaturesOf(recover, addresses, block, votes)) ==
      Some(SigningWeight(addresses, weights, recover, block, votes))
  {
    if votes != [] {
      var i := |votes| - 1;
      SameWeight(addresses, weights, recover, block, votes[..i]);
      OneMoreVote(addresses, weights, recover, block, votes, i);
      var before := SignaturesOf(recover, addresses, block, votes[..i]);
      assert before + [] == before;
      if SignsBlock(recover, addresses[i], block, votes[i]) {
        OneMoreSignature(addresses, weights, recover, block, before, votes[i].value.signature.value, i);
      }
    }
  }

  lemma OneMoreVote(addresses: seq<Address>, weights: seq<real>, recover: Recover, block: Hash,
                    votes: seq<Option<Report>>, i: nat)
    requires i < |votes| <= |addresses| == |weights|
    ensures SigningWeight(addresses, weights, recover, block, votes[..i + 1]) ==
      SigningWeight(addresses, weights, recover, block, votes[..i]) +
        if SignsBlock(recover, addresses[i], block, votes[i]) then weights[i] else 0.0
    ensures i + 1 == |votes| ==> votes[..i + 1] == votes
  {
    var marks := Signing(recover, addresses, block, votes[..i + 1]);
    assert marks[..i] == Signing(recover, addresses, block, votes[..i]);
    assert weights[..i + 1][..i] == weights[..i];
  }

  /** The signatures of the votes for `block`, if their signers make up a quorum. */
  method GatherSignatures(addresses: seq<Address>, weights: seq<real>, quorum: real, recover: Recover,
                          votes: seq<Option<Report>>, block: Hash) returns (r: Option<seq<Signature>>)
    requires |votes| == |addresses| == |weights|
    ensures r == if SigningWeight(addresses, weights, recover, block, votes) >= quorum
                 then Some(SignaturesOf(recover, addresses, block, votes)) else None
  {
    var arrSignatures: seq<Signature> := [];
    var gatheredWeight := 0.0;
    for i := 0 to |addresses|
      invariant arrSignatures == SignaturesOf(recover, addresses, block, votes[..i])
      invariant gatheredWeight == SigningWeight(addresses, weights, recover, block, votes[..i])
    {
      OneMoreVote(addresses, weights, recover, block, votes, i);
      assert votes[..i + 1][..i] == votes[..i];
      if SignsBlock(recover, addresses[i], block, votes[i]) {
        arrSignatures := arrSignatures + [votes[i].value.signature.value];
        gatheredWeight := gatheredWeight + weights[i];
      }
    }
    assert votes[..|addresses|] == votes;
    r := if gatheredWeight >= quorum then Some(arrSignatures) else None;
  }

  /** ---------- signed votes ---------- */

  /** A block for which the ballots vote with signatures that make up the quorum is agreed on. */
  lemma {:induction false} SignedIsAgreed(addresses: seq<Address>, weights: seq<real>, quorum: real, recover: Recover,
                                          views: Views,
                                          block: Hash,
                                          ballots: seq<Option<Report>>)
    requires |addresses| == |weights| && Positive(weights) && 2.0 * quorum > Sum(weights)
    requires Ballots(views, addresses, weights, quorum, ballots)
    requires SigningWeight(addresses, weights, recover, block, ballots) >= quorum
    ensures Agreed(views, addresses, weights, quorum, Vote(Some(block)))
  {
    var c := Vote(Some(block));
    VotesAreConfirmations(views, addresses, weights, quorum, ballots, c);
    assert weights[..|ballots|] == weights;
    MoreMarks(Signing(recover, addresses, block, ballots), VotesFor(ballots, c), weights);
  }

  /** Every vote for `block` that is relayed carries the signature of the witness it comes from. */
  ghost predicate OwnSignatures(addresses: seq<Address>, recover: Recover, views: Views, block: Hash) {
    forall i, j :: 0 <= i < |addresses| && 0 <= j < |addresses| ==>
      var report := ViewOf(views, addresses[j], addresses[i]);
      Reports(report, Vote(Some(block))) ==>
        report.value.signature.Some? && recover(block, report.value.signature.value) == addresses[i]
  }

  /** Votes that agree on a block and carry their own signatures make up the quorum with these. */
  lemma {:induction false} AgreedIsSigned(addresses: seq<Address>, weights: seq<real>, quorum: real, recover: Recover,
                                          views: Views,
                                          block: Hash,
                                          ballots: seq<Option<Report>>)
    requires |addresses| == |weights| && Positive(weights) && 2.0 * quorum > Sum(weights)
    requires Agreed(views, addresses, weights, quorum, Vote(Some(block)))
    requires OwnSignatures(addresses, recover, views, block) && Ballots(views, addresses, weights, quorum, ballots)
    ensures SigningWeight(addresses, weights, recover, block, ballots) >= quorum
  {
    var c := Vote(Some(block));
    VotesAreConfirmations(views, addresses, weights, quorum, ballots, c);
    forall i | 0 <= i < |ballots| && Reports(ballots[i], c)
      ensures SignsBlock(recover, addresses[i], block, ballots[i])
    {
      var reports := WitnessData(views, addresses, i);
      assert IsMajority(reports, weights, quorum, ballots[i]);
      var j: nat :| IsFirst(reports, j, ballots[i].value);
      assert Reports(ViewOf(views, addresses[j], addresses[i]), c);
    }
    assert weights[..|ballots|] == weights;
    MoreMarks(VotesFor(ballots, c), Signing(recover, addresses, block, ballots), weights);
  }

  /** Without a signature no weight signs. */
  lemma {:induction false} NobodySigns(addresses: seq<Address>, weights: seq<real>, recover: Recover, block: Hash,
                                       votes: seq<Option<Report>>)
    requires |votes| <= |addresses| == |weights|
    requires SignaturesOf(recover, addresses, block, votes) == []
    ensures SigningWeight(addresses, weights, recover, block, votes) == 0.0
  {
    if votes != [] {
      NobodySigns(addresses, weights, recover, block, votes[..|votes| - 1]);
      OneMoreVote(addresses, weights, recover, block, votes, |votes| - 1);
    }
  }

  class BftConsensus {
    const concilium: Concilium
    const wallet: Address
    const recover: Recover
    var state: State
    var views: Views
    var prevViews: Option<Views>
    var block: Option<Hash>
    var sent: seq<Event>
    /** For each commit among the events sent, the views that led to it. */
    ghost var grounds: map<nat, Views>

    ghost predicate Valid()
      reads this, concilium
    {
      && concilium.Valid() && concilium.local.Some?
      && MajorityQuorum(concilium.def)
      && (forall a :: a in Addresses(concilium.def) ==> a in views)
      && Grounded(sent, grounds)
    }

    /** Every block committed so far was agreed on, by signatures that are accepted. */
    ghost predicate Grounded(events: seq<Event>, reasons: map<nat, Views>)
      requires concilium.SharesOk()
    {
      forall k :: 0 <= k < |events| && events[k].CommitBlock? ==>
        k in reasons && CommitOk(reasons[k], events[k].block, events[k].signatures)
    }

    lemma GroundedNext(events: seq<Event>, reasons: map<nat, Views>, event: Event, v: Views)
      requires concilium.SharesOk() && Grounded(events, reasons)
      ensures !event.CommitBlock? ==> Grounded(events + [event], reasons)
      ensures event.CommitBlock? && CommitOk(v, event.block, event.signatures) ==>
        Grounded(events + [event], reasons[|events| := v])
    {
      var all := events + [event];
      forall k | 0 <= k < |events|
        ensures all[k] == events[k] && (all[k].CommitBlock? ==> k in reasons && k != |events|)
      {
      }
    }

    ghost predicate CommitOk(v: Views, b: Hash, signatures: seq<Signature>)
      requires concilium.SharesOk()
    {
      Agrees(v, Vote(Some(b))) && Committable(b, signatures)
    }

    constructor (c: Concilium, own: Address, recovery: Recover)
      requires c.Valid() && MajorityQuorum(c.def)
      modifies c
      ensures Valid() && concilium == c && wallet == own && recover == recovery
      ensures state == ROUND_CHANGE && prevViews == None && block == None && sent == []
      ensures forall a, b :: ViewOf(views, a, b) == None
    {
      concilium, wallet, recover := c, own, recovery;
      state, views, prevViews, block, sent := ROUND_CHANGE, EmptyViews(Addresses(c.def)), None, None, [];
      grounds := map[];
      new;
      concilium.InitRounds();
    }

    static function EmptyViews(addresses: seq<Address>): Views {
      map a | a in addresses :: map[]
    }

    predicate CheckAddresses(addr: Address) {
      addr in Addresses(concilium.def)
    }

    method ResetState()
      requires Valid()
      modifies this`views, this`prevViews
      ensures Valid() && prevViews == Some(old(views)) && views == EmptyViews(Addresses(concilium.def))
    {
      prevViews := Some(views);
      views := EmptyViews(Addresses(concilium.def));
    }

    method AddViewOfNodeWithAddr(addr: Address, addrI: Address, dataI: Report)
      requires Valid() && addr in views
      modifies this`views
      ensures Valid()
      ensures forall a, b ::
        ViewOf(views, a, b) == if a == addr && b == addrI then Some(dataI) else ViewOf(old(views), a, b)
    {
      var row: map<Address, Report> := views[addr];
      row := row[addrI := dataI];
      views := views[addr := row];
    }

    /** ---------- agreement ---------- */

    /** A quorum of the concilium confirms `c`. */
    ghost predicate Agrees(v: Views, c: Content)
      requires concilium.SharesOk()
    {
      Agreed(v, Addresses(concilium.def), Weights(concilium.def), concilium.Quorum(), c)
    }

    ghost predicate SoleWitness() {
      Addresses(concilium.def) == [wallet]
    }

    /** The node goes by `c`: a sole witness by what it reports itself, any other by agreement. */
    ghost predicate Decides(v: Views, c: Content)
      requires concilium.SharesOk()
    {
      if SoleWitness() then Reports(ViewOf(v, wallet, wallet), c) else Agrees(v, c)
    }

    lemma QuorumFacts()
      requires concilium.SharesOk() && MajorityQuorum(concilium.def)
      ensures Positive(Weights(concilium.def))
      ensures 2.0 * concilium.Quorum() > Sum(Weights(concilium.def)) > 0.0 && concilium.Quorum() > 0.0
    {
      QuorumIsMajority(concilium);
      WeightsAddUp(concilium.def);
    }

    /** What the node goes by is agreed on, unless it is the only witness and was given a quorum above its weight. */
    lemma DecidesIff(v: Views, c: Content)
      requires concilium.SharesOk() && MajorityQuorum(concilium.def)
      ensures Agrees(v, c) ==> Decides(v, c)
      ensures (Decides(v, c) <==> Agrees(v, c)) <==>
        !(SoleWitness() && Reports(ViewOf(v, wallet, wallet), c) &&
          concilium.def.RoundRobin? && concilium.def.givenQuorum > 1)
    {
      QuorumFacts();
      if SoleWitness() {
        SoleMember(concilium);
        SoleAgreed(v, Addresses(concilium.def), concilium.Quorum(), c);
      }
    }

    /** The content the node goes by, if there is one. */
    method RunConsensus() returns (r: Option<Report>)
      requires Valid()
      ensures r.Some? ==> Decides(views, r.value.content)
      ensures forall c :: Decides(views, c) ==> r.Some? && r.value.content == c
      ensures SoleWitness() ==> r == ViewOf(views, wallet, wallet)
      ensures !SoleWitness() ==>
        IsConsensus(views, Addresses(concilium.def), Weights(concilium.def), concilium.Quorum(), r)
    {
      var addresses := Addresses(concilium.def);
      if |addresses| == 1 && wallet in addresses {
        return ViewOf(views, wallet, wallet);
      }
      QuorumFacts();
      var quorum := concilium.GetQuorum();
      r := Consensus(views, addresses, Weights(concilium.def), quorum);
      forall c | Agrees(views, c)
        ensures r.Some? && r.value.content == c
      {
        if r.Some? {
          AgreedUnique(views, addresses, Weights(concilium.def), quorum, c, r.value.content);
        }
      }
    }

    /** ---------- signatures ---------- */

    /** The ballots about the witnesses in the views. */
    ghost function Votes(v: Views): (ballots: seq<Option<Report>>)
      requires concilium.SharesOk() && MajorityQuorum(concilium.def)
    {
      QuorumFacts();
      BallotsOf(v, Addresses(concilium.def), Weights(concilium.def), concilium.Quorum())
    }

    lemma VotesAreBallots(v: Views)
      requires concilium.SharesOk() && MajorityQuorum(concilium.def)
      ensures Ballots(v, Addresses(concilium.def), Weights(concilium.def), concilium.Quorum(), Votes(v))
      ensures |Votes(v)| == |Addresses(concilium.def)|
    {
      QuorumFacts();
      BallotsUnique(v, Addresses(concilium.def), Weights(concilium.def), concilium.Quorum(), Votes(v));
    }

    /** The ballots vote for `b` with signatures that make up the quorum. */
    ghost predicate Signs(v: Views, b: Hash)
      requires concilium.SharesOk() && MajorityQuorum(concilium.def)
    {
      VotesAreBallots(v);
      SigningWeight(Addresses(concilium.def), Weights(concilium.def), recover, b, Votes(v)) >= concilium.Quorum()
    }

    /** The signatures of those votes. */
    ghost function Signatures(v: Views, b: Hash): seq<Signature>
      requires concilium.SharesOk() && MajorityQuorum(concilium.def)
    {
      VotesAreBallots(v);
      SignaturesOf(recover, Addresses(concilium.def), b, Votes(v))
    }

    /** Votes that a quorum agrees on and that carry their own signatures sign the block. */
    lemma AgreementSigns(v: Views, b: Hash)
      requires concilium.SharesOk() && MajorityQuorum(concilium.def)
      requires Agrees(v, Vote(Some(b))) && OwnSignatures(Addresses(concilium.def), recover, v, b)
      ensures Signs(v, b)
    {
      QuorumFacts();
      VotesAreBallots(v);
      AgreedIsSigned(Addresses(concilium.def), Weights(concilium.def), concilium.Quorum(), recover, v, b, Votes(v));
    }

    /** The signatures of votes that make up the quorum are accepted, and a quorum agrees on the block. */
    lemma SignedIsCommitted(v: Views, b: Hash)
      requires concilium.SharesOk() && MajorityQuorum(concilium.def) && Signs(v, b)
      ensures CommitOk(v, b, Signatures(v, b)) && Signatures(v, b) != []
    {
      var addresses, weights, votes := Addresses(concilium.def), Weights(concilium.def), Votes(v);
      QuorumFacts();
      VotesAreBallots(v);
      SignersDiffer(recover, addresses, b, votes);
      SameWeight(addresses, weights, recover, b, votes);
      SignedIsAgreed(addresses, weights, concilium.Quorum(), recover, v, b, votes);
      if SignaturesOf(recover, addresses, b, votes) == [] { NobodySigns(addresses, weights, recover, b, votes); }
    }

    /** The signatures are of different members, and are accepted. */
    ghost predicate Committable(b: Hash, signatures: seq<Signature>)
      requires concilium.SharesOk()
    {
      && (exists signers :: SignedBy(Addresses(concilium.def), recover, b, signatures, signers))
      && Acceptable(concilium, recover, b, signatures)
    }

    /** The signatures of the votes for `b` in the views that led to it, if and only if they make up a quorum. */
    method GetSignaturesForBlock(b: Hash) returns (r: Option<seq<Signature>>)
      requires Valid() && prevViews.Some?
      ensures r == if Signs(prevViews.value, b) then Some(Signatures(prevViews.value, b)) else None
    {
      QuorumFacts();
      VotesAreBallots(prevViews.value);
      var addresses, weights := Addresses(concilium.def), Weights(concilium.def);
      var quorum := concilium.GetQuorum();
      var votes := BallotsAbout(prevViews.value, addresses, weights, quorum);
      BallotsUnique(prevViews.value, addresses, weights, quorum, votes);
      r := GatherSignatures(addresses, weights, quorum, recover, votes, b);
    }

    lemma SignedGrounds(events: seq<Event>, reasons: map<nat, Views>, b: Hash, v: Views)
      requires concilium.SharesOk() && MajorityQuorum(concilium.def) && Grounded(events, reasons) && Signs(v, b)
      ensures Grounded(events + [CommitBlock(b, Signatures(v, b))], reasons[|events| := v])
    {
      SignedIsCommitted(v, b);
      GroundedNext(events, reasons, CommitBlock(b, Signatures(v, b)), v);
    }

    /** ---------- rounds ---------- */

    ghost function Round(): nat
      requires concilium.local.Some?
      reads concilium
    {
      concilium.base + concilium.local.value
    }

    /** From `base` and `local` to the next round of the sequence, or to the first of a new one. */
    ghost predicate Moved(advance: bool, base: nat, local: Option<nat>)
      reads concilium
    {
      if advance && local.Some? && local.value + 1 < concilium.seqLength
      then concilium.base == base && concilium.local == Some(local.value + 1)
      else concilium.base == concilium.seed && concilium.local == Some(0)
    }

    /** The node holds no block and told the others, besides what it told them before, its new round. */
    ghost predicate InNewRound(was: seq<Event>)
      requires concilium.local.Some?
      reads this, concilium
    {
      state == ROUND_CHANGE && block == None && sent == was + [SendRound(Round())]
    }

    /** Change to the next round, or start over from the current seed, and tell the others. */
    method NextRound(advance: bool)
      requires Valid()
      modifies this`block, this`state, this`sent, concilium`base, concilium`local, concilium`proposers
      ensures Valid() && InNewRound(old(sent)) && Moved(advance, old(concilium.base), old(concilium.local))
    {
      block := None;
      state := ROUND_CHANGE;
      if advance {
        var r := concilium.NextRound();
      } else {
        concilium.InitRounds();
      }
      var roundNo := concilium.GetRound();
      GroundedNext(sent, grounds, SendRound(roundNo.value), map[]);
      sent := sent + [SendRound(roundNo.value)];
    }

    method ShouldPublish() returns (b: bool)
      requires Valid()
      ensures b <==> Proposes(concilium.def, concilium.gcd, Round(), wallet)
    {
      var proposer := concilium.GetProposerAddress();
      b := proposer == wallet;
      if Proposes(concilium.def, concilium.gcd, Round(), wallet) {
        ProposerUnique(concilium.def, concilium.gcd, concilium.gcd, Round(), proposer, wallet);
      }
    }

    /** Agreed on a round: follow it and wait for the block of its proposer, possibly ourselves. */
    method RoundChangeHandler(agreed: Option<nat>)
      requires Valid() && state == ROUND_CHANGE
      modifies this`block, this`state, this`sent, concilium`base, concilium`local, concilium`proposers
      ensures Valid()
      ensures agreed.None? ==> InNewRound(old(sent)) && Moved(false, old(concilium.base), old(concilium.local))
      ensures agreed.Some? ==>
        && state == BLOCK && block == old(block)
        && concilium.base == AdjustedBase(old(concilium.base), concilium.seed)
        && concilium.local == Some(AdjustedLocal(old(concilium.base), old(concilium.local).value, concilium.seed,
                                                 concilium.seqLength, agreed.value))
        && sent == old(sent) +
             if Proposes(concilium.def, concilium.gcd, Round(), wallet) then [CreateBlock] else []
    {
      if agreed.None? {
        NextRound(false);
      } else {
        concilium.AdjustRound(agreed.value);
        state := BLOCK;
        var mine := ShouldPublish();
        if mine { sent := sent + [CreateBlock]; } else { assert sent + [] == sent; }
      }
    }

    /** A valid block moves on to voting; no block, or an invalid one, to the next round. */
    method BlockStateHandler(isValid: bool)
      requires Valid()
      modifies this`block, this`state, this`sent, concilium`base, concilium`local, concilium`proposers
      ensures Valid()
      ensures isValid ==> state == VOTE_BLOCK && block == old(block) && sent == old(sent)
      ensures isValid ==> concilium.base == old(concilium.base) && concilium.local == old(concilium.local)
      ensures !isValid ==> InNewRound(old(sent)) && Moved(true, old(concilium.base), old(concilium.local))
    {
      if isValid { state := VOTE_BLOCK; } else { NextRound(true); }
    }

    method ProcessValidBlock(hash: Hash)
      requires Valid()
      modifies this`block, this`state, this`sent, concilium`base, concilium`local, concilium`proposers
      ensures Valid()
      ensures concilium.base == old(concilium.base) && concilium.local == old(concilium.local)
      ensures old(state) != BLOCK ==> state == old(state) && block == old(block) && sent == old(sent)
      ensures old(state) == BLOCK ==>
        state == VOTE_BLOCK && block == Some(hash) && sent == old(sent) + [SendVote(Some(hash))]
    {
      if state != BLOCK { return; }
      block := Some(hash);
      BlockStateHandler(true);
      sent := sent + [SendVote(Some(hash))];
    }

    method InvalidBlock()
      requires Valid()
      modifies this`block, this`state, this`sent, concilium`base, concilium`local, concilium`proposers
      ensures Valid()
      ensures old(state) != BLOCK ==> state == old(state) && block == old(block) && sent == old(sent)
      ensures old(state) != BLOCK ==> concilium.base == old(concilium.base) && concilium.local == old(concilium.local)
      ensures old(state) == BLOCK ==>
        && state == ROUND_CHANGE && block == None && Moved(true, old(concilium.base), old(concilium.local))
        && sent == old(sent) + [SendRound(Round()), SendVote(None)]
    {
      if state != BLOCK { return; }
      block := None;
      BlockStateHandler(false);
      sent := sent + [SendVote(None)];
    }

    /** ---------- commits ---------- */

    /** Besides what was sent before, exactly the commit of `b` was, on the ground of `v`. */
    ghost predicate CommitSent(was: seq<Event>, v: Views, b: Hash)
      requires concilium.SharesOk() && MajorityQuorum(concilium.def)
      reads this
    {
      sent == was + [CommitBlock(b, Signatures(v, b))] && |was| in grounds && grounds[|was|] == v
    }

    /** What was sent, and its grounds, are still there. */
    ghost predicate Kept(was: seq<Event>, wasGrounds: map<nat, Views>)
      reads this
    {
      was <= sent && forall k :: k in wasGrounds && k < |was| ==> k in grounds && grounds[k] == wasGrounds[k]
    }

    /** The outcome of agreeing on a vote for `b` in the views `v`, while holding `held`. */
    ghost predicate Voted(v: Views, b: Hash, held: Option<Hash>, was: seq<Event>, base: nat, local: Option<nat>)
      requires concilium.SharesOk() && MajorityQuorum(concilium.def) && concilium.local.Some?
      reads this, concilium
    {
      if held == Some(b) && !Signs(v, b) then InNewRound(was) && Moved(true, base, local)
      else
        && state == COMMIT && block == held && concilium.base == base && concilium.local == local
        && if held == Some(b) then CommitSent(was, v, b) else sent == was
    }

    lemma CommitIsSent(was: seq<Event>, wasGrounds: map<nat, Views>, v: Views, b: Hash)
      requires concilium.SharesOk() && MajorityQuorum(concilium.def)
      requires sent == was + [CommitBlock(b, Signatures(v, b))] && grounds == wasGrounds[|was| := v]
      ensures CommitSent(was, v, b) && Kept(was, wasGrounds)
    {
    }

    method Commit(event: Event)
      requires Valid() && prevViews.Some? && Grounded(sent + [event], grounds[|sent| := prevViews.value])
      modifies this`sent, this`grounds
      ensures Valid() && sent == old(sent) + [event] && grounds == old(grounds)[|old(sent)| := prevViews.value]
    {
      grounds := grounds[|sent| := prevViews.value];
      sent := sent + [event];
    }

    /** Commit the block held if its signatures are there, else change to the next round. */
    method CommitHeld(b: Hash)
      requires Valid() && prevViews.Some? && state == COMMIT && block == Some(b)
      modifies this`block, this`state, this`sent, this`grounds, concilium`base, concilium`local, concilium`proposers
      ensures Valid() && Kept(old(sent), old(grounds))
      ensures Voted(prevViews.value, b, Some(b), old(sent), old(concilium.base), old(concilium.local))
    {
      var signatures := GetSignaturesForBlock(b);
      if signatures.None? || signatures.value == [] {
        if Signs(prevViews.value, b) { SignedIsCommitted(prevViews.value, b); }
        NextRound(true);
      } else {
        SignedGrounds(sent, grounds, b, prevViews.value);
        Commit(CommitBlock(b, signatures.value));
        CommitIsSent(old(sent), old(grounds), prevViews.value, b);
      }
    }

    /** Agreed on a vote: commit the block voted for, if it is the one held and enough signatures are there. */
    method VoteStateHandler(agreed: Option<Option<Hash>>)
      requires Valid() && (agreed.Some? ==> prevViews.Some?)
      modifies this`block, this`state, this`sent, this`grounds, concilium`base, concilium`local, concilium`proposers
      ensures Valid() && Kept(old(sent), old(grounds))
      ensures agreed == None || agreed == Some(None) ==>
        InNewRound(old(sent)) && Moved(true, old(concilium.base), old(concilium.local))
      ensures agreed.Some? && agreed.value.Some? ==>
        Voted(prevViews.value, agreed.value.value, old(block), old(sent), old(concilium.base), old(concilium.local))
    {
      if agreed == None || agreed == Some(None) {
        NextRound(true);
        return;
      }
      state := COMMIT;
      if block == agreed.value { CommitHeld(block.value); }
    }

    /** The outcome of a change of state: a timer fired, or the witnesses agreed on a content in the views `v`. */
    ghost predicate Changed(agreed: Option<Content>, v: Views, wasState: State, held: Option<Hash>, was: seq<Event>,
                            base: nat, local: Option<nat>)
      requires concilium.SharesOk() && MajorityQuorum(concilium.def) && concilium.local.Some? && local.Some?
      reads this, concilium
    {
      match agreed
      case None => InNewRound(was) && Moved(wasState != ROUND_CHANGE, base, local)
      case Some(NextRound(roundNo)) =>
        && state == BLOCK && block == held
        && concilium.base == AdjustedBase(base, concilium.seed)
        && concilium.local == Some(AdjustedLocal(base, local.value, concilium.seed, concilium.seqLength, roundNo))
        && sent == was + if Proposes(concilium.def, concilium.gcd, Round(), wallet) then [CreateBlock] else []
      case Some(Vote(None)) => InNewRound(was) && Moved(true, base, local)
      case Some(Vote(Some(b))) => Voted(v, b, held, was, base, local)
    }

    method StateChange(agreed: Option<Content>)
      requires Valid() && (agreed.Some? ==> prevViews.Some?)
      modifies this`block, this`state, this`sent, this`grounds, concilium`base, concilium`local, concilium`proposers
      ensures Valid() && Kept(old(sent), old(grounds))
      ensures Changed(agreed, if agreed.Some? then prevViews.value else map[], old(state), old(block), old(sent),
                      old(concilium.base), old(concilium.local))
    {
      if agreed.Some? { state := StateOf(agreed.value); }
      match state
      case ROUND_CHANGE =>
        RoundChangeHandler(if agreed.Some? then Some(agreed.value.roundNo) else None);
      case BLOCK =>
        BlockStateHandler(false);
      case VOTE_BLOCK =>
        VoteStateHandler(if agreed.Some? then Some(agreed.value.block) else None);
      case COMMIT =>
        NextRound(true);
    }

    /**
      Record what `sender` relays from `addrI`; if that makes the node decide on a content, put the
      views aside and act on it, else nothing happens.
     */
    method ProcessMessage(sender: Address, addrI: Address, dataI: Report) returns (r: Result<bool>)
      requires Valid()
      modifies this, concilium`base, concilium`local, concilium`proposers
      ensures Valid() && Kept(old(sent), old(grounds))
      ensures r.Failure? <==> sender !in Addresses(concilium.def) || addrI !in Addresses(concilium.def)
      ensures r.Failure? ==> views == old(views)
      ensures r != Success(true) ==> state == old(state) && block == old(block) && sent == old(sent)
      ensures r == Success(true) ==> prevViews.Some? && views == EmptyViews(Addresses(concilium.def))
      ensures r.Success? ==>
        var now := if r.value then prevViews.value else views;
        && (forall a, b ::
              ViewOf(now, a, b) == if a == sender && b == addrI then Some(dataI) else ViewOf(old(views), a, b))
        && (r.value <==> exists c :: Decides(now, c))
        && (forall c :: Decides(now, c) ==>
              Changed(Some(c), now, old(state), old(block), old(sent), old(concilium.base), old(concilium.local)))
    {
      if !CheckAddresses(sender) || !CheckAddresses(addrI) { return Failure(WrongAddress); }
      AddViewOfNodeWithAddr(sender, addrI, dataI);
      var value := RunConsensus();
      if value.None? { return Success(false); }
      assert Decides(views, value.value.content);
      ResetState();
      StateChange(Some(value.value.content));
      return Success(true);
    }
  }

  /** A sole witness that is given a quorum of two goes by its own view, though no quorum agrees on anything. */
  lemma SoleWitnessOverrules(n: BftConsensus, v: Views)
    requires n.concilium.SharesOk() && n.concilium.def == RoundRobin([7], 2) && n.wallet == 7
    requires v == map[7 := map[7 := Report(NextRound(1), None)]]
    ensures MajorityQuorum(n.concilium.def) && n.Decides(v, NextRound(1)) && forall c :: !n.Agrees(v, c)
  {
    forall c
      ensures !n.Agrees(v, c)
    {
      SoleMember(n.concilium);
      SoleAgreed(v, [7], 2.0, c);
    }
  }

  /** Signatures that one node of a concilium gathers are accepted by any other. */
  lemma AcceptedEverywhere(n: BftConsensus, other: Concilium, block: Hash, signatures: seq<Signature>)
    requires n.concilium.SharesOk() && other.SharesOk() && other.def == n.concilium.def
    requires n.Committable(block, signatures)
    ensures Acceptable(other, n.recover, block, signatures)
  {
    SameQuorum(n.concilium, other);
  }

  /** What a node has committed, any node of the concilium accepts. */
  lemma CommitsAccepted(n: BftConsensus, k: nat, other: Concilium)
    requires n.Valid() && other.SharesOk() && other.def == n.concilium.def
    requires k < |n.sent| && n.sent[k].CommitBlock?
    ensures Acceptable(other, n.recover, n.sent[k].block, n.sent[k].signatures)
  {
    AcceptedEverywhere(n, other, n.sent[k].block, n.sent[k].signatures);
  }

  /** Two nodes of one concilium commit the same block if the reports they committed it on are consistent. */
  lemma CommitsAgree(m: BftConsensus, n: BftConsensus, j: nat, k: nat)
    requires m.Valid() && n.Valid() && m.concilium.def == n.concilium.def
    requires j < |m.sent| && m.sent[j].CommitBlock? && k < |n.sent| && n.sent[k].CommitBlock?
    requires Consistent(m.grounds[j], n.grounds[k], Addresses(m.concilium.def))
    ensures m.sent[j].block == n.sent[k].block
  {
    m.QuorumFacts();
    SameQuorum(m.concilium, n.concilium);
    ConsistentNodesAgree(m.grounds[j], n.grounds[k], Addresses(m.concilium.def), Weights(m.concilium.def),
                         m.concilium.Quorum(), Vote(Some(m.sent[j].block)), Vote(Some(n.sent[k].block)));
  }
}
