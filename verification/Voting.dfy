/**
  Weighted majorities over a matrix of relayed reports: every witness tells what it heard from
  every other one. A value is confirmed for a witness if a quorum relays it from there, and
  agreed on if it is confirmed for a quorum.
 */
module Voting {
  import opened Wrappers
  import opened Ledger
  import opened Shares

  type Signature = nat

  /** `Vote(None)` rejects. */
  datatype Content = NextRound(roundNo: nat) | Vote(block: Option<Hash>)

  /** Reports are compared without their signatures. */
  datatype Report = Report(content: Content, signature: Option<Signature>)

  type Views = map<Address, map<Address, Report>>

  /** ---------- weight ---------- */

  /** The weight of those marked. */
  function Marked(marks: seq<bool>, weights: seq<real>): real
    requires |marks| == |weights|
  {
    if marks == [] then 0.0
    else
      var n := |marks| - 1;
      Marked(marks[..n], weights[..n]) + if marks[n] then weights[n] else 0.0
  }

  lemma {:induction false} DisjointMarks(a: seq<bool>, b: seq<bool>, weights: seq<real>)
    requires |a| == |b| == |weights| && Positive(weights)
    requires forall k :: 0 <= k < |a| ==> !(a[k] && b[k])
    ensures Marked(a, weights) + Marked(b, weights) <= Sum(weights)
  {
    if a != [] {
      var n := |a| - 1;
      DisjointMarks(a[..n], b[..n], weights[..n]);
    }
  }

  /** Two quorums have a member in common. */
  lemma QuorumsMeet(a: seq<bool>, b: seq<bool>, weights: seq<real>, quorum: real) returns (k: nat)
    requires |a| == |b| == |weights| && Positive(weights) && 2.0 * quorum > Sum(weights)
    requires Marked(a, weights) >= quorum && Marked(b, weights) >= quorum
    ensures k < |a| && a[k] && b[k]
  {
    if forall k :: 0 <= k < |a| ==> !(a[k] && b[k]) {
      DisjointMarks(a, b, weights);
    }
    k :| 0 <= k < |a| && a[k] && b[k];
  }

  lemma {:induction false} MarkedNonNegative(marks: seq<bool>, weights: seq<real>)
    requires |marks| == |weights| && Positive(weights)
    ensures Marked(marks, weights) >= 0.0
    ensures Marked(marks, weights) > 0.0 ==> exists k :: 0 <= k < |marks| && marks[k]
  {
    if marks != [] {
      var n := |marks| - 1;
      MarkedNonNegative(marks[..n], weights[..n]);
      if !marks[n] && Marked(marks, weights) > 0.0 {
        var k :| 0 <= k < n && marks[..n][k];
        assert marks[k];
      }
    }
  }

  lemma {:induction false} MoreMarks(a: seq<bool>, b: seq<bool>, weights: seq<real>)
    requires |a| == |b| == |weights| && Positive(weights) && forall k :: 0 <= k < |a| ==> a[k] ==> b[k]
    ensures Marked(a, weights) <= Marked(b, weights)
  {
    if a != [] {
      var n := |a| - 1;
      MoreMarks(a[..n], b[..n], weights[..n]);
    }
  }

  /** ---------- majority ---------- */

  predicate Reports(report: Option<Report>, c: Content) {
    report.Some? && report.value.content == c
  }

  function VotesFor(reports: seq<Option<Report>>, c: Content): (marks: seq<bool>)
    ensures |marks| == |reports|
  {
    seq(|reports|, k requires 0 <= k < |reports| => Reports(reports[k], c))
  }

  function WeightOf(reports: seq<Option<Report>>, weights: seq<real>, c: Content): real
    requires |reports| == |weights|
  {
    Marked(VotesFor(reports, c), weights)
  }

  lemma WeightStep(reports: seq<Option<Report>>, weights: seq<real>, c: Content, k: nat)
    requires |reports| == |weights| && k < |reports|
    ensures WeightOf(reports[..k + 1], weights[..k + 1], c) ==
      WeightOf(reports[..k], weights[..k], c) + if Reports(reports[k], c) then weights[k] else 0.0
  {
    assert VotesFor(reports[..k + 1], c)[..k] == VotesFor(reports[..k], c);
    assert weights[..k + 1][..k] == weights[..k];
  }

  /** Report `j` is the first of its content. */
  ghost predicate IsFirst(reports: seq<Option<Report>>, j: nat, report: Report) {
    j < |reports| && reports[j] == Some(report) && forall i :: 0 <= i < j ==> !Reports(reports[i], report.content)
  }

  /** The outcome of one ballot: the first report of a content that a quorum reports, if there is such a content. */
  ghost predicate IsMajority(reports: seq<Option<Report>>, weights: seq<real>, quorum: real, r: Option<Report>)
    requires |reports| == |weights|
  {
    && (r.Some? ==> WeightOf(reports, weights, r.value.content) >= quorum && exists j :: IsFirst(reports, j, r.value))
    && (r.None? ==> forall c :: WeightOf(reports, weights, c) < quorum)
  }

  /** A tally of the first `k` reports. */
  ghost predicate Tallied(reports: seq<Option<Report>>, weights: seq<real>, k: nat, tally: map<Content, (real, Report)>)
    requires |reports| == |weights| && k <= |reports|
  {
    && (forall c :: c in tally <==> exists j :: 0 <= j < k && Reports(reports[j], c))
    && (forall c :: c in tally ==>
          && tally[c].0 == WeightOf(reports[..k], weights[..k], c)
          && tally[c].1.content == c && exists j :: IsFirst(reports, j, tally[c].1))
  }

  lemma NobodyReports(reports: seq<Option<Report>>, weights: seq<real>, k: nat, c: Content)
    requires |reports| == |weights| && k <= |reports| && Positive(weights)
    requires forall j :: 0 <= j < k ==> !Reports(reports[j], c)
    ensures WeightOf(reports[..k], weights[..k], c) == 0.0
  {
    var marks := VotesFor(reports[..k], c);
    MarkedNonNegative(marks, weights[..k]);
    assert forall j :: 0 <= j < k ==> !marks[j];
  }

  /** The data reported with the most weight, if that reaches the quorum; whatever order the tally is searched in. */
  method Majority(reports: seq<Option<Report>>, weights: seq<real>, quorum: real) returns (r: Option<Report>)
    requires |reports| == |weights| && Positive(weights) && quorum > 0.0
    ensures IsMajority(reports, weights, quorum, r)
  {
    var tally := TallyReports(reports, weights);
    assert reports[..|reports|] == reports && weights[..|weights|] == weights;
    r := None;
    var maxCount := 0.0;
    var hashes := tally.Keys;
    while hashes != {}
      invariant hashes <= tally.Keys
      invariant if r.None? then maxCount == 0.0
                else r.value.content in tally && tally[r.value.content] == (maxCount, r.value)
      invariant forall c :: c in tally && c !in hashes ==> tally[c].0 <= maxCount
      decreases hashes
    {
      var hash :| hash in hashes;
      if tally[hash].0 > maxCount {
        r := Some(tally[hash].1);
        maxCount := tally[hash].0;
      }
      hashes := hashes - {hash};
    }
    if maxCount < quorum {
      r := None;
      forall c
        ensures WeightOf(reports, weights, c) < quorum
      {
        if c !in tally { NobodyReports(reports, weights, |reports|, c); }
      }
    }
  }

  function Counted(tally: map<Content, (real, Report)>, report: Option<Report>, weight: real)
    : map<Content, (real, Report)>
  {
    if report.None? then tally
    else if report.value.content in tally then
      tally[report.value.content := (tally[report.value.content].0 + weight, tally[report.value.content].1)]
    else tally[report.value.content := (weight, report.value)]
  }

  lemma TallyKeys(reports: seq<Option<Report>>, weights: seq<real>, j: nat, tally: map<Content, (real, Report)>,
                  c: Content)
    requires |reports| == |weights| && j < |reports| && Tallied(reports, weights, j, tally)
    ensures c in Counted(tally, reports[j], weights[j]) <==> exists i :: 0 <= i < j + 1 && Reports(reports[i], c)
  {
    if Reports(reports[j], c) {
      assert 0 <= j < j + 1;
    } else if i :| 0 <= i < j + 1 && Reports(reports[i], c) {
      assert 0 <= i < j;
    }
  }

  lemma TallyStep(reports: seq<Option<Report>>, weights: seq<real>, j: nat, tally: map<Content, (real, Report)>,
                  c: Content)
    requires |reports| == |weights| && j < |reports| && Positive(weights) && Tallied(reports, weights, j, tally)
    requires c in Counted(tally, reports[j], weights[j])
    ensures var entry := Counted(tally, reports[j], weights[j])[c];
      && entry.0 == WeightOf(reports[..j + 1], weights[..j + 1], c)
      && entry.1.content == c && exists i :: IsFirst(reports, i, entry.1)
  {
    WeightStep(reports, weights, c, j);
    if c !in tally {
      NobodyReports(reports, weights, j, c);
      assert IsFirst(reports, j, reports[j].value);
    }
  }

  lemma TallyNext(reports: seq<Option<Report>>, weights: seq<real>, j: nat, tally: map<Content, (real, Report)>)
    requires |reports| == |weights| && j < |reports| && Positive(weights) && Tallied(reports, weights, j, tally)
    ensures Tallied(reports, weights, j + 1, Counted(tally, reports[j], weights[j]))
  {
    var now := Counted(tally, reports[j], weights[j]);
    forall c { TallyKeys(reports, weights, j, tally, c); }
    forall c | c in now { TallyStep(reports, weights, j, tally, c); }
  }

  method TallyReports(reports: seq<Option<Report>>, weights: seq<real>) returns (tally: map<Content, (real, Report)>)
    requires |reports| == |weights| && Positive(weights)
    ensures Tallied(reports, weights, |reports|, tally)
  {
    tally := map[];
    for j := 0 to |reports|
      invariant Tallied(reports, weights, j, tally)
    {
      TallyNext(reports, weights, j, tally);
      if reports[j].Some? {
        var hash := reports[j].value.content;
        if hash !in tally {
          tally := tally[hash := (weights[j], reports[j].value)];
        } else {
          tally := tally[hash := (tally[hash].0 + weights[j], tally[hash].1)];
        }
      }
    }
  }

  /** ---------- the matrix ---------- */

  function ViewOf(views: Views, from: Address, about: Address): Option<Report> {
    if from in views && about in views[from] then Some(views[from][about]) else None
  }

  /** What everybody relays about witness `i`. */
  function WitnessData(views: Views, addresses: seq<Address>, i: nat): (reports: seq<Option<Report>>)
    requires i < |addresses|
    ensures |reports| == |addresses|
    ensures forall j :: 0 <= j < |addresses| ==> reports[j] == ViewOf(views, addresses[j], addresses[i])
  {
    seq(|addresses|, j requires 0 <= j < |addresses| => ViewOf(views, addresses[j], addresses[i]))
  }

  /** A quorum relays `c` from witness `i`. */
  predicate Confirmed(views: Views, addresses: seq<Address>, weights: seq<real>, quorum: real, i: nat, c: Content)
    requires |addresses| == |weights| && i < |addresses|
  {
    WeightOf(WitnessData(views, addresses, i), weights, c) >= quorum
  }

  function ConfirmedFor(views: Views, addresses: seq<Address>, weights: seq<real>, quorum: real,
                        c: Content): (marks: seq<bool>)
    requires |addresses| == |weights|
    ensures |marks| == |addresses|
  {
    seq(|addresses|, i requires 0 <= i < |addresses| => Confirmed(views, addresses, weights, quorum, i, c))
  }

  /** `c` is confirmed for a quorum. */
  predicate Agreed(views: Views, addresses: seq<Address>, weights: seq<real>, quorum: real, c: Content)
    requires |addresses| == |weights|
  {
    Marked(ConfirmedFor(views, addresses, weights, quorum, c), weights) >= quorum
  }

  /** The witnesses marked in `from` relay `c` from witness `i`. */
  ghost predicate Relay(views: Views, addresses: seq<Address>, from: seq<bool>, i: nat, c: Content)
    requires i < |addresses|
  {
    && |from| == |addresses|
    && forall j :: 0 <= j < |from| && from[j] ==>
         addresses[j] in views && addresses[i] in views[addresses[j]] &&
         views[addresses[j]][addresses[i]].content == c
  }

  /** Some witnesses who make up the quorum relay `c` from witness `i`. */
  ghost predicate RelayedByQuorum(views: Views, addresses: seq<Address>, weights: seq<real>, quorum: real, i: nat,
                                  c: Content)
    requires |addresses| == |weights| && i < |addresses|
  {
    exists from :: Relay(views, addresses, from, i, c) && Marked(from, weights) >= quorum
  }

  lemma ConfirmedIff(views: Views, addresses: seq<Address>, weights: seq<real>, quorum: real, i: nat, c: Content)
    requires |addresses| == |weights| && Positive(weights) && i < |addresses|
    ensures Confirmed(views, addresses, weights, quorum, i, c) <==>
      RelayedByQuorum(views, addresses, weights, quorum, i, c)
  {
    var marks := VotesFor(WitnessData(views, addresses, i), c);
    assert Relay(views, addresses, marks, i, c);
    if from :| Relay(views, addresses, from, i, c) && Marked(from, weights) >= quorum {
      MoreMarks(from, marks, weights);
    }
  }

  /** A content is agreed on iff there are witnesses of quorum weight, from each of whom a quorum relays it. */
  lemma {:induction false} AgreedIff(views: Views, addresses: seq<Address>, weights: seq<real>, quorum: real,
                                     c: Content)
    requires |addresses| == |weights| && Positive(weights)
    ensures Agreed(views, addresses, weights, quorum, c) <==>
      exists about :: |about| == |addresses| && Marked(about, weights) >= quorum &&
        forall i :: 0 <= i < |about| && about[i] ==> RelayedByQuorum(views, addresses, weights, quorum, i, c)
  {
    var marks := ConfirmedFor(views, addresses, weights, quorum, c);
    forall i | 0 <= i < |addresses| { ConfirmedIff(views, addresses, weights, quorum, i, c); }
    assert forall i :: 0 <= i < |marks| && marks[i] ==> RelayedByQuorum(views, addresses, weights, quorum, i, c);
    if about :| |about| == |addresses| && Marked(about, weights) >= quorum &&
                forall i :: 0 <= i < |about| && about[i] ==>
                  RelayedByQuorum(views, addresses, weights, quorum, i, c)
    {
      MoreMarks(about, marks, weights);
    }
  }

  /** No two contents are reported by a quorum each. */
  lemma {:induction false} OneMajority(reports: seq<Option<Report>>, weights: seq<real>, quorum: real, c: Content,
                                       d: Content)
    requires |reports| == |weights| && Positive(weights) && 2.0 * quorum > Sum(weights)
    requires WeightOf(reports, weights, c) >= quorum && WeightOf(reports, weights, d) >= quorum
    ensures c == d
  {
    var k := QuorumsMeet(VotesFor(reports, c), VotesFor(reports, d), weights, quorum);
  }

  /** So the outcome of a ballot is determined. */
  lemma {:induction false} MajorityUnique(reports: seq<Option<Report>>, weights: seq<real>, quorum: real,
                                          r: Option<Report>, s: Option<Report>)
    requires |reports| == |weights| && Positive(weights) && 2.0 * quorum > Sum(weights)
    requires IsMajority(reports, weights, quorum, r) && IsMajority(reports, weights, quorum, s)
    ensures r == s
  {
    if r.Some? && s.Some? {
      OneMajority(reports, weights, quorum, r.value.content, s.value.content);
      var i: nat :| IsFirst(reports, i, r.value);
      var j: nat :| IsFirst(reports, j, s.value);
      assert Reports(reports[i], s.value.content) && Reports(reports[j], r.value.content);
    }
  }

  /** The majorities of the rows vote for `c` exactly where `c` is confirmed. */
  lemma {:induction false} VotesAreConfirmations(views: Views, addresses: seq<Address>, weights: seq<real>,
                                                 quorum: real,
                                                 inner: seq<Option<Report>>, c: Content)
    requires |addresses| == |weights| == |inner| && Positive(weights) && 2.0 * quorum > Sum(weights)
    requires forall i :: 0 <= i < |inner| ==> IsMajority(WitnessData(views, addresses, i), weights, quorum, inner[i])
    ensures VotesFor(inner, c) == ConfirmedFor(views, addresses, weights, quorum, c)
  {
    forall i | 0 <= i < |inner|
      ensures Reports(inner[i], c) <==> Confirmed(views, addresses, weights, quorum, i, c)
    {
      var row := WitnessData(views, addresses, i);
      assert IsMajority(row, weights, quorum, inner[i]);
      if inner[i].Some? && WeightOf(row, weights, c) >= quorum {
        OneMajority(row, weights, quorum, inner[i].value.content, c);
      }
    }
  }

  /** So no two contents are agreed on. */
  lemma {:induction false} AgreedUnique(views: Views, addresses: seq<Address>, weights: seq<real>, quorum: real,
                                        c: Content, d: Content)
    requires |addresses| == |weights| && Positive(weights) && 2.0 * quorum > Sum(weights)
    requires Agreed(views, addresses, weights, quorum, c) && Agreed(views, addresses, weights, quorum, d)
    ensures c == d
  {
    var i := QuorumsMeet(ConfirmedFor(views, addresses, weights, quorum, c),
                         ConfirmedFor(views, addresses, weights, quorum, d), weights, quorum);
    OneMajority(WitnessData(views, addresses, i), weights, quorum, c, d);
  }

  lemma {:induction false} OneMark(marks: seq<bool>)
    requires |marks| == 1
    ensures Marked(marks, [1.0]) == if marks[0] then 1.0 else 0.0
  {
    assert marks[..0] == [];
  }

  /** A sole witness agrees with itself, unless its weight is no quorum. */
  lemma {:induction false} SoleAgreed(views: Views, addresses: seq<Address>, quorum: real, c: Content)
    requires |addresses| == 1 && quorum > 0.0
    ensures Agreed(views, addresses, [1.0], quorum, c) <==>
      quorum <= 1.0 && Reports(ViewOf(views, addresses[0], addresses[0]), c)
  {
    OneMark(VotesFor(WitnessData(views, addresses, 0), c));
    OneMark(ConfirmedFor(views, addresses, [1.0], quorum, c));
  }

  /** A consensus was found iff some content is agreed on, and then it is that one. */
  ghost predicate IsConsensus(views: Views, addresses: seq<Address>, weights: seq<real>, quorum: real,
                              r: Option<Report>)
    requires |addresses| == |weights|
  {
    && (r.Some? ==> Agreed(views, addresses, weights, quorum, r.value.content))
    && (r.None? ==> forall c :: !Agreed(views, addresses, weights, quorum, c))
  }

  /** The outcome of the ballots about each witness. */
  ghost predicate Ballots(views: Views, addresses: seq<Address>, weights: seq<real>, quorum: real,
                          votes: seq<Option<Report>>)
    requires |addresses| == |weights|
  {
    && |votes| == |addresses|
    && forall i :: 0 <= i < |votes| ==> IsMajority(WitnessData(views, addresses, i), weights, quorum, votes[i])
  }

  lemma {:induction false} FirstReport(reports: seq<Option<Report>>, c: Content, k: nat) returns (j: nat)
    requires k < |reports| && Reports(reports[k], c)
    ensures j < |reports| && Reports(reports[j], c) && IsFirst(reports, j, reports[j].value)
  {
    if i :| 0 <= i < k && Reports(reports[i], c) {
      j := FirstReport(reports, c, i);
    } else {
      j := k;
    }
  }

  lemma {:induction false} MajorityExists(reports: seq<Option<Report>>, weights: seq<real>, quorum: real)
    returns (r: Option<Report>)
    requires |reports| == |weights| && Positive(weights) && quorum > 0.0
    ensures IsMajority(reports, weights, quorum, r)
  {
    if c :| WeightOf(reports, weights, c) >= quorum {
      MarkedNonNegative(VotesFor(reports, c), weights);
      var k :| 0 <= k < |reports| && VotesFor(reports, c)[k];
      var j := FirstReport(reports, c, k);
      r := reports[j];
    } else {
      r := None;
    }
  }

  lemma BallotsExist(views: Views, addresses: seq<Address>, weights: seq<real>, quorum: real)
    requires |addresses| == |weights| && Positive(weights) && quorum > 0.0
    ensures exists votes :: Ballots(views, addresses, weights, quorum, votes)
  {
    var votes := [];
    for i := 0 to |addresses|
      invariant |votes| == i
      invariant forall k :: 0 <= k < i ==> IsMajority(WitnessData(views, addresses, k), weights, quorum, votes[k])
    {
      var r := MajorityExists(WitnessData(views, addresses, i), weights, quorum);
      votes := votes + [r];
    }
    assert Ballots(views, addresses, weights, quorum, votes);
  }

  ghost function BallotsOf(views: Views, addresses: seq<Address>, weights: seq<real>, quorum: real): seq<Option<Report>>
    requires |addresses| == |weights| && Positive(weights) && quorum > 0.0
  {
    BallotsExist(views, addresses, weights, quorum);
    var votes :| Ballots(views, addresses, weights, quorum, votes);
    votes
  }

  /** The ballots are determined. */
  lemma {:induction false} BallotsUnique(views: Views, addresses: seq<Address>, weights: seq<real>, quorum: real,
                                         votes: seq<Option<Report>>)
    requires |addresses| == |weights| && Positive(weights) && 2.0 * quorum > Sum(weights) && quorum > 0.0
    ensures Ballots(views, addresses, weights, quorum, votes) <==> votes == BallotsOf(views, addresses, weights, quorum)
  {
    BallotsExist(views, addresses, weights, quorum);
    var others := BallotsOf(views, addresses, weights, quorum);
    assert Ballots(views, addresses, weights, quorum, others);
    if Ballots(views, addresses, weights, quorum, votes) {
      forall i | 0 <= i < |votes|
        ensures votes[i] == others[i]
      {
        MajorityUnique(WitnessData(views, addresses, i), weights, quorum, votes[i], others[i]);
      }
    }
  }

  method BallotsAbout(views: Views, addresses: seq<Address>, weights: seq<real>, quorum: real)
    returns (votes: seq<Option<Report>>)
    requires |addresses| == |weights| && Positive(weights) && quorum > 0.0
    ensures Ballots(views, addresses, weights, quorum, votes)
  {
    votes := [];
    for i := 0 to |addresses|
      invariant |votes| == i
      invariant forall k :: 0 <= k < i ==> IsMajority(WitnessData(views, addresses, k), weights, quorum, votes[k])
    {
      var value := Majority(WitnessData(views, addresses, i), weights, quorum);
      votes := votes + [value];
    }
  }

  method Consensus(views: Views, addresses: seq<Address>, weights: seq<real>, quorum: real) returns (r: Option<Report>)
    requires |addresses| == |weights| && Positive(weights) && 2.0 * quorum > Sum(weights) && quorum > 0.0
    ensures IsConsensus(views, addresses, weights, quorum, r)
  {
    var inner := BallotsAbout(views, addresses, weights, quorum);
    r := Majority(inner, weights, quorum);
    forall c
      ensures Agreed(views, addresses, weights, quorum, c) <==> WeightOf(inner, weights, c) >= quorum
    {
      VotesAreConfirmations(views, addresses, weights, quorum, inner, c);
    }
  }

  /** ---------- agreement ---------- */

  predicate ConfirmedAtBoth(a: Views, b: Views, addresses: seq<Address>, weights: seq<real>, quorum: real,
                            i: nat, c: Content, d: Content)
    requires |addresses| == |weights|
  {
    i < |addresses| && Confirmed(a, addresses, weights, quorum, i, c) && Confirmed(b, addresses, weights, quorum, i, d)
  }

  /**
    If two nodes agree on different contents, some witness was confirmed at both with the
    different contents; and for each such witness somebody relayed its reports differently.
   */
  lemma DisagreementNeedsTwoStories(a: Views, b: Views, addresses: seq<Address>, weights: seq<real>, quorum: real,
                                    c: Content, d: Content) returns (i: nat)
    requires |addresses| == |weights| && Positive(weights) && 2.0 * quorum > Sum(weights)
    requires Agreed(a, addresses, weights, quorum, c) && Agreed(b, addresses, weights, quorum, d)
    ensures ConfirmedAtBoth(a, b, addresses, weights, quorum, i, c, d)
    ensures forall k: nat :: ConfirmedAtBoth(a, b, addresses, weights, quorum, k, c, d) ==>
      exists j: nat :: RelaysBoth(a, b, addresses, j, k, c, d)
  {
    i := QuorumsMeet(ConfirmedFor(a, addresses, weights, quorum, c), ConfirmedFor(b, addresses, weights, quorum, d),
                     weights, quorum);
    forall k: nat | ConfirmedAtBoth(a, b, addresses, weights, quorum, k, c, d)
      ensures exists j: nat :: RelaysBoth(a, b, addresses, j, k, c, d)
    {
      var j := QuorumsMeet(VotesFor(WitnessData(a, addresses, k), c), VotesFor(WitnessData(b, addresses, k), d),
                           weights, quorum);
      assert RelaysBoth(a, b, addresses, j, k, c, d);
    }
  }

  /** Witness `j` told one node that `i` reports `c` and the other that it reports `d`. */
  predicate RelaysBoth(a: Views, b: Views, addresses: seq<Address>, j: nat, i: nat, c: Content, d: Content) {
    && j < |addresses| && i < |addresses|
    && Reports(ViewOf(a, addresses[j], addresses[i]), c)
    && Reports(ViewOf(b, addresses[j], addresses[i]), d)
  }

  /** Nobody tells the two nodes different things. */
  ghost predicate Consistent(a: Views, b: Views, addresses: seq<Address>) {
    forall j: nat, i: nat, c, d :: RelaysBoth(a, b, addresses, j, i, c, d) ==> c == d
  }

  /** Nodes that hear consistent reports agree on the same content. */
  lemma {:induction false} ConsistentNodesAgree(a: Views, b: Views, addresses: seq<Address>, weights: seq<real>,
                                                quorum: real,
                                                c: Content, d: Content)
    requires |addresses| == |weights| && Positive(weights) && 2.0 * quorum > Sum(weights)
    requires Agreed(a, addresses, weights, quorum, c) && Agreed(b, addresses, weights, quorum, d)
    requires Consistent(a, b, addresses)
    ensures c == d
  {
    var i := DisagreementNeedsTwoStories(a, b, addresses, weights, quorum, c, d);
    var j: nat :| RelaysBoth(a, b, addresses, j, i, c, d);
  }
}
