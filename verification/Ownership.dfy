/**
  Whose coins are whose: an output is spent by nobody but the address it pays. The laws are said
  over the proofs a transfer carries, for one transfer, for a block and for any run of the node.
 */
module Ownership {
  import opened Wrappers
  import opened Collections
  import opened Ledger
  import opened Patches
  import opened Refinement
  import opened Execution
  import opened PendingDag
  import opened Finality
  import opened NodeRun

  /** ---------- one transfer ---------- */

  /** With claim proofs, that of input `k` is of `owner`; without, the whole transfer is signed by `owner`. */
  ghost predicate ProvedBy(tx: Tx, k: nat, owner: Address) {
    && (|tx.claimProofs| > 0 ==> k < |tx.claimProofs| && tx.claimProofs[k] == owner)
    && (|tx.claimProofs| == 0 ==> tx.txSigner.Some? && tx.txSigner.value == owner)
  }

  /** `a` proved nothing in `tx`. */
  ghost predicate Silent(tx: Tx, a: Address) {
    a !in tx.claimProofs && tx.txSigner != Some(a)
  }

  /** A transfer is accepted iff it spends unspent outputs, each once and by its owner, and pays its way. */
  lemma {:induction false} AcceptsIff(coins: Coins, tx: Tx, sizeFee: nat)
    ensures Accepts(coins, tx, sizeFee) <==>
      && tx.outputs != [] && AmountIn(coins, tx.inputs) > AmountOut(tx.outputs) + sizeFee
      && (forall i, j :: 0 <= i < j < |tx.inputs| ==> tx.inputs[i] != tx.inputs[j])
      && forall k :: 0 <= k < |tx.inputs| ==>
           tx.inputs[k] in coins && ProvedBy(tx, k, coins[tx.inputs[k]].receiver)
  {
  }

  /** The inputs of a transfer can be processed iff they are unspent outputs, each used once and by its owner. */
  lemma SpendableIff(u: Utxos, tx: Tx)
    ensures CanSpend(u, tx) <==>
      && (forall i, j :: 0 <= i < j < |tx.inputs| ==> tx.inputs[i] != tx.inputs[j])
      && forall k :: 0 <= k < |tx.inputs| ==>
           var o := tx.inputs[k];
           o.txHash in u && o.idx in u[o.txHash] && ProvedBy(tx, k, u[o.txHash][o.idx].receiver)
  {
    forall k: nat | k < |tx.inputs|
      ensures InputOk(u, tx, k) <==>
        var o := tx.inputs[k];
        o.txHash in u && o.idx in u[o.txHash] && ProvedBy(tx, k, u[o.txHash][o.idx].receiver)
    {
    }
  }

  /** ---------- one block ---------- */

  /** Input `k` of `t` consumes output `i` of `h`, and the address that this pays has proved it. */
  ghost predicate SpendsOwn(T: TxTable, t: Hash, k: nat, h: Hash, i: nat) {
    && t in T && k < |T[t].inputs| && T[t].inputs[k] == OutPoint(h, i)
    && h in T && i in Outputs(T, h) && ProvedBy(T[t], k, Outputs(T, h)[i].receiver)
  }

  /** All that `t` consumes it consumes for its owners. */
  ghost predicate Honest(T: TxTable, t: Hash) {
    forall h, i :: Consumes(T, t, h, i) ==> exists k :: SpendsOwn(T, t, k, h, i)
  }

  lemma AcceptedHonest(T: TxTable, D: set<Hash>, t: Hash, sizeFee: nat)
    requires History(T, D) && t in T && Accepts(Denote(T, D), T[t], sizeFee)
    ensures Honest(T, t)
  {
    AcceptsIff(Denote(T, D), T[t], sizeFee);
    forall h, i | Consumes(T, t, h, i)
      ensures exists k :: SpendsOwn(T, t, k, h, i)
    {
      var k :| 0 <= k < |T[t].inputs| && T[t].inputs[k] == OutPoint(h, i);
      DenoteAt(T, D, h, i);
      assert SpendsOwn(T, t, k, h, i);
    }
  }

  /** `l` is stuck, or all of `txs` are honest. */
  ghost predicate Honestly(T: TxTable, txs: seq<Hash>, l: Option<(Coins, nat)>) {
    l.Some? ==> forall t :: t in txs ==> Honest(T, t)
  }

  lemma NextHonest(T: TxTable, D: set<Hash>, txs: seq<Hash>, l: Option<(Coins, nat)>, t: Hash, cid: nat, sizeFee: nat)
    requires Follows(T, D, txs, l) && Honestly(T, txs, l)
    ensures Honestly(T, txs + [t], ApplyNext(T, l, t, cid, sizeFee))
  {
    if ApplyNext(T, l, t, cid, sizeFee).Some? {
      AcceptedHonest(T, D, t, sizeFee);
    }
  }

  lemma {:induction false} TransfersHonest(T: TxTable, D: set<Hash>, txs: seq<Hash>, cid: nat, sizeFee: Hash -> nat)
    requires History(T, D)
    ensures Honestly(T, txs, ApplyTxs(T, Denote(T, D), txs, cid, sizeFee))
  {
    if txs != [] {
      var init, t := txs[..|txs| - 1], txs[|txs| - 1];
      TransfersHonest(T, D, init, cid, sizeFee);
      TransfersOnly(T, D, init, cid, sizeFee);
      NextHonest(T, D + Executed(init), init, ApplyTxs(T, Denote(T, D), init, cid, sizeFee), t, cid, sizeFee(t));
      assert txs == init + [t];
    }
  }

  /** The transactions of a block that the plain ledger accepts spend for the owners only. */
  lemma BlockHonest(T: TxTable, D: set<Hash>, txs: seq<Hash>, cid: nat, sizeFee: Hash -> nat)
    requires History(T, D) && ApplyBlock(T, Denote(T, D), txs, cid, sizeFee).Some?
    ensures forall t :: t in txs ==> Honest(T, t)
  {
    TransfersHonest(T, D, txs[1..], cid, sizeFee);
    assert txs == [txs[0]] + txs[1..];
  }

  lemma OthersSpend(T: TxTable, t: Hash, a: Address, h: Hash, i: nat)
    requires Honest(T, t) && t in T && Silent(T[t], a) && Consumes(T, t, h, i)
    ensures h in T && i in Outputs(T, h) && Outputs(T, h)[i].receiver != a
  {
    var k :| SpendsOwn(T, t, k, h, i);
  }

  /** An output that is gone, though nothing new that was executed proves to be of `a`, does not pay `a`. */
  lemma {:induction false} SilentKeeps(T: TxTable, D: set<Hash>, E: set<Hash>, a: Address, o: OutPoint)
    requires D <= E <= T.Keys && forall t :: t in E && t !in D ==> Honest(T, t) && Silent(T[t], a)
    requires o in Denote(T, D) && Denote(T, D)[o].receiver == a
    ensures o in Denote(T, E) && Denote(T, E)[o] == Denote(T, D)[o]
  {
    var h, i := o.txHash, o.idx;
    assert o == OutPoint(h, i);
    DenoteAt(T, D, h, i);
    DenoteAt(T, E, h, i);
    forall t | t in E
      ensures !Consumes(T, t, h, i)
    {
      if t in D {
        assert !Consumed(T, D, h, i);
      } else if Consumes(T, t, h, i) {
        OthersSpend(T, t, a, h, i);
      }
    }
  }

  /** ---------- runs ---------- */

  /** Some block that arrived holds `t`, and all that `t` consumes it consumes for its owners. */
  ghost predicate Arrived(T: TxTable, arrivals: seq<Arrival>, t: Hash) {
    Honest(T, t) && exists i :: 0 <= i < |arrivals| && t in arrivals[i].blk.txs
  }

  /** What is new in a history arrived in blocks, and is honest. */
  ghost predicate AllArrived(T: TxTable, S: set<Hash>, arrivals: seq<Arrival>, D: set<Hash>) {
    forall t :: t in D ==> t in S || Arrived(T, arrivals, t)
  }

  ghost predicate StoryArrived(T: TxTable, S: set<Hash>, arrivals: seq<Arrival>, g: Story) {
    AllArrived(T, S, arrivals, g.final) && forall v :: v in g.pending ==> AllArrived(T, S, arrivals, g.pending[v])
  }

  lemma StillArrived(T: TxTable, S: set<Hash>, arrivals: seq<Arrival>, a: Arrival, D: set<Hash>)
    requires AllArrived(T, S, arrivals, D)
    ensures AllArrived(T, S, arrivals + [a], D)
  {
    forall t | t in D && t !in S
      ensures Arrived(T, arrivals + [a], t)
    {
      var i :| 0 <= i < |arrivals| && t in arrivals[i].blk.txs;
      assert (arrivals + [a])[i] == arrivals[i];
    }
  }

  lemma NewArrived(T: TxTable, S: set<Hash>, st: NodeState, g: Story, arrivals: seq<Arrival>, a: Arrival)
    requires NodeOk(T, st, g) && FreshCoinbase(T, st, g, a.blk) && Executes(T, st, a.blk, a.sizeFee)
    ensures AllArrived(T, S, arrivals + [a], Executed(a.blk.txs))
  {
    ExecuteRefines(T, st, g, a.blk, a.sizeFee);
    OnlyPendingIn(st.pending.dag, a.blk.parents);
    MergeVertices(T, g.final, st.pending, g.pending, OnlyPending(st.pending.dag, a.blk.parents));
    BlockHonest(T, ParentsHistory(st, g, a.blk), a.blk.txs, a.blk.conciliumId, a.sizeFee);
    assert (arrivals + [a])[|arrivals|] == a;
  }

  lemma ManyArrived(T: TxTable, S: set<Hash>, arrivals: seq<Arrival>, F: set<Hash>, D: map<Hash, set<Hash>>,
                    vs: seq<Hash>)
    requires AllArrived(T, S, arrivals, F) && forall v :: v in D ==> AllArrived(T, S, arrivals, D[v])
    ensures AllArrived(T, S, arrivals, HistoryOf(F, D, vs))
  {
    forall t | t in HistoryOf(F, D, vs) && t !in F
      ensures t in S || Arrived(T, arrivals, t)
    {
      var v :| v in vs && v in D && t in D[v];
    }
  }

  lemma AcceptArrived(T: TxTable, S: set<Hash>, st: NodeState, g: Story, arrivals: seq<Arrival>, a: Arrival,
                      tops: seq<Hash>, g': Story)
    requires StoryArrived(T, S, arrivals + [a], g) && AllArrived(T, S, arrivals + [a], Executed(a.blk.txs))
    requires SettlesWith(st, g, a.blk, tops, g')
    ensures StoryArrived(T, S, arrivals + [a], g')
  {
    ManyArrived(T, S, arrivals + [a], g.final, g.pending, OnlyPending(st.pending.dag, a.blk.parents));
    var joined := g.pending[a.blk.hash := ParentsHistory(st, g, a.blk) + Executed(a.blk.txs)];
    ManyArrived(T, S, arrivals + [a], g.final, joined, tops);
  }

  lemma StepArrived(T: TxTable, S: set<Hash>, st: NodeState, g: Story, arrivals: seq<Arrival>, a: Arrival,
                    st': NodeState, g': Story)
    requires NodeOk(T, st, g) && FreshCoinbase(T, st, g, a.blk) && StoryArrived(T, S, arrivals, g)
    requires StepTold(T, st, g, a.blk, a.sizeFee, a.conciliums, st', g')
    ensures StoryArrived(T, S, arrivals + [a], g')
  {
    StillArrived(T, S, arrivals, a, g.final);
    forall v | v in g.pending { StillArrived(T, S, arrivals, a, g.pending[v]); }
    if Executes(T, st, a.blk, a.sizeFee) {
      var tops :| AcceptedTold(T, st, g, a.blk, a.sizeFee, a.conciliums, tops, st', g');
      NewArrived(T, S, st, g, arrivals, a);
      AcceptArrived(T, S, st, g, arrivals, a, tops, g');
    }
  }

  /** In every state of every run, what was executed since the start spends for the owners only. */
  lemma {:induction false} RunHonest(T: TxTable, states: seq<NodeState>, stories: seq<Story>, arrivals: seq<Arrival>,
                                     k: nat)
    requires IsRun(T, states, stories, arrivals) && NodeOk(T, states[0], stories[0]) && stories[0].pending == map[]
    requires k < |states|
    ensures StoryArrived(T, stories[0].final, arrivals[..k], stories[k])
  {
    if k > 0 {
      var a := arrivals[k - 1];
      RunHonest(T, states, stories, arrivals, k - 1);
      RunKeeps(T, states, stories, arrivals, k - 1);
      assert IsStep(T, states, stories, arrivals, k - 1);
      assert arrivals[..k] == arrivals[..k - 1] + [a];
      StepArrived(T, stories[0].final, states[k - 1], stories[k - 1], arrivals[..k - 1], a, states[k], stories[k]);
    }
  }

  /** No transaction of the blocks that arrived proves anything as `a`. */
  ghost predicate NeverSigns(T: TxTable, arrivals: seq<Arrival>, a: Address) {
    forall i, t :: 0 <= i < |arrivals| && t in arrivals[i].blk.txs && t in T ==> Silent(T[t], a)
  }

  lemma {:induction false} HistoryKeeps(T: TxTable, S: set<Hash>, arrivals: seq<Arrival>, D: set<Hash>, a: Address,
                                        o: OutPoint)
    requires S <= D <= T.Keys && AllArrived(T, S, arrivals, D) && NeverSigns(T, arrivals, a)
    requires o in Denote(T, S) && Denote(T, S)[o].receiver == a
    ensures o in Denote(T, D) && Denote(T, D)[o] == Denote(T, S)[o]
  {
    forall t | t in D && t !in S
      ensures Honest(T, t) && Silent(T[t], a)
    {
      assert Arrived(T, arrivals, t);
    }
    SilentKeeps(T, S, D, a, o);
  }

  /**
    Over any run, an output whose owner signs none of the transactions that arrive stays as it
    is: in the storage, and for whoever reads through a pending block.
   */
  lemma OwnCoinsStay(T: TxTable, states: seq<NodeState>, stories: seq<Story>, arrivals: seq<Arrival>, k: nat,
                     a: Address, o: OutPoint)
    requires IsRun(T, states, stories, arrivals) && NodeOk(T, states[0], stories[0]) && stories[0].pending == map[]
    requires k < |states| && NeverSigns(T, arrivals[..k], a)
    requires o in Flatten(states[0].utxos) && Flatten(states[0].utxos)[o].receiver == a
    ensures o in Flatten(states[k].utxos) && Flatten(states[k].utxos)[o] == Flatten(states[0].utxos)[o]
    ensures forall v :: v in states[k].pending.dag ==>
      var read := Flatten(View(states[k].pending.patches[v], states[k].utxos));
      o in read && read[o] == Flatten(states[0].utxos)[o]
  {
    var S, g := stories[0].final, stories[k];
    RunKeeps(T, states, stories, arrivals, k);
    RunHonest(T, states, stories, arrivals, k);
    StateIsLedger(T, states[0], stories[0]);
    StateIsLedger(T, states[k], g);
    HistoryKeeps(T, S, arrivals[..k], g.final, a, o);
    forall v | v in states[k].pending.dag
      ensures o in Denote(T, g.pending[v]) && Denote(T, g.pending[v])[o] == Denote(T, S)[o]
    {
      HistoryKeeps(T, S, arrivals[..k], g.pending[v], a, o);
    }
  }
}
