/**
  Where the coins of a running node come from: the total read through any pending block, and that
  of the storage, is what the node started with and what was executed more than once made of it:
  the fees of transfers that paid them again, less what coinbases were counted to pay out again.
 */
module RunTotals {
  import opened Wrappers
  import opened Ledger
  import opened Patches
  import opened Refinement
  import opened Execution
  import opened Conservation
  import opened MergeTotals
  import opened PendingDag
  import opened Finality
  import opened NodeRun
  import opened RunLog
  import opened Ancestry

  /** ---------- steps ---------- */

  /** The arrival as it is executed. */
  function TurnFor(st: NodeState, g: Story, a: Arrival): Turn {
    Turn(ParentsHistory(st, g, a.blk), a.blk.txs, a.blk.conciliumId, a.sizeFee)
  }

  /** The trace once a block was accepted and `tops` were settled. */
  function AcceptedTrace(tr: Trace, st: NodeState, g: Story, a: Arrival, tops: seq<Hash>, left: set<Hash>): Trace {
    Settling(Joining(tr, TurnFor(st, g, a), a.blk.hash, Below(tr, st, a.blk)), tops, left)
  }

  lemma {:induction false} BelowExplained(T: TxTable, S: set<Hash>, st: NodeState, g: Story, blk: Block, tr: Trace)
    requires NodeOk(T, st, g) && TraceOk(T, S, g, tr)
    ensures Explains(S, tr.log, tr.accepted, Below(tr, st, blk), ParentsHistory(st, g, blk))
    ensures ParentsHistory(st, g, blk) <= Made(S, tr.log, tr.accepted)
  {
    var parents := OnlyPending(st.pending.dag, blk.parents);
    OnlyPendingIn(st.pending.dag, blk.parents);
    ExplainsMany(S, tr, tr.final, tr.pending, g.final, g.pending, parents);
    MadeByMore(S, tr.log, Below(tr, st, blk), tr.accepted);
  }

  /** A block that executes was accepted by the plain ledger on its parents' history. */
  lemma AcceptedTurn(T: TxTable, st: NodeState, g: Story, a: Arrival, E: set<Hash>)
    requires NodeOk(T, st, g) && FreshCoinbase(T, st, g, a.blk) && Executes(T, st, a.blk, a.sizeFee)
    requires ParentsHistory(st, g, a.blk) <= E
    ensures TurnOk(T, TurnFor(st, g, a), E)
  {
    ExecuteRefines(T, st, g, a.blk, a.sizeFee);
    OnlyPendingIn(st.pending.dag, a.blk.parents);
    MergeVertices(T, g.final, st.pending, g.pending, OnlyPending(st.pending.dag, a.blk.parents));
  }

  lemma {:induction false} AcceptTraced(T: TxTable, S: set<Hash>, st: NodeState, g: Story, a: Arrival,
                                        tops: seq<Hash>, g': Story,
                                        tr: Trace)
    requires TraceOk(T, S, g, tr) && a.blk.hash !in g.pending
    requires Explains(S, tr.log, tr.accepted, Below(tr, st, a.blk), ParentsHistory(st, g, a.blk))
    requires TurnOk(T, TurnFor(st, g, a), Made(S, tr.log, tr.accepted))
    requires SettlesWith(st, g, a.blk, tops, g')
    ensures TraceOk(T, S, g', AcceptedTrace(tr, st, g, a, tops, g'.pending.Keys))
  {
    var turn, below := TurnFor(st, g, a), Below(tr, st, a.blk);
    Joins(T, S, g, tr, turn, a.blk.hash, below);
    SettlesTrace(T, S, Story(g.final, g.pending[a.blk.hash := turn.below + Executed(turn.txs)]),
                 Joining(tr, turn, a.blk.hash, below), tops, g');
  }

  /** ---------- runs ---------- */

  /** The log has a block for every arrival. */
  ghost predicate Logs(log: seq<Turn>, arrivals: seq<Arrival>) {
    |log| == |arrivals| && forall i: nat :: i < |log| ==> LoggedAs(log[i], arrivals[i])
  }

  ghost predicate LoggedAs(turn: Turn, a: Arrival) {
    turn.txs == a.blk.txs && turn.cid == a.blk.conciliumId && turn.sizeFee == a.sizeFee
  }

  lemma LogsOneMore(log: seq<Turn>, arrivals: seq<Arrival>, turn: Turn, k: nat)
    requires k < |arrivals| && Logs(log, arrivals[..k]) && LoggedAs(turn, arrivals[k])
    ensures Logs(log + [turn], arrivals[..k + 1])
  {
  }

  /** The arrivals whose blocks were accepted. */
  ghost function AcceptedIn(T: TxTable, states: seq<NodeState>, arrivals: seq<Arrival>): set<nat>
    requires |states| == |arrivals| + 1 && forall k :: 0 <= k < |states| ==> ValidPending(states[k].pending)
  {
    set i | 0 <= i < |arrivals| && ValidPending(states[i].pending) &&
            Executes(T, states[i], arrivals[i].blk, arrivals[i].sizeFee)
  }

  /**
    The histories after the first `k` arrivals: they are those of accepted blocks only, the final
    one of the final blocks and all below them, and each pending one of these, the block, and all
    below it.
   */
  ghost predicate TracedAt(T: TxTable, S: set<Hash>, states: seq<NodeState>, stories: seq<Story>,
                           arrivals: seq<Arrival>,
                           k: nat, tr: Trace)
    requires |states| == |stories| == |arrivals| + 1 && k < |states|
    requires forall k :: 0 <= k < |states| ==> ValidPending(states[k].pending)
  {
    var accepted := AcceptedIn(T, states, arrivals);
    && Logs(tr.log, arrivals[..k]) && tr.accepted == UpTo(accepted, k)
    && TraceOk(T, S, stories[k], tr) && Kin(arrivals, accepted, states[k], tr)
  }

  lemma AcceptStep(T: TxTable, S: set<Hash>, states: seq<NodeState>, stories: seq<Story>, arrivals: seq<Arrival>,
                   k: nat,
                   tops: seq<Hash>, tr: Trace) returns (tr': Trace)
    requires IsRun(T, states, stories, arrivals) && k < |arrivals| && NodeOk(T, states[k], stories[k])
    requires TracedAt(T, S, states, stories, arrivals, k, tr)
    requires FreshCoinbase(T, states[k], stories[k], arrivals[k].blk)
    requires Executes(T, states[k], arrivals[k].blk, arrivals[k].sizeFee)
    requires AcceptedTold(T, states[k], stories[k], arrivals[k].blk, arrivals[k].sizeFee, arrivals[k].conciliums, tops,
                          states[k + 1], stories[k + 1])
    ensures TracedAt(T, S, states, stories, arrivals, k + 1, tr')
  {
    var st, g, a, accepted := states[k], stories[k], arrivals[k], AcceptedIn(T, states, arrivals);
    var p := ExecuteBlock(T, st, a.blk, a.sizeFee).value;
    var turn := TurnFor(st, g, a);
    tr' := AcceptedTrace(tr, st, g, a, tops, stories[k + 1].pending.Keys);
    BelowExplained(T, S, st, g, a.blk, tr);
    AcceptedTurn(T, st, g, a, Made(S, tr.log, tr.accepted));
    AcceptTraced(T, S, st, g, a, tops, stories[k + 1], tr);
    JoinKin(arrivals, accepted, k, st, tr, turn, p);
    SettleKin(arrivals, accepted, Joined(st, a.blk, p), Joining(tr, turn, a.blk.hash, Below(tr, st, a.blk)), a.blk.hash,
              a.conciliums, tops, states[k + 1]);
    LogsOneMore(tr.log, arrivals, turn, k);
  }

  lemma IgnoreStep(T: TxTable, S: set<Hash>, states: seq<NodeState>, stories: seq<Story>, arrivals: seq<Arrival>,
                   k: nat,
                   tr: Trace) returns (tr': Trace)
    requires IsRun(T, states, stories, arrivals) && k < |arrivals|
    requires TracedAt(T, S, states, stories, arrivals, k, tr)
    requires !Executes(T, states[k], arrivals[k].blk, arrivals[k].sizeFee) && stories[k + 1] == stories[k]
    requires states[k + 1] == states[k] || states[k + 1] == Rejected(states[k], arrivals[k].blk.hash)
    ensures TracedAt(T, S, states, stories, arrivals, k + 1, tr')
  {
    var accepted, a := AcceptedIn(T, states, arrivals), arrivals[k];
    var turn := Turn({}, a.blk.txs, a.blk.conciliumId, a.sizeFee);
    tr' := Logged(tr, turn);
    assert UpTo(accepted, k + 1) == UpTo(accepted, k);
    Ignored(T, S, stories[k], tr, turn);
    IgnoredKin(arrivals, accepted, states[k], tr, turn, states[k + 1]);
    LogsOneMore(tr.log, arrivals, turn, k);
  }

  lemma StepTraced(T: TxTable, S: set<Hash>, states: seq<NodeState>, stories: seq<Story>, arrivals: seq<Arrival>,
                   k: nat,
                   tr: Trace) returns (tr': Trace)
    requires IsRun(T, states, stories, arrivals) && k < |arrivals| && NodeOk(T, states[k], stories[k])
    requires TracedAt(T, S, states, stories, arrivals, k, tr)
    ensures TracedAt(T, S, states, stories, arrivals, k + 1, tr')
  {
    var a := arrivals[k];
    assert IsStep(T, states, stories, arrivals, k);
    if Executes(T, states[k], a.blk, a.sizeFee) {
      var tops :| AcceptedTold(T, states[k], stories[k], a.blk, a.sizeFee, a.conciliums, tops,
                               states[k + 1], stories[k + 1]);
      tr' := AcceptStep(T, S, states, stories, arrivals, k, tops, tr);
    } else {
      tr' := IgnoreStep(T, S, states, stories, arrivals, k, tr);
    }
  }

  lemma StartTraced(T: TxTable, states: seq<NodeState>, stories: seq<Story>, arrivals: seq<Arrival>) returns (tr: Trace)
    requires IsRun(T, states, stories, arrivals) && NodeOk(T, states[0], stories[0]) && stories[0].pending == map[]
    ensures TracedAt(T, stories[0].final, states, stories, arrivals, 0, tr)
  {
    tr := Trace([], {}, {}, map[]);
    assert UpTo(AcceptedIn(T, states, arrivals), 0) == {};
    assert states[0].pending.dag.Keys == {};
  }

  /** Over any run, every history is that of the blocks that it should be. */
  lemma {:induction false} RunTraced(T: TxTable, states: seq<NodeState>, stories: seq<Story>, arrivals: seq<Arrival>,
                                     k: nat) returns (tr: Trace)
    requires IsRun(T, states, stories, arrivals) && NodeOk(T, states[0], stories[0]) && stories[0].pending == map[]
    requires k < |states|
    ensures NodeOk(T, states[k], stories[k])
    ensures TracedAt(T, stories[0].final, states, stories, arrivals, k, tr)
  {
    RunKeeps(T, states, stories, arrivals, k);
    if k == 0 {
      tr := StartTraced(T, states, stories, arrivals);
    } else {
      var before := RunTraced(T, states, stories, arrivals, k - 1);
      tr := StepTraced(T, stories[0].final, states, stories, arrivals, k - 1, before);
    }
  }

  /** ---------- totals ---------- */

  /** Beyond `start`, `total` has the fees paid again, less the payouts counted again, of the blocks at `places`. */
  ghost predicate Accounts(T: TxTable, S: set<Hash>, log: seq<Turn>, places: set<nat>, start: nat, total: nat) {
    var turns := Chosen(log, places);
    total + RepeatedPayouts(T, S, turns) == start + RepeatedFees(T, S, turns)
  }

  lemma {:induction false} ExplainedTotal(T: TxTable, S: set<Hash>, tr: Trace, indices: set<nat>, D: set<Hash>)
    requires History(T, S) && LogOk(T, S, tr.log, tr.accepted) && NoDoubleSpend(T, D)
    requires Explains(S, tr.log, tr.accepted, indices, D)
    ensures D <= T.Keys && Accounts(T, S, tr.log, indices, Total(Denote(T, S)), Total(Denote(T, D)))
  {
    ChosenOk(T, S, tr.log, tr.accepted, indices);
    MadeByChosen(S, tr.log, indices);
    TurnsTotal(T, S, Chosen(tr.log, indices));
  }

  lemma StoredTotal(T: TxTable, st: NodeState, g: Story)
    requires NodeOk(T, st, g)
    ensures Total(Flatten(st.utxos)) == Total(Denote(T, g.final)) && History(T, g.final)
  {
    StateIsLedger(T, st, g);
  }

  lemma PendingTotal(T: TxTable, S: set<Hash>, st: NodeState, g: Story, tr: Trace, v: Hash)
    requires NodeOk(T, st, g) && History(T, S) && TraceOk(T, S, g, tr) && v in st.pending.dag
    ensures v in tr.pending
    ensures Accounts(T, S, tr.log, tr.pending[v], Total(Denote(T, S)),
                     Total(Flatten(View(st.pending.patches[v], st.utxos))))
  {
    StateIsLedger(T, st, g);
    assert Represents(T, g.final, g.pending[v], st.pending.patches[v]);
    ExplainedTotal(T, S, tr, tr.pending[v], g.pending[v]);
  }

  /**
    The total of the storage is accounted for by the final blocks and all below them; that read
    through each pending block by these, the block, and all below it.
   */
  ghost predicate TotalsAccounted(T: TxTable, S: set<Hash>, start: nat, arrivals: seq<Arrival>, accepted: set<nat>,
                                  k: nat, st: NodeState, log: seq<Turn>)
    requires Bound(arrivals, UpTo(accepted, k))
  {
    var placed := UpTo(accepted, k);
    var final := AncestorsOf(arrivals, accepted, placed, st.final);
    && Accounts(T, S, log, final, start, Total(Flatten(st.utxos)))
    && forall v :: v in st.pending.dag && v in st.pending.patches ==> exists j ::
         && IsAt(arrivals, placed, j, v)
         && Accounts(T, S, log, final + Ancestors(arrivals, accepted, j), start,
                     Total(Flatten(View(st.pending.patches[v], st.utxos))))
  }

  lemma {:induction false} TracedTotals(T: TxTable, S: set<Hash>, states: seq<NodeState>, stories: seq<Story>,
                                        arrivals: seq<Arrival>, k: nat, tr: Trace)
    requires IsRun(T, states, stories, arrivals) && k < |states| && NodeOk(T, states[k], stories[k])
    requires History(T, S) && TracedAt(T, S, states, stories, arrivals, k, tr)
    ensures TotalsAccounted(T, S, Total(Denote(T, S)), arrivals, AcceptedIn(T, states, arrivals), k, states[k], tr.log)
  {
    var st, accepted := states[k], AcceptedIn(T, states, arrivals);
    StoredTotal(T, st, stories[k]);
    ExplainedTotal(T, S, tr, tr.final, stories[k].final);
    forall v | v in st.pending.dag
      ensures exists j ::
        && IsAt(arrivals, UpTo(accepted, k), j, v)
        && Accounts(T, S, tr.log, tr.final + Ancestors(arrivals, accepted, j), Total(Denote(T, S)),
                    Total(Flatten(View(st.pending.patches[v], st.utxos))))
    {
      var j := PlaceFound(arrivals, accepted, st, tr, v);
      PendingTotal(T, S, st, stories[k], tr, v);
      assert IsAt(arrivals, UpTo(accepted, k), j, v);
    }
  }

  /** In every state of every run, what was executed again accounts for all totals. */
  lemma RunTotal(T: TxTable, states: seq<NodeState>, stories: seq<Story>, arrivals: seq<Arrival>, k: nat)
    returns (log: seq<Turn>)
    requires IsRun(T, states, stories, arrivals) && NodeOk(T, states[0], stories[0]) && stories[0].pending == map[]
    requires k < |states|
    ensures Logs(log, arrivals[..k])
    ensures TotalsAccounted(T, stories[0].final, Total(Flatten(states[0].utxos)), arrivals,
                            AcceptedIn(T, states, arrivals), k, states[k], log)
  {
    var tr := RunTraced(T, states, stories, arrivals, k);
    StoredTotal(T, states[0], stories[0]);
    TracedTotals(T, stories[0].final, states, stories, arrivals, k, tr);
    log := tr.log;
  }
}
