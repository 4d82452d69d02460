/**
  The node as a state machine: blocks arrive, are executed on top of their pending parents,
  join the pending graph and may make others final. The invariant says that storage and every
  pending patch are the plain ledger of a history; it holds in every state of every run.
 */
module NodeRun {
  import opened Wrappers
  import opened Ledger
  import opened Patches
  import opened MergeAlgebra
  import opened Refinement
  import opened Execution
  import opened PendingDag
  import opened Finality

  datatype Block = Block(hash: Hash, conciliumId: nat, height: nat, parents: seq<Hash>, txs: seq<Hash>)

  /** `bad` are blocks that failed or were rolled back; of the `failed` ones the main graph still knows it. */
  datatype NodeState = NodeState(
    utxos: Utxos,
    pending: Pending,
    final: set<Hash>,
    bad: set<Hash>,
    failed: set<Hash>,
    heights: map<Hash, nat>)

  /** ---------- one block ---------- */

  function MaxHeight(heights: map<Hash, nat>, parents: seq<Hash>): nat {
    if parents == [] then 0
    else
      var rest := MaxHeight(heights, parents[..|parents| - 1]);
      var last := parents[|parents| - 1];
      if last in heights && heights[last] > rest then heights[last] else rest
  }

  /** Height is one more than that of the highest parent. */
  function CalcHeight(heights: map<Hash, nat>, parents: seq<Hash>): nat {
    MaxHeight(heights, parents) + 1
  }

  function OnlyPending(dag: Dag, vs: seq<Hash>): seq<Hash> {
    if vs == [] then []
    else
      var rest := OnlyPending(dag, vs[..|vs| - 1]);
      var last := vs[|vs| - 1];
      if last in dag then rest + [last] else rest
  }

  lemma {:induction false} OnlyPendingIn(dag: Dag, vs: seq<Hash>)
    ensures forall v :: v in OnlyPending(dag, vs) <==> v in vs && v in dag
  {
    if vs != [] {
      OnlyPendingIn(dag, vs[..|vs| - 1]);
      assert vs == vs[..|vs| - 1] + [vs[|vs| - 1]];
    }
  }

  lemma {:induction false} AllPendingStay(dag: Dag, vs: seq<Hash>)
    requires forall v :: v in vs ==> v in dag
    ensures OnlyPending(dag, vs) == vs
  {
    if vs != [] {
      AllPendingStay(dag, vs[..|vs| - 1]);
    }
  }

  /** Patches of the pending parents, merged; final parents are in storage already. */
  function ParentsPatch(pd: Pending, parents: seq<Hash>): Result<Patch>
    requires pd.dag.Keys <= pd.patches.Keys
  {
    OnlyPendingIn(pd.dag, parents);
    MergeAll(PatchesOf(pd.patches, OnlyPending(pd.dag, parents)))
  }

  function ExecuteBlock(T: TxTable, st: NodeState, blk: Block, sizeFee: Hash -> nat): Option<Patch>
    requires st.pending.dag.Keys <= st.pending.patches.Keys
  {
    if blk.height != CalcHeight(st.heights, blk.parents) then None
    else
      match ParentsPatch(st.pending, blk.parents)
      case Failure(_) => None
      case Success(p) => ExecBlock(T, st.utxos, p, blk.txs, blk.conciliumId, sizeFee)
  }

  function ParentsIn(dag: Dag, parents: seq<Hash>): set<Hash> {
    set v | v in parents && v in dag
  }

  function AddBlock(pd: Pending, blk: Block, p: Patch): Pending {
    Pending(
      pd.dag[blk.hash := Header(ParentsIn(pd.dag, blk.parents), blk.conciliumId, blk.height)],
      pd.patches[blk.hash := p])
  }

  predicate IsExecuted(st: NodeState, h: Hash) {
    h in st.final || h in st.pending.dag
  }

  predicate CanExecute(st: NodeState, blk: Block) {
    forall p :: p in blk.parents ==> IsExecuted(st, p)
  }

  /** ---------- one step ---------- */

  /** The state once `blk`, with patch `p`, is pending. */
  function Joined(st: NodeState, blk: Block, p: Patch): NodeState {
    st.(pending := AddBlock(st.pending, blk, p), heights := st.heights[blk.hash := blk.height])
  }

  /** The state once `s` is stored and the outcome `o` of a finality check recorded. */
  function Finalised(st: NodeState, o: Outcome, s: Patch): NodeState {
    st.(utxos := Apply(st.utxos, s), pending := o.pending, final := st.final + o.stable, bad := st.bad + o.rollback)
  }

  /** `tops` are the blocks that `n` makes top stable; if there are any, `st'` is the state they leave behind. */
  ghost predicate Settled(st: NodeState, n: Hash, conciliums: nat, tops: seq<Hash>, st': NodeState) {
    && ValidPending(st.pending) && TopsOf(st.pending.dag, n, conciliums, tops) && Elements(tops) <= st.pending.dag.Keys
    && if tops == [] then st' == st
       else
         && ParentsPatch(st.pending, tops).Success?
         && var s := ParentsPatch(st.pending, tops).value;
            st' == Finalised(st, Finalise(st.pending, n, Elements(tops), s), s)
  }

  /** The state once `blk` has joined and `tops` were found stable below it. */
  ghost predicate Accepted(st: NodeState, blk: Block, p: Patch, conciliums: nat, tops: seq<Hash>, st': NodeState) {
    Settled(Joined(st, blk, p), blk.hash, conciliums, tops, st')
  }

  /** Parent `k` is known to be bad, and those before it were executed. */
  predicate BadParentAt(st: NodeState, blk: Block, k: nat) {
    k < |blk.parents| && blk.parents[k] in st.failed && forall j :: 0 <= j < k ==> IsExecuted(st, blk.parents[j])
  }

  function Rejected(st: NodeState, h: Hash): NodeState {
    st.(bad := st.bad + {h}, failed := st.failed + {h})
  }

  ghost function Refused(st: NodeState, blk: Block): NodeState {
    if exists k :: BadParentAt(st, blk, k) then Rejected(st, blk.hash) else st
  }

  /**
    A block arrives while `conciliums` conciliums are defined. A known one is ignored. One whose
    parents were executed is executed. Any other is rejected if a bad parent comes before those
    that were not executed, and waits if not.
   */
  ghost predicate Step(T: TxTable, st: NodeState, blk: Block, sizeFee: Hash -> nat, conciliums: nat, st': NodeState)
    requires ValidPending(st.pending)
  {
    if IsExecuted(st, blk.hash) || blk.hash in st.bad then st' == st
    else if !CanExecute(st, blk) then
      st' == Refused(st, blk)
    else
      match ExecuteBlock(T, st, blk, sizeFee)
      case None => st' == Rejected(st, blk.hash)
      case Some(p) => exists tops :: Accepted(st, blk, p, conciliums, tops, st')
  }

  /** ---------- the invariant ---------- */

  /** Executed transactions: `final` ones, and per pending block those its patch represents. */
  datatype Story = Story(final: set<Hash>, pending: map<Hash, set<Hash>>)

  ghost predicate KnownHeights(st: NodeState) {
    && (forall v :: v in st.final ==> v in st.heights)
    && (forall v :: v in st.pending.dag ==> v in st.heights && st.heights[v] == st.pending.dag[v].height)
  }

  ghost predicate Disjoint(st: NodeState) {
    && st.final !! st.pending.dag.Keys && st.final !! st.bad && st.pending.dag.Keys !! st.bad
    && st.failed <= st.bad
  }

  ghost predicate BooksOk(st: NodeState) {
    KnownHeights(st) && Disjoint(st)
  }

  ghost predicate NodeOk(T: TxTable, st: NodeState, g: Story) {
    && Stored(T, g.final, st.utxos)
    && PendingOk(T, g.final, st.pending, g.pending)
    && BooksOk(st)
  }

  /** In every good state storage and pending patches are plain ledgers. */
  lemma StateIsLedger(T: TxTable, st: NodeState, g: Story)
    requires NodeOk(T, st, g)
    ensures Flatten(st.utxos) == Denote(T, g.final)
    ensures forall v :: v in st.pending.dag ==>
      v in g.pending && g.final <= g.pending[v] <= T.Keys &&
      Flatten(View(st.pending.patches[v], st.utxos)) == Denote(T, g.pending[v])
  {
    EmptyRepresents(T, g.final);
    ViewIsLedger(T, g.final, st.utxos, g.final, EMPTY);
    assert View(EMPTY, st.utxos) == st.utxos;
    forall v | v in st.pending.dag
      ensures Flatten(View(st.pending.patches[v], st.utxos)) == Denote(T, g.pending[v])
    {
      ViewIsLedger(T, g.final, st.utxos, g.pending[v], st.pending.patches[v]);
    }
  }

  /** ---------- execution ---------- */

  /** The history a block executes on: that of its pending parents. */
  function ParentsHistory(st: NodeState, g: Story, blk: Block): set<Hash> {
    HistoryOf(g.final, g.pending, OnlyPending(st.pending.dag, blk.parents))
  }

  /**
    A block on known parents executes iff its height is right, its parents together spend
    nothing twice, and the plain ledger of their history accepts it; its patch then represents
    that history and the block.
   */
  lemma ExecuteRefines(T: TxTable, st: NodeState, g: Story, blk: Block, sizeFee: Hash -> nat)
    requires NodeOk(T, st, g)
    requires blk.txs != [] && blk.txs[0] in T ==> FreshOutputs(T, ParentsHistory(st, g, blk), blk.txs[0])
    ensures var H := ParentsHistory(st, g, blk);
      && H <= T.Keys
      && (ExecuteBlock(T, st, blk, sizeFee).Some? <==>
            && blk.height == CalcHeight(st.heights, blk.parents)
            && NoDoubleSpend(T, H)
            && ApplyBlock(T, Denote(T, H), blk.txs, blk.conciliumId, sizeFee).Some?)
      && (ExecuteBlock(T, st, blk, sizeFee).Some? ==>
            Represents(T, g.final, H + Executed(blk.txs), ExecuteBlock(T, st, blk, sizeFee).value))
  {
    var vs := OnlyPending(st.pending.dag, blk.parents);
    OnlyPendingIn(st.pending.dag, blk.parents);
    var H := ParentsHistory(st, g, blk);
    MergeVertices(T, g.final, st.pending, g.pending, vs);
    if ParentsPatch(st.pending, blk.parents).Success? {
      var p := ParentsPatch(st.pending, blk.parents).value;
      ExecBlockRefines(T, g.final, st.utxos, H, p, blk.txs, blk.conciliumId, sizeFee);
    }
  }

  lemma {:induction false} HeightAbove(heights: map<Hash, nat>, parents: seq<Hash>, p: Hash)
    requires p in parents && p in heights
    ensures heights[p] < CalcHeight(heights, parents)
  {
    var init, last := parents[..|parents| - 1], parents[|parents| - 1];
    assert parents == init + [last];
    if p != last { HeightAbove(heights, init, p); }
  }

  /** The height is that of some parent and one, so of the highest; 1 if no parent is known. */
  lemma {:induction false} HeightReached(heights: map<Hash, nat>, parents: seq<Hash>)
    ensures CalcHeight(heights, parents) == 1 ||
      exists p :: p in parents && p in heights && CalcHeight(heights, parents) == heights[p] + 1
    ensures forall p :: p in parents && p in heights ==> heights[p] < CalcHeight(heights, parents)
  {
    if parents != [] {
      var init, last := parents[..|parents| - 1], parents[|parents| - 1];
      HeightReached(heights, init);
      assert parents == init + [last];
      if last in heights && heights[last] > MaxHeight(heights, init) {
        assert last in parents;
      } else if p :| p in init && p in heights && CalcHeight(heights, init) == heights[p] + 1 {
        assert p in parents;
      }
    }
  }

  lemma GraphJoins(dag: Dag, D: map<Hash, set<Hash>>, n: Hash, hd: Header, N: set<Hash>)
    requires ValidDag(dag) && D.Keys == dag.Keys && HistoriesGrow(dag, D) && n !in dag
    requires forall q :: q in hd.parents ==> q in dag && dag[q].height < hd.height && D[q] <= N
    ensures ValidDag(dag[n := hd]) && HistoriesGrow(dag[n := hd], D[n := N])
  {
  }

  lemma VertexJoins(T: TxTable, S: set<Hash>, pd: Pending, D: map<Hash, set<Hash>>,
                    n: Hash, hd: Header, p: Patch, N: set<Hash>)
    requires PendingOk(T, S, pd, D) && n !in pd.dag && Represents(T, S, N, p)
    requires forall q :: q in hd.parents ==> q in pd.dag && pd.dag[q].height < hd.height && D[q] <= N
    ensures PendingOk(T, S, Pending(pd.dag[n := hd], pd.patches[n := p]), D[n := N])
  {
    GraphJoins(pd.dag, D, n, hd, N);
  }

  /** An executed block joins the pending graph with its history. */
  lemma BlockJoins(T: TxTable, st: NodeState, g: Story, blk: Block, p: Patch, H: set<Hash>)
    requires NodeOk(T, st, g) && blk.hash !in st.pending.dag
    requires blk.height == CalcHeight(st.heights, blk.parents)
    requires H == ParentsHistory(st, g, blk) && Represents(T, g.final, H + Executed(blk.txs), p)
    ensures PendingOk(T, g.final, AddBlock(st.pending, blk, p), g.pending[blk.hash := H + Executed(blk.txs)])
  {
    var hd := AddBlock(st.pending, blk, p).dag[blk.hash];
    OnlyPendingIn(st.pending.dag, blk.parents);
    forall q | q in hd.parents
      ensures q in st.pending.dag && st.pending.dag[q].height < hd.height
      ensures g.pending[q] <= H + Executed(blk.txs)
    {
      HeightAbove(st.heights, blk.parents, q);
      assert q in OnlyPending(st.pending.dag, blk.parents);
    }
    VertexJoins(T, g.final, st.pending, g.pending, blk.hash, hd, p, H + Executed(blk.txs));
  }

  lemma {:induction false} TopsBelow(pd: Pending, n: Hash, majority: nat, w: Hash)
    requires ValidPending(pd) && IsTopStable(pd.dag, n, majority, w)
    ensures w in pd.dag && n in pd.dag && w in Down(pd.dag, n)
  {
    var path :| WitnessedBy(pd.dag, n, majority, path, w);
    PathIsDown(pd.dag, n, path, |path| - 1);
  }

  /** In a good state the patches of the blocks that `n` makes top stable merge, in whatever order. */
  lemma StableMerges(T: TxTable, S: set<Hash>, pd: Pending, D: map<Hash, set<Hash>>, n: Hash, conciliums: nat,
                     tops: seq<Hash>)
    requires PendingOk(T, S, pd, D) && History(T, S) && n in pd.dag && TopsOf(pd.dag, n, conciliums, tops)
    ensures Elements(tops) <= pd.dag.Keys
    ensures ParentsPatch(pd, tops).Success?
    ensures HistoryOf(S, D, tops) <= D[n] && Represents(T, S, HistoryOf(S, D, tops), ParentsPatch(pd, tops).value)
  {
    forall w | w in tops
      ensures w in pd.dag && w in Down(pd.dag, n)
    {
      TopsBelow(pd, n, Majority(conciliums), w);
    }
    AllPendingStay(pd.dag, tops);
    StableMergeSucceeds(T, S, pd, D, n, tops);
  }

  /** Histories after a step: every survivor's own, and whatever is final now. */
  ghost predicate Advanced(st: NodeState, g: Story, blk: Block, st': NodeState, g': Story) {
    && g.final <= g'.final
    && g'.pending.Keys == st'.pending.dag.Keys
    && (forall v :: v in g'.pending && v in g.pending ==> g'.pending[v] == g.pending[v] + g'.final)
    && (forall v :: v in g'.pending && v !in g.pending ==>
          v == blk.hash && g'.pending[v] == ParentsHistory(st, g, blk) + Executed(blk.txs) + g'.final)
  }

  /** The histories with the new block's, `N`, are `joined`; those of `vs` become final, and part of all that stay. */
  ghost predicate Settles(final: set<Hash>, joined: map<Hash, set<Hash>>, vs: seq<Hash>, g': Story) {
    && (forall v :: v in vs ==> v in joined)
    && g'.final == HistoryOf(final, joined, vs)
    && forall v :: v in g'.pending ==> v in joined && g'.pending[v] == joined[v] + g'.final
  }

  ghost predicate SettlesWith(st: NodeState, g: Story, blk: Block, vs: seq<Hash>, g': Story) {
    Settles(g.final, g.pending[blk.hash := ParentsHistory(st, g, blk) + Executed(blk.txs)], vs, g')
  }

  /** The block is new, its parents were executed, and it executes. */
  predicate Executes(T: TxTable, st: NodeState, blk: Block, sizeFee: Hash -> nat)
    requires st.pending.dag.Keys <= st.pending.patches.Keys
  {
    && !IsExecuted(st, blk.hash) && blk.hash !in st.bad && CanExecute(st, blk)
    && ExecuteBlock(T, st, blk, sizeFee).Some?
  }

  /** The block `blk` is accepted, and `tops` settled, in the state and in the histories. */
  ghost predicate AcceptedTold(T: TxTable, st: NodeState, g: Story, blk: Block, sizeFee: Hash -> nat, conciliums: nat,
                               tops: seq<Hash>, st': NodeState, g': Story)
    requires ValidPending(st.pending) && ExecuteBlock(T, st, blk, sizeFee).Some?
  {
    && Accepted(st, blk, ExecuteBlock(T, st, blk, sizeFee).value, conciliums, tops, st')
    && SettlesWith(st, g, blk, tops, g') && g'.pending.Keys == st'.pending.dag.Keys
  }

  /** A step and what it makes of the histories: nothing, unless the block executes. */
  ghost predicate StepTold(T: TxTable, st: NodeState, g: Story, blk: Block, sizeFee: Hash -> nat, conciliums: nat,
                           st': NodeState, g': Story)
    requires ValidPending(st.pending)
  {
    && Step(T, st, blk, sizeFee, conciliums, st')
    && if Executes(T, st, blk, sizeFee)
       then exists tops :: AcceptedTold(T, st, g, blk, sizeFee, conciliums, tops, st', g')
       else g' == g
  }

  lemma JoinedBooks(st: NodeState, blk: Block, pd: Pending)
    requires BooksOk(st) && !IsExecuted(st, blk.hash) && blk.hash !in st.bad
    requires exists hd: Header :: hd.height == blk.height && pd.dag == st.pending.dag[blk.hash := hd]
    ensures BooksOk(st.(pending := pd, heights := st.heights[blk.hash := blk.height]))
  {
  }

  lemma FinalisedBooks(st: NodeState, utxos: Utxos, pd: Pending, stable: set<Hash>, rollback: set<Hash>)
    requires BooksOk(st) && stable <= st.pending.dag.Keys && rollback <= st.pending.dag.Keys && stable !! rollback
    requires pd.dag.Keys == st.pending.dag.Keys - stable - rollback
    requires forall v :: v in pd.dag ==> pd.dag[v].height == st.pending.dag[v].height
    ensures BooksOk(st.(utxos := utxos, pending := pd, final := st.final + stable, bad := st.bad + rollback))
  {
  }

  lemma JoinedKeeps(T: TxTable, st: NodeState, g: Story, blk: Block, p: Patch, H: set<Hash>)
    requires NodeOk(T, st, g) && !IsExecuted(st, blk.hash) && blk.hash !in st.bad
    requires blk.height == CalcHeight(st.heights, blk.parents)
    requires H == ParentsHistory(st, g, blk) && Represents(T, g.final, H + Executed(blk.txs), p)
    ensures NodeOk(T, Joined(st, blk, p), Story(g.final, g.pending[blk.hash := H + Executed(blk.txs)]))
    ensures blk.hash !in g.pending && g.final <= H + Executed(blk.txs)
    ensures Joined(st, blk, p).pending.dag.Keys == g.pending.Keys + {blk.hash}
  {
    BlockJoins(T, st, g, blk, p, H);
    var pd := AddBlock(st.pending, blk, p);
    assert pd.dag == st.pending.dag[blk.hash := pd.dag[blk.hash]];
    JoinedBooks(st, blk, pd);
  }

  /** Settling what `n`, a pending block, makes final keeps the invariant. */
  lemma FinalisedKeeps(T: TxTable, st: NodeState, g: Story, n: Hash, conciliums: nat, tops: seq<Hash>, s: Patch,
                       E: set<Hash>)
    requires NodeOk(T, st, g) && n in st.pending.dag && TopsOf(st.pending.dag, n, conciliums, tops)
    requires ParentsPatch(st.pending, tops) == Success(s) && E == HistoryOf(g.final, g.pending, tops)
    ensures Elements(tops) <= st.pending.dag.Keys
    ensures var o := Finalise(st.pending, n, Elements(tops), s);
      && o.pending.dag.Keys <= st.pending.dag.Keys
      && (forall v :: v in o.pending.dag ==> !Conflict(st.pending.patches[v], s))
      && NodeOk(T, Finalised(st, o, s), Story(E, Extended(o.pending.dag, g.pending, E)))
  {
    StableMerges(T, g.final, st.pending, g.pending, n, conciliums, tops);
    FinaliseKeeps(T, g.final, st.pending, g.pending, n, Elements(tops), s, E);
    ApplyStores(T, g.final, st.utxos, E, s);
    LeftOver(st.pending, n, Elements(tops), s);
    var o := Finalise(st.pending, n, Elements(tops), s);
    FinalisedBooks(st, Apply(st.utxos, s), o.pending, o.stable, o.rollback);
  }

  /** A node that starts on a storage with the ledger of final blocks is in a good state. */
  lemma StartOk(T: TxTable, S: set<Hash>, L: Utxos, heights: map<Hash, nat>)
    requires Stored(T, S, L)
    ensures NodeOk(T, NodeState(L, Pending(map[], map[]), heights.Keys, {}, {}, heights), Story(S, map[]))
  {
  }

  /** ---------- steps ---------- */

  /** The coinbase of a block that was not seen yet is new to its parents' history, unless it pays nothing. */
  predicate FreshCoinbase(T: TxTable, st: NodeState, g: Story, blk: Block) {
    || IsExecuted(st, blk.hash) || blk.hash in st.bad
    || blk.txs == [] || (blk.txs[0] in T ==> FreshOutputs(T, ParentsHistory(st, g, blk), blk.txs[0]))
  }

  lemma FinalInPending(T: TxTable, st: NodeState, g: Story, v: Hash)
    requires NodeOk(T, st, g) && v in g.pending
    ensures g.pending[v] == g.pending[v] + g.final
  {
    assert Represents(T, g.final, g.pending[v], st.pending.patches[v]);
  }

  lemma StayAdvances(T: TxTable, st: NodeState, g: Story, blk: Block, st': NodeState)
    requires NodeOk(T, st, g) && st'.pending == st.pending
    ensures Advanced(st, g, blk, st', g)
  {
    forall v | v in g.pending { FinalInPending(T, st, g, v); }
  }

  lemma ExtendedAdvances(st: NodeState, g: Story, blk: Block, st': NodeState, N: set<Hash>, E: set<Hash>)
    requires blk.hash !in g.pending && N == ParentsHistory(st, g, blk) + Executed(blk.txs)
    requires g.final <= E && st'.pending.dag.Keys <= g.pending.Keys + {blk.hash}
    ensures Advanced(st, g, blk, st', Story(E, Extended(st'.pending.dag, g.pending[blk.hash := N], E)))
  {
  }

  lemma ExtendedSettles(final: set<Hash>, joined: map<Hash, set<Hash>>, vs: seq<Hash>, dag: Dag, E: set<Hash>)
    requires Elements(vs) <= joined.Keys && dag.Keys <= joined.Keys && E == HistoryOf(final, joined, vs)
    ensures Settles(final, joined, vs, Story(E, Extended(dag, joined, E)))
  {
    forall v | v in vs
      ensures v in joined
    {
      assert v in Elements(vs);
    }
  }

  lemma FinalCase(T: TxTable, joined: NodeState, g: Story, n: Hash, conciliums: nat, tops: seq<Hash>, st': NodeState)
    returns (g': Story)
    requires NodeOk(T, joined, g) && n in joined.pending.dag
    requires tops != [] && Settled(joined, n, conciliums, tops, st')
    ensures st'.pending.dag.Keys <= joined.pending.dag.Keys && joined.pending.dag.Keys == g.pending.Keys
    ensures g.final <= g'.final && g' == Story(g'.final, Extended(st'.pending.dag, g.pending, g'.final))
    ensures Settles(g.final, g.pending, tops, g')
    ensures NodeOk(T, st', g')
  {
    var s, E := ParentsPatch(joined.pending, tops).value, HistoryOf(g.final, g.pending, tops);
    FinalisedKeeps(T, joined, g, n, conciliums, tops, s, E);
    g' := Story(E, Extended(st'.pending.dag, g.pending, E));
    ExtendedSettles(g.final, g.pending, tops, st'.pending.dag, E);
  }

  lemma PlainAdvances(st: NodeState, g: Story, blk: Block, st': NodeState, N: set<Hash>)
    requires blk.hash !in g.pending && N == ParentsHistory(st, g, blk) + Executed(blk.txs) && g.final <= N
    requires st'.pending.dag.Keys == g.pending.Keys + {blk.hash}
    requires forall v :: v in g.pending ==> g.pending[v] == g.pending[v] + g.final
    ensures Advanced(st, g, blk, st', Story(g.final, g.pending[blk.hash := N]))
  {
    assert N + g.final == N;
  }

  lemma PlainSettles(final: set<Hash>, joined: map<Hash, set<Hash>>)
    requires forall v :: v in joined ==> final <= joined[v]
    ensures Settles(final, joined, [], Story(final, joined))
  {
    forall v | v in joined
      ensures joined[v] == joined[v] + final
    {
    }
  }

  /** What a new block makes final is settled after it has joined with the history `N`. */
  lemma SettleKeeps(T: TxTable, st: NodeState, g: Story, blk: Block, joined: NodeState, N: set<Hash>,
                    conciliums: nat, tops: seq<Hash>, st': NodeState) returns (g': Story)
    requires NodeOk(T, st, g) && NodeOk(T, joined, Story(g.final, g.pending[blk.hash := N]))
    requires blk.hash !in g.pending && N == ParentsHistory(st, g, blk) + Executed(blk.txs) && g.final <= N
    requires joined.pending.dag.Keys == g.pending.Keys + {blk.hash}
    requires Settled(joined, blk.hash, conciliums, tops, st')
    ensures NodeOk(T, st', g') && Advanced(st, g, blk, st', g')
    ensures Settles(g.final, g.pending[blk.hash := N], tops, g')
  {
    if tops == [] {
      g' := Story(g.final, g.pending[blk.hash := N]);
      forall v | v in g.pending { FinalInPending(T, st, g, v); }
      PlainAdvances(st, g, blk, st', N);
      PlainSettles(g.final, g.pending[blk.hash := N]);
    } else {
      g' := FinalCase(T, joined, Story(g.final, g.pending[blk.hash := N]), blk.hash, conciliums, tops, st');
      ExtendedAdvances(st, g, blk, st', N, g'.final);
    }
  }

  lemma AcceptKeeps(T: TxTable, st: NodeState, g: Story, blk: Block, p: Patch, conciliums: nat,
                    tops: seq<Hash>, st': NodeState) returns (g': Story)
    requires NodeOk(T, st, g) && !IsExecuted(st, blk.hash) && blk.hash !in st.bad
    requires blk.height == CalcHeight(st.heights, blk.parents)
    requires Represents(T, g.final, ParentsHistory(st, g, blk) + Executed(blk.txs), p)
    requires Accepted(st, blk, p, conciliums, tops, st')
    ensures NodeOk(T, st', g') && Advanced(st, g, blk, st', g')
    ensures SettlesWith(st, g, blk, tops, g')
  {
    var N := ParentsHistory(st, g, blk) + Executed(blk.txs);
    JoinedKeeps(T, st, g, blk, p, ParentsHistory(st, g, blk));
    g' := SettleKeeps(T, st, g, blk, Joined(st, blk, p), N, conciliums, tops, st');
  }

  lemma SettlesUnique(final: set<Hash>, joined: map<Hash, set<Hash>>, vs: seq<Hash>, g: Story, g': Story)
    requires Settles(final, joined, vs, g) && Settles(final, joined, vs, g') && g.pending.Keys == g'.pending.Keys
    ensures g == g'
  {
    assert g.pending == g'.pending;
  }

  lemma AcceptToldKeeps(T: TxTable, st: NodeState, g: Story, blk: Block, sizeFee: Hash -> nat, conciliums: nat,
                        tops: seq<Hash>, st': NodeState, g': Story)
    requires NodeOk(T, st, g) && FreshCoinbase(T, st, g, blk) && Executes(T, st, blk, sizeFee)
    requires AcceptedTold(T, st, g, blk, sizeFee, conciliums, tops, st', g')
    ensures NodeOk(T, st', g') && Advanced(st, g, blk, st', g')
  {
    ExecuteRefines(T, st, g, blk, sizeFee);
    var h := AcceptKeeps(T, st, g, blk, ExecuteBlock(T, st, blk, sizeFee).value, conciliums, tops, st');
    SettlesUnique(g.final, g.pending[blk.hash := ParentsHistory(st, g, blk) + Executed(blk.txs)], tops, h, g');
  }

  lemma IgnoredKeeps(T: TxTable, st: NodeState, g: Story, blk: Block, sizeFee: Hash -> nat, conciliums: nat,
                     st': NodeState)
    requires NodeOk(T, st, g) && !Executes(T, st, blk, sizeFee) && Step(T, st, blk, sizeFee, conciliums, st')
    ensures NodeOk(T, st', g) && Advanced(st, g, blk, st', g)
  {
    assert st' == st || (st' == Rejected(st, blk.hash) && !IsExecuted(st, blk.hash));
    StayAdvances(T, st, g, blk, st');
  }

  /** Whatever block arrives, the invariant stays and histories only grow by what became final. */
  lemma StepKeeps(T: TxTable, st: NodeState, g: Story, blk: Block, sizeFee: Hash -> nat, conciliums: nat,
                  st': NodeState, g': Story)
    requires NodeOk(T, st, g) && FreshCoinbase(T, st, g, blk)
    requires StepTold(T, st, g, blk, sizeFee, conciliums, st', g')
    ensures NodeOk(T, st', g') && Advanced(st, g, blk, st', g')
  {
    if Executes(T, st, blk, sizeFee) {
      var tops :| AcceptedTold(T, st, g, blk, sizeFee, conciliums, tops, st', g');
      AcceptToldKeeps(T, st, g, blk, sizeFee, conciliums, tops, st', g');
    } else {
      IgnoredKeeps(T, st, g, blk, sizeFee, conciliums, st');
    }
  }

  /** Every step has histories. */
  lemma StepHasStory(T: TxTable, st: NodeState, g: Story, blk: Block, sizeFee: Hash -> nat, conciliums: nat,
                     st': NodeState)
    returns (g': Story)
    requires NodeOk(T, st, g) && FreshCoinbase(T, st, g, blk)
    requires Step(T, st, blk, sizeFee, conciliums, st')
    ensures StepTold(T, st, g, blk, sizeFee, conciliums, st', g')
  {
    g' := g;
    if Executes(T, st, blk, sizeFee) {
      var p := ExecuteBlock(T, st, blk, sizeFee).value;
      ExecuteRefines(T, st, g, blk, sizeFee);
      var tops :| Accepted(st, blk, p, conciliums, tops, st');
      g' := AcceptKeeps(T, st, g, blk, p, conciliums, tops, st');
      assert AcceptedTold(T, st, g, blk, sizeFee, conciliums, tops, st', g');
    }
  }

  lemma SetToSeq(s: set<Hash>) returns (q: seq<Hash>)
    ensures forall x :: x in q <==> x in s
  {
    q := [];
    var todo := s;
    while todo != {}
      invariant todo <= s && forall x :: x in q <==> x in s && x !in todo
    {
      var x :| x in todo;
      q, todo := q + [x], todo - {x};
    }
  }

  lemma SettlePossible(T: TxTable, st: NodeState, g: Story, n: Hash, conciliums: nat)
    returns (tops: seq<Hash>, st': NodeState)
    requires NodeOk(T, st, g) && n in st.pending.dag
    ensures Settled(st, n, conciliums, tops, st')
  {
    var dag := st.pending.dag;
    tops := SetToSeq(set w | w in dag && IsTopStable(dag, n, Majority(conciliums), w));
    forall w | IsTopStable(dag, n, Majority(conciliums), w)
      ensures w in tops
    {
      TopsBelow(st.pending, n, Majority(conciliums), w);
    }
    StableMerges(T, g.final, st.pending, g.pending, n, conciliums, tops);
    var s := ParentsPatch(st.pending, tops).value;
    st' := if tops == [] then st else Finalised(st, Finalise(st.pending, n, Elements(tops), s), s);
  }

  lemma AcceptPossible(T: TxTable, st: NodeState, g: Story, blk: Block, p: Patch, conciliums: nat)
    returns (st': NodeState)
    requires NodeOk(T, st, g) && !IsExecuted(st, blk.hash) && blk.hash !in st.bad
    requires blk.height == CalcHeight(st.heights, blk.parents)
    requires Represents(T, g.final, ParentsHistory(st, g, blk) + Executed(blk.txs), p)
    ensures exists tops :: Accepted(st, blk, p, conciliums, tops, st')
  {
    JoinedKeeps(T, st, g, blk, p, ParentsHistory(st, g, blk));
    var N := ParentsHistory(st, g, blk) + Executed(blk.txs);
    var joined := Story(g.final, g.pending[blk.hash := N]);
    var tops, settled := SettlePossible(T, Joined(st, blk, p), joined, blk.hash, conciliums);
    st' := settled;
    assert Accepted(st, blk, p, conciliums, tops, st');
  }

  /** No step throws: merging the patches of the stable blocks always succeeds. */
  lemma NeverStuck(T: TxTable, st: NodeState, g: Story, blk: Block, sizeFee: Hash -> nat, conciliums: nat)
    returns (st': NodeState, g': Story)
    requires NodeOk(T, st, g) && FreshCoinbase(T, st, g, blk)
    ensures StepTold(T, st, g, blk, sizeFee, conciliums, st', g')
  {
    if IsExecuted(st, blk.hash) || blk.hash in st.bad {
      st' := st;
    } else if !CanExecute(st, blk) {
      st' := Refused(st, blk);
    } else if ExecuteBlock(T, st, blk, sizeFee).None? {
      st' := Rejected(st, blk.hash);
    } else {
      ExecuteRefines(T, st, g, blk, sizeFee);
      st' := AcceptPossible(T, st, g, blk, ExecuteBlock(T, st, blk, sizeFee).value, conciliums);
    }
    g' := StepHasStory(T, st, g, blk, sizeFee, conciliums, st');
  }

  /** ---------- runs ---------- */

  datatype Arrival = Arrival(blk: Block, sizeFee: Hash -> nat, conciliums: nat)

  /** A run and the histories along it. */
  ghost predicate IsRun(T: TxTable, states: seq<NodeState>, stories: seq<Story>, arrivals: seq<Arrival>) {
    && |states| == |stories| == |arrivals| + 1
    && (forall k :: 0 <= k < |states| ==> ValidPending(states[k].pending))
    && (forall k: nat :: k < |arrivals| ==> IsStep(T, states, stories, arrivals, k))
  }

  ghost predicate IsStep(T: TxTable, states: seq<NodeState>, stories: seq<Story>, arrivals: seq<Arrival>, k: nat)
    requires k < |arrivals| && |states| == |stories| == |arrivals| + 1 && ValidPending(states[k].pending)
  {
    var a := arrivals[k];
    && FreshCoinbase(T, states[k], stories[k], a.blk)
    && StepTold(T, states[k], stories[k], a.blk, a.sizeFee, a.conciliums, states[k + 1], stories[k + 1])
  }

  /** In every state of every run, storage and pending patches are plain ledgers. */
  lemma {:induction false} RunKeeps(T: TxTable, states: seq<NodeState>, stories: seq<Story>, arrivals: seq<Arrival>,
                                    k: nat)
    requires IsRun(T, states, stories, arrivals) && NodeOk(T, states[0], stories[0]) && k < |states|
    ensures NodeOk(T, states[k], stories[k]) && stories[0].final <= stories[k].final
  {
    if k > 0 {
      RunKeeps(T, states, stories, arrivals, k - 1);
      assert IsStep(T, states, stories, arrivals, k - 1);
      var a := arrivals[k - 1];
      StepKeeps(T, states[k - 1], stories[k - 1], a.blk, a.sizeFee, a.conciliums, states[k], stories[k]);
    }
  }

  lemma StepMonotone(T: TxTable, st: NodeState, blk: Block, sizeFee: Hash -> nat, conciliums: nat, st': NodeState)
    requires ValidPending(st.pending) && Step(T, st, blk, sizeFee, conciliums, st')
    ensures st.final <= st'.final && st.bad <= st'.bad
  {
  }

  lemma {:induction false} RunMonotone(T: TxTable, states: seq<NodeState>, stories: seq<Story>, arrivals: seq<Arrival>,
                                       j: nat, k: nat)
    requires IsRun(T, states, stories, arrivals) && j <= k < |states|
    ensures states[j].final <= states[k].final && states[j].bad <= states[k].bad
    decreases k
  {
    if j < k {
      RunMonotone(T, states, stories, arrivals, j, k - 1);
      assert IsStep(T, states, stories, arrivals, k - 1);
      var a := arrivals[k - 1];
      StepMonotone(T, states[k - 1], a.blk, a.sizeFee, a.conciliums, states[k]);
    }
  }

  /** What is final once is never rolled back, before or after. */
  lemma FinalForever(T: TxTable, states: seq<NodeState>, stories: seq<Story>, arrivals: seq<Arrival>, j: nat, k: nat)
    requires IsRun(T, states, stories, arrivals) && NodeOk(T, states[0], stories[0])
    requires j < |states| && k < |states|
    ensures states[j].final !! states[k].bad
  {
    var last := |states| - 1;
    RunMonotone(T, states, stories, arrivals, j, last);
    RunMonotone(T, states, stories, arrivals, k, last);
    RunKeeps(T, states, stories, arrivals, last);
  }
}
