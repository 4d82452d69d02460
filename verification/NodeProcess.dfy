/** The node that processes blocks in place, against the state machine of `NodeRun`. */
module NodeProcess {
  import opened Wrappers
  import opened Ledger
  import Patches
  import opened MergeAlgebra
  import opened Refinement
  import opened Execution
  import opened PendingDag
  import opened Finality
  import opened NodeRun
  import opened PatchDb
  import opened PendingBlocks
  import opened App

  lemma StoredNeverClashes(p: Patches.Patch, L: Patches.Utxos, hashes: set<Hash>)
    ensures !Patches.Conflict(p, Patches.StoredPatch(L, hashes))
  {
  }

  lemma {:induction false} StaysStuck(T: TxTable, L: Patches.Utxos, p: Patches.Patch, txs: seq<Hash>, k: nat,
                                      cid: nat, sizeFee: Hash -> nat)
    requires k <= |txs| && ExecTxs(T, L, p, txs[..k], cid, sizeFee).None?
    ensures ExecTxs(T, L, p, txs, cid, sizeFee).None?
    decreases |txs| - k
  {
    if k == |txs| {
      assert txs[..k] == txs;
    } else {
      ExecTxsNext(T, L, p, txs, k, cid, sizeFee);
      StaysStuck(T, L, p, txs, k + 1, cid, sizeFee);
    }
  }

  lemma {:induction false} ExecTxsNext(T: TxTable, L: Patches.Utxos, p: Patches.Patch, txs: seq<Hash>, k: nat,
                                       cid: nat, sizeFee: Hash -> nat)
    requires k < |txs|
    ensures ExecTxs(T, L, p, txs[..k + 1], cid, sizeFee) ==
      ExecNext(T, L, ExecTxs(T, L, p, txs[..k], cid, sizeFee), txs[k], cid, sizeFee(txs[k]))
  {
    assert txs[..k + 1][..k] == txs[..k];
  }

  /** In a good state the patches of the blocks a new block makes top stable merge, in whatever order. */
  lemma NoTopsClash(T: TxTable, st: NodeState, g: Story, n: Hash, conciliums: nat)
    requires NodeOk(T, st, g) && n in st.pending.dag
    ensures !TopsClash(st.pending, n, conciliums)
  {
    if TopsClash(st.pending, n, conciliums) {
      var tops :| TopsOf(st.pending.dag, n, conciliums, tops) && ParentsPatch(st.pending, tops).Failure?;
      StableMerges(T, g.final, st.pending, g.pending, n, conciliums, tops);
    }
  }

  /** The patch of the stable blocks stored, and the rest of the outcome recorded. */
  lemma SettledAsFinalised(st: NodeState, n: Hash, conciliums: nat, tops: seq<Hash>, s: Patches.Patch, o: Outcome)
    requires TopsOf(st.pending.dag, n, conciliums, tops) && tops != []
    requires SettledAs(st.pending, n, Elements(tops), s, o)
    requires ParentsPatch(st.pending, tops) == Success(s)
    ensures Settled(st, n, conciliums, tops, Finalised(st, o, s))
  {
  }

  lemma NothingSettled(st: NodeState, n: Hash, conciliums: nat)
    requires ValidPending(st.pending) && TopsOf(st.pending.dag, n, conciliums, [])
    ensures Settled(st, n, conciliums, [], st)
  {
  }

  /** A block waits for its parents as long as none that comes first is known to be bad. */
  lemma WaitsForParents(T: TxTable, st: NodeState, blk: Block, sizeFee: Hash -> nat, conciliums: nat, st': NodeState)
    requires ValidPending(st.pending) && Step(T, st, blk, sizeFee, conciliums, st')
    requires !CanExecute(st, blk) && forall k :: !BadParentAt(st, blk, k)
    ensures st' == st
  {
  }

  /** What comes of a block that executes, or fails to. */
  ghost predicate HasExecuted(T: TxTable, st: NodeState, blk: Block, sizeFee: Hash -> nat, conciliums: nat,
                              st': NodeState)
    requires ValidPending(st.pending)
  {
    match ExecuteBlock(T, st, blk, sizeFee)
    case None => st' == Rejected(st, blk.hash)
    case Some(p) => exists tops :: Accepted(st, blk, p, conciliums, tops, st')
  }

  lemma AcceptedIsExecuted(T: TxTable, st: NodeState, blk: Block, sizeFee: Hash -> nat, conciliums: nat,
                           p: Patches.Patch,
                           tops: seq<Hash>, st': NodeState)
    requires ValidPending(st.pending) && ExecuteBlock(T, st, blk, sizeFee) == Some(p)
    requires Accepted(st, blk, p, conciliums, tops, st')
    ensures HasExecuted(T, st, blk, sizeFee, conciliums, st')
  {
  }

  predicate IsKnown(st: NodeState, h: Hash) {
    IsExecuted(st, h) || h in st.bad
  }

  /** Ignored, refused or executed, that is a step. */
  lemma DispatchedStep(T: TxTable, st: NodeState, blk: Block, sizeFee: Hash -> nat, conciliums: nat, st': NodeState)
    requires ValidPending(st.pending)
    requires IsKnown(st, blk.hash) ==> st' == st
    requires !IsKnown(st, blk.hash) && !CanExecute(st, blk) ==> st' == Refused(st, blk)
    requires !IsKnown(st, blk.hash) && CanExecute(st, blk) ==> HasExecuted(T, st, blk, sizeFee, conciliums, st')
    ensures Step(T, st, blk, sizeFee, conciliums, st')
  {
  }

  /** The block is new, higher than its pending parents, and what it makes top stable merges. */
  ghost predicate CanJoin(st: NodeState, blk: Block, p: Patches.Patch, conciliums: nat) {
    && ValidPending(st.pending) && blk.hash !in st.pending.dag
    && (forall q :: q in blk.parents && q in st.pending.dag ==> st.pending.dag[q].height < blk.height)
    && !TopsClash(Joined(st, blk, p).pending, blk.hash, conciliums)
  }

  lemma ExecutedCanJoin(T: TxTable, st: NodeState, g: Story, blk: Block, sizeFee: Hash -> nat, p: Patches.Patch,
                        conciliums: nat)
    requires NodeOk(T, st, g) && FreshCoinbase(T, st, g, blk) && !IsExecuted(st, blk.hash) && blk.hash !in st.bad
    requires ExecuteBlock(T, st, blk, sizeFee) == Some(p)
    ensures CanJoin(st, blk, p, conciliums)
  {
    var H := ParentsHistory(st, g, blk);
    ExecuteRefines(T, st, g, blk, sizeFee);
    JoinedKeeps(T, st, g, blk, p, H);
    var joined := Story(g.final, g.pending[blk.hash := H + Executed(blk.txs)]);
    NoTopsClash(T, Joined(st, blk, p), joined, blk.hash, conciliums);
    forall q | q in blk.parents && q in st.pending.dag
      ensures st.pending.dag[q].height < blk.height
    {
      HeightAbove(st.heights, blk.parents, q);
    }
  }

  class Node {
    const txTable: TxTable
    const storage: Storage
    const app: Application
    const pendingBlocks: PendingBlocksManager
    var final: set<Hash>
    var bad: set<Hash>
    var failed: set<Hash>
    var heights: map<Hash, nat>
    ghost var story: Story

    ghost function State(): NodeState
      reads this, storage, pendingBlocks
    {
      NodeState(storage.utxos, pendingBlocks.Value(), final, bad, failed, heights)
    }

    /** Storage and pending patches are the plain ledgers of some story. */
    ghost predicate Valid()
      reads this, storage, pendingBlocks, pendingBlocks.repr
    {
      pendingBlocks.Valid() && NodeOk(txTable, State(), story)
    }

    /** A node that starts on a storage holding the ledger of the transactions `S` of its final blocks. */
    constructor (T: TxTable, stored: Patches.Utxos, finalHeights: map<Hash, nat>, tops: seq<Hash>, ghost S: set<Hash>)
      requires Stored(T, S, stored)
      ensures Valid() && fresh(storage) && fresh(pendingBlocks) && fresh(app) && pendingBlocks.repr == {}
      ensures txTable == T && story == Story(S, map[])
      ensures State() == NodeState(stored, Pending(map[], map[]), finalHeights.Keys, {}, {}, finalHeights)
    {
      txTable := T;
      storage := new Storage(stored);
      app := new Application();
      pendingBlocks := new PendingBlocksManager(tops);
      final, bad, failed, heights := finalHeights.Keys, {}, {}, finalHeights;
      story := Story(S, map[]);
      new;
      StartOk(T, S, stored, finalHeights);
    }

    /** What the transaction reads: the stored UTXOs of its inputs, merged into the block's patch if it has any. */
    method PatchForTx(tx: Tx, patchForBlock: PatchDB) returns (patchMerged: PatchDB)
      requires patchForBlock.Valid()
      ensures patchMerged.Value().coins == Readable(storage.utxos, patchForBlock.Value(), tx)
      ensures fresh(patchMerged)
    {
      var patchUtxos := storage.GetUtxosPatch(tx.inputs);
      var hashes := InputHashes(tx.inputs);
      var hasUtxos := patchForBlock.HasUtxos(hashes);
      if !hasUtxos { return patchUtxos; }
      StoredNeverClashes(patchForBlock.Value(), storage.utxos, hashes);
      var merged := patchForBlock.Merge(patchUtxos, false);
      return merged.value;
    }

    /** Execute a transfer: its own patch and its fee. The patch of the block is only read. */
    method ProcessTx(t: Hash, patchForBlock: PatchDB, sizeFee: nat) returns (r: Result<(PatchDB, nat)>)
      requires t in txTable && patchForBlock.Valid()
      ensures r.Success? <==> ExecTx(storage.utxos, patchForBlock.Value(), t, txTable[t], sizeFee).Some?
      ensures r.Success? ==>
        && fresh(r.value.0) && r.value.0.Valid()
        && ExecTx(storage.utxos, patchForBlock.Value(), t, txTable[t], sizeFee) == Some((r.value.0.Value(), r.value.1))
    {
      var tx := txTable[t];
      if tx.outputs == [] { return Failure(Malformed); }
      var patchMerged := PatchForTx(tx, patchForBlock);
      var inputs := app.ProcessTxInputs(t, tx, patchMerged);
      if inputs.Failure? { return Failure(inputs.error); }
      var (patchThisTx, totalHas) := inputs.value;
      var totalSent := app.ProcessPayments(t, tx, patchThisTx);
      if totalSent.Failure? { return Failure(totalSent.error); }
      if totalHas - totalSent.value <= sizeFee { return Failure(FeeTooLow); }
      return Success((patchThisTx, totalHas - totalSent.value));
    }

    method CheckHeight(blk: Block) returns (ok: bool)
      ensures ok <==> blk.height == CalcHeight(heights, blk.parents)
    {
      ok := CalcHeight(heights, blk.parents) == blk.height;
    }

    method ProcessBlockCoinbaseTX(blk: Block, blockFees: nat, patchState: PatchDB) returns (r: Result<()>)
      requires blk.txs != [] && blk.txs[0] in txTable
      modifies patchState`coins
      ensures var closed := CloseBlock(txTable, blk.txs[0], Some((old(patchState.Value()), blockFees)));
        && (r.Success? <==> closed.Some?)
        && (r.Success? ==> closed == Some(patchState.Value()))
    {
      var coinbase := txTable[blk.txs[0]];
      if !IsCoinbase(coinbase) || AmountOut(coinbase.outputs) != blockFees { return Failure(BadCoinbase); }
      var paid := app.ProcessPayments(blk.txs[0], coinbase, patchState);
      return if paid.Failure? then Failure(paid.error) else Success(());
    }

    /** Execute one more transfer of a block on the block's patch. */
    method ExecNextTx(t: Hash, cid: nat, sizeFee: nat, patchState: PatchDB, blockFees: nat)
      returns (r: Result<(PatchDB, nat)>)
      requires patchState.Valid()
      ensures var next := ExecNext(txTable, storage.utxos, Some((patchState.Value(), blockFees)), t, cid, sizeFee);
        && (r.Success? <==> next.Some?)
        && (r.Success? ==> fresh(r.value.0) && r.value.0.Valid() && next == Some((r.value.0.Value(), r.value.1)))
    {
      if t !in txTable { return Failure(Malformed); }
      if txTable[t].conciliumId != cid { return Failure(WrongConcilium); }
      var executed := ProcessTx(t, patchState, sizeFee);
      if executed.Failure? { return Failure(executed.error); }
      var (patchThisTx, fee) := executed.value;
      var merged := patchState.Merge(patchThisTx, true);
      return if merged.Failure? then Failure(merged.error) else Success((merged.value, blockFees + fee));
    }

    /** The patch of a block, or a failure that changes nothing. */
    method ExecuteTheBlock(blk: Block, sizeFee: Hash -> nat) returns (r: Result<PatchDB>)
      requires pendingBlocks.Valid()
      ensures r.Success? <==> ExecuteBlock(txTable, State(), blk, sizeFee).Some?
      ensures r.Success? ==>
        && fresh(r.value) && r.value.Valid()
        && ExecuteBlock(txTable, State(), blk, sizeFee) == Some(r.value.Value())
    {
      var heightOk := CheckHeight(blk);
      if !heightOk { return Failure(BadHeight); }
      var parents := pendingBlocks.MergePatches(blk.parents);
      if parents.Failure? { return Failure(parents.error); }
      var patchState := parents.value;
      var ok := patchState.SetConciliumId(blk.conciliumId);
      if blk.txs == [] || blk.txs[0] !in txTable { return Failure(Malformed); }
      r := ExecTransfers(blk, sizeFee, patchState);
    }

    /** The transfers of a block one after the other; the patch of its parents is only read. */
    method ExecRest(rest: seq<Hash>, cid: nat, sizeFee: Hash -> nat, parentsPatch: PatchDB)
      returns (r: Result<(PatchDB, nat)>)
      requires parentsPatch.Valid()
      ensures var state := ExecTxs(txTable, storage.utxos, parentsPatch.Value(), rest, cid, sizeFee);
        && (r.Success? <==> state.Some?)
        && (r.Success? ==>
              && (r.value.0 == parentsPatch || fresh(r.value.0)) && r.value.0.Valid()
              && state == Some((r.value.0.Value(), r.value.1)))
    {
      ghost var p := parentsPatch.Value();
      var patchState, blockFees := parentsPatch, 0;
      for k := 0 to |rest|
        invariant patchState.Valid() && (patchState == parentsPatch || fresh(patchState))
        invariant ExecTxs(txTable, storage.utxos, p, rest[..k], cid, sizeFee) == Some((patchState.Value(), blockFees))
      {
        ExecTxsNext(txTable, storage.utxos, p, rest, k, cid, sizeFee);
        var next := ExecNextTx(rest[k], cid, sizeFee(rest[k]), patchState, blockFees);
        if next.Failure? {
          StaysStuck(txTable, storage.utxos, p, rest, k + 1, cid, sizeFee);
          return Failure(next.error);
        }
        patchState, blockFees := next.value.0, next.value.1;
      }
      assert rest[..|rest|] == rest;
      return Success((patchState, blockFees));
    }

    method ExecTransfers(blk: Block, sizeFee: Hash -> nat, parentsPatch: PatchDB) returns (r: Result<PatchDB>)
      requires parentsPatch.Valid() && blk.txs != [] && blk.txs[0] in txTable
      modifies parentsPatch`coins
      ensures var p := old(parentsPatch.Value());
        var state := ExecBlock(txTable, storage.utxos, p, blk.txs, blk.conciliumId, sizeFee);
        && (r.Success? <==> state.Some?)
        && (r.Success? ==>
              && (r.value == parentsPatch || fresh(r.value)) && r.value.Valid() && state == Some(r.value.Value()))
    {
      var executed := ExecRest(blk.txs[1..], blk.conciliumId, sizeFee, parentsPatch);
      if executed.Failure? { return Failure(executed.error); }
      var (patchState, blockFees) := executed.value;
      var closed := ProcessBlockCoinbaseTX(blk, blockFees, patchState);
      return if closed.Failure? then Failure(closed.error) else Success(patchState);
    }

    /** Store the patch of the stable blocks, mark them final and the rolled back ones bad. */
    method ProcessFinalityResults(f: FinalityResult)
      requires pendingBlocks.Valid()
      modifies this`final, this`bad, storage
      ensures pendingBlocks.Valid()
      ensures State() ==
        Finalised(old(State()), Outcome(pendingBlocks.Value(), f.stable, f.rollback), f.patchToApply.Value())
    {
      storage.ApplyPatch(f.patchToApply);
      final := final + f.stable;
      bad := bad + f.rollback;
    }

    /** Save an executed block with its patch. */
    method Join(blk: Block, patchState: PatchDB)
      requires pendingBlocks.Valid() && patchState.Valid() && patchState !in pendingBlocks.repr
      requires blk.hash !in pendingBlocks.dag
      requires forall p :: p in blk.parents && p in pendingBlocks.dag ==> pendingBlocks.dag[p].height < blk.height
      modifies this`heights, pendingBlocks
      ensures pendingBlocks.Valid() && pendingBlocks.repr == old(pendingBlocks.repr) + {patchState}
      ensures State() == Joined(old(State()), blk, patchState.Value())
    {
      pendingBlocks.AddBlock(blk, patchState);
      heights := heights[blk.hash := blk.height];
    }

    /** Settle what the new block `n` makes final. */
    method Settle(n: Hash, conciliums: nat) returns (ghost tops: seq<Hash>)
      requires pendingBlocks.Valid() && n in pendingBlocks.dag && !TopsClash(pendingBlocks.Value(), n, conciliums)
      modifies this`final, this`bad, storage, pendingBlocks, pendingBlocks.repr
      ensures pendingBlocks.Valid() && pendingBlocks.repr == old(pendingBlocks.repr)
      ensures Settled(old(State()), n, conciliums, tops, State())
    {
      ghost var st := State();
      var result := pendingBlocks.CheckFinality(n, conciliums);
      if result.value.None? {
        NothingSettled(st, n, conciliums);
        return [];
      }
      FinishSettling(st, n, conciliums, result.value.value);
      return result.value.value.topStable;
    }

    method FinishSettling(ghost st: NodeState, ghost n: Hash, ghost conciliums: nat, f: FinalityResult)
      requires pendingBlocks.Valid() && State() == st.(pending := pendingBlocks.Value())
      requires TopsOf(st.pending.dag, n, conciliums, f.topStable) && f.topStable != []
      requires SettledAs(st.pending, n, Elements(f.topStable), f.patchToApply.Value(),
                         Outcome(pendingBlocks.Value(), f.stable, f.rollback))
      requires ParentsPatch(st.pending, f.topStable) == Success(f.patchToApply.Value())
      modifies this`final, this`bad, storage
      ensures pendingBlocks.Valid() && Settled(st, n, conciliums, f.topStable, State())
    {
      SettledAsFinalised(st, n, conciliums, f.topStable, f.patchToApply.Value(),
                         Outcome(pendingBlocks.Value(), f.stable, f.rollback));
      ProcessFinalityResults(f);
    }

    /** Add an executed block to the pending ones and settle what it makes final. */
    method AcceptBlock(blk: Block, patchState: PatchDB, conciliums: nat) returns (ghost tops: seq<Hash>)
      requires pendingBlocks.Valid() && patchState.Valid() && patchState !in pendingBlocks.repr
      requires CanJoin(State(), blk, patchState.Value(), conciliums)
      modifies this`heights, this`final, this`bad, storage, pendingBlocks, pendingBlocks.repr, patchState
      ensures pendingBlocks.Valid() && pendingBlocks.repr == old(pendingBlocks.repr) + {patchState}
      ensures Accepted(old(State()), blk, old(patchState.Value()), conciliums, tops, State())
    {
      Join(blk, patchState);
      tops := Settle(blk.hash, conciliums);
    }

    /** Whether all parents were executed; a failure if a bad parent comes before any unknown one. */
    method CanExecuteBlock(blk: Block) returns (r: Result<bool>)
      requires failed !! final && failed !! pendingBlocks.dag.Keys
      ensures r == Success(true) <==> CanExecute(State(), blk)
      ensures r.Failure? <==> exists k :: BadParentAt(State(), blk, k)
    {
      for k := 0 to |blk.parents|
        invariant forall j :: 0 <= j < k ==> blk.parents[j] in final || blk.parents[j] in pendingBlocks.dag
      {
        if blk.parents[k] in failed {
          assert BadParentAt(State(), blk, k);
          assert !IsExecuted(State(), blk.parents[k]) && blk.parents[k] in blk.parents;
          return Failure(BadParent);
        }
        if blk.parents[k] !in final && blk.parents[k] !in pendingBlocks.dag {
          assert !IsExecuted(State(), blk.parents[k]) && blk.parents[k] in blk.parents;
          return Success(false);
        }
      }
      return Success(true);
    }

    method BlockBad(hash: Hash)
      requires pendingBlocks.Valid()
      modifies this`bad, this`failed
      ensures pendingBlocks.Valid() && pendingBlocks.repr == old(pendingBlocks.repr)
      ensures State() == Rejected(old(State()), hash)
    {
      bad, failed := bad + {hash}, failed + {hash};
    }

    /** Execute a block whose parents were executed, and accept it or mark it bad. */
    method ExecAndAccept(blk: Block, sizeFee: Hash -> nat, conciliums: nat)
      requires Valid() && FreshCoinbase(txTable, State(), story, blk)
      requires !IsKnown(State(), blk.hash) && CanExecute(State(), blk)
      modifies this`heights, this`final, this`bad, this`failed, storage, pendingBlocks, pendingBlocks.repr
      ensures pendingBlocks.Valid() && fresh(pendingBlocks.repr - old(pendingBlocks.repr))
      ensures HasExecuted(txTable, old(State()), blk, sizeFee, conciliums, State())
    {
      var patchState := ExecuteTheBlock(blk, sizeFee);
      if patchState.Failure? {
        BlockBad(blk.hash);
      } else {
        AcceptExecuted(blk, patchState.value, sizeFee, conciliums);
      }
    }

    method AcceptExecuted(blk: Block, patchState: PatchDB, ghost sizeFee: Hash -> nat, conciliums: nat)
      requires Valid() && FreshCoinbase(txTable, State(), story, blk)
      requires !IsKnown(State(), blk.hash) && CanExecute(State(), blk)
      requires patchState.Valid() && patchState !in pendingBlocks.repr
      requires ExecuteBlock(txTable, State(), blk, sizeFee) == Some(patchState.Value())
      modifies this`heights, this`final, this`bad, storage, pendingBlocks, pendingBlocks.repr, patchState
      ensures pendingBlocks.Valid() && pendingBlocks.repr == old(pendingBlocks.repr) + {patchState}
      ensures HasExecuted(txTable, old(State()), blk, sizeFee, conciliums, State())
    {
      ghost var st, p := State(), patchState.Value();
      ExecutedCanJoin(txTable, st, story, blk, sizeFee, p, conciliums);
      ghost var tops := AcceptBlock(blk, patchState, conciliums);
      AcceptedIsExecuted(txTable, st, blk, sizeFee, conciliums, p, tops, State());
    }

    /** Ignore a block that is known, execute one whose parents were executed, refuse any other or let it wait. */
    method DispatchBlock(blk: Block, sizeFee: Hash -> nat, conciliums: nat)
      requires Valid() && FreshCoinbase(txTable, State(), story, blk)
      modifies this`heights, this`final, this`bad, this`failed, storage, pendingBlocks, pendingBlocks.repr
      ensures pendingBlocks.Valid() && fresh(pendingBlocks.repr - old(pendingBlocks.repr))
      ensures IsKnown(old(State()), blk.hash) ==> State() == old(State())
      ensures !IsKnown(old(State()), blk.hash) && !CanExecute(old(State()), blk) ==>
        State() == Refused(old(State()), blk)
      ensures !IsKnown(old(State()), blk.hash) && CanExecute(old(State()), blk) ==>
        HasExecuted(txTable, old(State()), blk, sizeFee, conciliums, State())
    {
      if blk.hash in bad || blk.hash in final || blk.hash in pendingBlocks.dag { return; }
      var can := CanExecuteBlock(blk);
      if can.Failure? {
        BlockBad(blk.hash);
      } else if can.value {
        ExecAndAccept(blk, sizeFee, conciliums);
      }
    }

    /** A block arrives: one step of the node, after which storage and pending patches are plain ledgers again. */
    method ProcessBlock(blk: Block, sizeFee: Hash -> nat, conciliums: nat)
      requires Valid() && FreshCoinbase(txTable, State(), story, blk)
      modifies this, storage, pendingBlocks, pendingBlocks.repr
      ensures Valid() && fresh(pendingBlocks.repr - old(pendingBlocks.repr))
      ensures StepTold(txTable, old(State()), old(story), blk, sizeFee, conciliums, State(), story)
      ensures !CanExecute(old(State()), blk) && (forall k :: !BadParentAt(old(State()), blk, k)) ==>
        State() == old(State())
      ensures Advanced(old(State()), old(story), blk, State(), story)
    {
      ghost var st, g := State(), story;
      assert NodeOk(txTable, st, g) && FreshCoinbase(txTable, st, g, blk);
      DispatchBlock(blk, sizeFee, conciliums);
      ghost var after := State();
      DispatchedStep(txTable, st, blk, sizeFee, conciliums, after);
      ghost var longer := StepHasStory(txTable, st, g, blk, sizeFee, conciliums, after);
      StepKeeps(txTable, st, g, blk, sizeFee, conciliums, after, longer);
      if !CanExecute(st, blk) && forall k :: !BadParentAt(st, blk, k) {
        WaitsForParents(txTable, st, blk, sizeFee, conciliums, after);
      }
      Remember(longer);
    }

    ghost method Remember(longer: Story)
      requires pendingBlocks.Valid() && NodeOk(txTable, State(), longer)
      modifies this`story
      ensures Valid() && story == longer && State() == old(State())
    {
      story := longer;
    }
  }
}
