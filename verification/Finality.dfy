/**
  Finality over the pending blocks: which become stable, which are rolled back, and what is
  left of the patches of the others; and the proof that, whatever happened before, merging the
  stable patches never throws, no survivor clashes with them, and no survivor's ledger is lost.
 */
module Finality {
  import opened Wrappers
  import opened Ledger
  import opened Patches
  import opened MergeAlgebra
  import opened Refinement
  import opened PendingDag

  datatype Pending = Pending(dag: Dag, patches: map<Hash, Patch>)
  datatype Outcome = Outcome(pending: Pending, stable: set<Hash>, rollback: set<Hash>)

  ghost predicate ValidPending(pd: Pending) {
    ValidDag(pd.dag) && pd.dag.Keys == pd.patches.Keys
  }

  function PatchesOf(patches: map<Hash, Patch>, vs: seq<Hash>): seq<Patch>
    requires forall v :: v in vs ==> v in patches
  {
    seq(|vs|, k requires 0 <= k < |vs| => patches[vs[k]])
  }

  /** Tips other than `n` whose patch does not merge with `s`. */
  function BadTips(dag: Dag, patches: map<Hash, Patch>, n: Hash, s: Patch): set<Hash>
    requires dag.Keys <= patches.Keys
  {
    set v | v in Tips(dag) && v != n && Conflict(patches[v], s)
  }

  function PurgedFor(dag: Dag, patches: map<Hash, Patch>, s: Patch): map<Hash, Patch>
    requires dag.Keys <= patches.Keys
  {
    map v | v in dag :: Purge(patches[v], s)
  }

  /** Take the blocks under `tops` out, roll back the branches under clashing tips, purge the rest. */
  function Finalise(pd: Pending, n: Hash, tops: set<Hash>, s: Patch): Outcome
    requires ValidPending(pd) && tops <= pd.dag.Keys
  {
    var stable := DownAll(pd.dag, tops);
    var unstable := Remove(pd.dag, stable);
    RemoveValid(pd.dag, stable);
    var rollback := DownAll(unstable, BadTips(unstable, pd.patches, n, s));
    var left := Remove(unstable, rollback);
    Outcome(Pending(left, PurgedFor(left, pd.patches, s)), stable, rollback)
  }

  /** ---------- what is kept ---------- */

  /** Every pending patch represents its history, and histories grow from parent to child. */
  ghost predicate PendingOk(T: TxTable, S: set<Hash>, pd: Pending, D: map<Hash, set<Hash>>) {
    && ValidPending(pd) && D.Keys == pd.dag.Keys
    && (forall v :: v in D ==> Represents(T, S, D[v], pd.patches[v]))
    && HistoriesGrow(pd.dag, D)
  }

  ghost predicate HistoriesGrow(dag: Dag, D: map<Hash, set<Hash>>) {
    forall v, p :: v in dag && v in D && p in dag[v].parents ==> p in D && D[p] <= D[v]
  }

  function HistoryOf(S: set<Hash>, D: map<Hash, set<Hash>>, vs: seq<Hash>): set<Hash> {
    S + set v, t | v in vs && v in D && t in D[v] :: t
  }

  lemma HistoryOfSnoc(S: set<Hash>, D: map<Hash, set<Hash>>, vs: seq<Hash>, v: Hash)
    requires v in D
    ensures HistoryOf(S, D, vs + [v]) == HistoryOf(S, D, vs) + D[v]
  {
  }

  lemma {:induction false} HistoryBelow(dag: Dag, D: map<Hash, set<Hash>>, v: Hash, w: Hash)
    requires ValidDag(dag) && v in dag && v in D && HistoriesGrow(dag, D) && w in Down(dag, v)
    ensures w in D && D[w] <= D[v]
    decreases dag[v].height
  {
    if w != v {
      var p :| p in dag[v].parents && w in Down(dag, p);
      HistoryBelow(dag, D, p, w);
    }
  }

  lemma PatchesOfSnoc(patches: map<Hash, Patch>, vs: seq<Hash>, v: Hash)
    requires v in patches && forall w :: w in vs ==> w in patches
    ensures PatchesOf(patches, vs + [v]) == PatchesOf(patches, vs) + [patches[v]]
  {
  }

  /** `r` is the merge of patches whose histories unite to `H`; it throws iff `H` spends an output twice. */
  ghost predicate MergeOf(T: TxTable, S: set<Hash>, H: set<Hash>, r: Result<Patch>) {
    && (r.Success? <==> NoDoubleSpend(T, H))
    && (r.Success? ==> Represents(T, S, H, r.value))
  }

  lemma {:induction false} MergeOneMore(T: TxTable, S: set<Hash>, H: set<Hash>, ps: seq<Patch>, D: set<Hash>, p: Patch)
    requires MergeOf(T, S, H, MergeAll(ps)) && Represents(T, S, D, p)
    ensures MergeOf(T, S, H + D, MergeAll(ps + [p]))
  {
    assert (ps + [p])[..|ps|] == ps;
    assert D + H == H + D;
    if MergeAll(ps).Success? {
      var acc := MergeAll(ps).value;
      ConflictIsDoubleSpend(T, S, D, H, p, acc);
      if !Conflict(p, acc) {
        MergeRepresents(T, S, D, H, p, acc);
      }
    } else if NoDoubleSpend(T, H + D) {
      NoDoubleSpendBelow(T, H, H + D);
    }
  }

  /** Merging patches of pending blocks throws iff their histories together spend an output twice. */
  lemma {:induction false} MergeVertices(T: TxTable, S: set<Hash>, pd: Pending, D: map<Hash, set<Hash>>, vs: seq<Hash>)
    requires PendingOk(T, S, pd, D) && History(T, S) && forall v :: v in vs ==> v in pd.dag
    ensures MergeOf(T, S, HistoryOf(S, D, vs), MergeAll(PatchesOf(pd.patches, vs)))
  {
    if vs == [] {
      EmptyRepresents(T, S);
      assert HistoryOf(S, D, vs) == S;
    } else {
      var init, v := vs[..|vs| - 1], vs[|vs| - 1];
      assert vs == init + [v];
      MergeVertices(T, S, pd, D, init);
      HistoryOfSnoc(S, D, init, v);
      PatchesOfSnoc(pd.patches, init, v);
      MergeOneMore(T, S, HistoryOf(S, D, init), PatchesOf(pd.patches, init), D[v], pd.patches[v]);
    }
  }

  /** The history of blocks below `n` is part of that of `n`; so merging them never throws. */
  lemma {:induction false} StableMergeSucceeds(T: TxTable, S: set<Hash>, pd: Pending, D: map<Hash, set<Hash>>,
                                               n: Hash, tops: seq<Hash>)
    requires PendingOk(T, S, pd, D) && History(T, S) && n in pd.dag
    requires forall v :: v in tops ==> v in pd.dag && v in Down(pd.dag, n)
    ensures HistoryOf(S, D, tops) <= D[n]
    ensures MergeAll(PatchesOf(pd.patches, tops)).Success?
    ensures Represents(T, S, HistoryOf(S, D, tops), MergeAll(PatchesOf(pd.patches, tops)).value)
  {
    forall t | t in HistoryOf(S, D, tops)
      ensures t in D[n]
    {
      if t !in S {
        var v :| v in tops && v in D && t in D[v];
        HistoryBelow(pd.dag, D, n, v);
      }
    }
    NoDoubleSpendBelow(T, HistoryOf(S, D, tops), D[n]);
    MergeVertices(T, S, pd, D, tops);
  }

  /** What is left is a valid graph without the stable and the rolled back blocks, which are disjoint. */
  lemma LeftOver(pd: Pending, n: Hash, tops: set<Hash>, s: Patch)
    requires ValidPending(pd) && tops <= pd.dag.Keys
    ensures var o := Finalise(pd, n, tops, s);
      && ValidPending(o.pending)
      && o.stable <= pd.dag.Keys && o.rollback <= pd.dag.Keys && o.stable !! o.rollback
      && o.pending.dag.Keys == pd.dag.Keys - o.stable - o.rollback
      && tops <= o.stable && DownClosed(pd.dag, o.stable)
      && DownClosed(pd.dag, o.stable + o.rollback)
      && forall v :: v in o.pending.dag ==>
           o.pending.dag[v] == pd.dag[v].(parents := pd.dag[v].parents - o.stable - o.rollback)
  {
    DownAllClosed(pd.dag, tops);
    var stable := DownAll(pd.dag, tops);
    var unstable := Remove(pd.dag, stable);
    RemoveValid(pd.dag, stable);
    var bad := BadTips(unstable, pd.patches, n, s);
    DownAllClosed(unstable, bad);
    RemoveValid(unstable, DownAll(unstable, bad));
  }

  /** A survivor sits below a tip that merges with the stable patch, or below the new block. */
  lemma SurvivorTip(pd: Pending, n: Hash, tops: set<Hash>, s: Patch, v: Hash) returns (unstable: Dag, tip: Hash)
    requires ValidPending(pd) && tops <= pd.dag.Keys
    requires v in Finalise(pd, n, tops, s).pending.dag
    ensures ValidDag(unstable) && unstable.Keys <= pd.dag.Keys
    ensures forall w :: w in unstable ==> unstable[w].parents <= pd.dag[w].parents
    ensures tip in unstable && v in Down(unstable, tip)
    ensures tip == n || !Conflict(pd.patches[tip], s)
  {
    unstable := Remove(pd.dag, DownAll(pd.dag, tops));
    RemoveValid(pd.dag, DownAll(pd.dag, tops));
    tip := TipAbove(unstable, v);
    assert tip in Tips(unstable);
    assert tip !in BadTips(unstable, pd.patches, n, s);
  }

  lemma MergesBelow(T: TxTable, S: set<Hash>, D: set<Hash>, tipD: set<Hash>, E: set<Hash>, p: Patch, s: Patch)
    requires Represents(T, S, tipD, p) && Represents(T, S, E, s) && D <= tipD
    requires E <= tipD || !Conflict(p, s)
    ensures NoDoubleSpend(T, D + E)
  {
    ConflictIsDoubleSpend(T, S, tipD, E, p, s);
    if E <= tipD {
      assert tipD + E == tipD;
    }
    NoDoubleSpendBelow(T, D + E, tipD + E);
  }

  /** What lies below a tip that merges with the stable patch merges with it too, and purges well. */
  lemma {:induction false} PurgedBelow(T: TxTable, S: set<Hash>, pd: Pending, D: map<Hash, set<Hash>>, unstable: Dag,
                                       tip: Hash,
                                       s: Patch, E: set<Hash>, v: Hash)
    requires PendingOk(T, S, pd, D) && Represents(T, S, E, s)
    requires ValidDag(unstable) && unstable.Keys <= pd.dag.Keys
    requires forall w :: w in unstable ==> unstable[w].parents <= pd.dag[w].parents
    requires v in D && tip in unstable && v in Down(unstable, tip)
    requires E <= D[tip] || !Conflict(pd.patches[tip], s)
    ensures !Conflict(pd.patches[v], s)
    ensures Represents(T, E, D[v] + E, Purge(pd.patches[v], s))
  {
    assert HistoriesGrow(unstable, D);
    HistoryBelow(unstable, D, tip, v);
    MergesBelow(T, S, D[v], D[tip], E, pd.patches[tip], s);
    ConflictIsDoubleSpend(T, S, D[v], E, pd.patches[v], s);
    PurgeRepresents(T, S, D[v], E, pd.patches[v], s);
  }

  function Extended(dag: Dag, D: map<Hash, set<Hash>>, E: set<Hash>): map<Hash, set<Hash>>
    requires dag.Keys <= D.Keys
  {
    map v | v in dag :: D[v] + E
  }

  lemma SurvivorPurged(T: TxTable, S: set<Hash>, pd: Pending, D: map<Hash, set<Hash>>,
                       n: Hash, tops: set<Hash>, s: Patch, E: set<Hash>, v: Hash)
    requires PendingOk(T, S, pd, D) && tops <= pd.dag.Keys && n in pd.dag
    requires Represents(T, S, E, s) && E <= D[n]
    requires v in Finalise(pd, n, tops, s).pending.dag && v in D
    ensures !Conflict(pd.patches[v], s)
    ensures Represents(T, E, D[v] + E, Purge(pd.patches[v], s))
  {
    var unstable, tip := SurvivorTip(pd, n, tops, s, v);
    PurgedBelow(T, S, pd, D, unstable, tip, s, E, v);
  }

  lemma ExtendedGrows(dag: Dag, left: Dag, D: map<Hash, set<Hash>>, E: set<Hash>)
    requires ValidDag(left) && D.Keys == dag.Keys && HistoriesGrow(dag, D) && left.Keys <= dag.Keys
    requires forall v :: v in left ==> left[v].parents <= dag[v].parents
    ensures HistoriesGrow(left, Extended(left, D, E))
  {
  }

  lemma AllPurged(T: TxTable, E: set<Hash>, pd: Pending, left: Pending, D: map<Hash, set<Hash>>, s: Patch)
    requires ValidPending(pd) && ValidPending(left) && D.Keys == pd.dag.Keys && HistoriesGrow(pd.dag, D)
    requires left.dag.Keys <= pd.dag.Keys
    requires forall v :: v in left.dag ==> left.dag[v].parents <= pd.dag[v].parents
    requires forall v :: v in left.dag ==> Represents(T, E, D[v] + E, left.patches[v])
    ensures PendingOk(T, E, left, Extended(left.dag, D, E))
  {
    ExtendedGrows(pd.dag, left.dag, D, E);
    var D' := Extended(left.dag, D, E);
    forall v | v in D'
      ensures Represents(T, E, D'[v], left.patches[v])
    {
    }
  }

  /** Finality keeps every survivor's patch meaningful over the new storage. */
  lemma FinaliseKeeps(T: TxTable, S: set<Hash>, pd: Pending, D: map<Hash, set<Hash>>,
                      n: Hash, tops: set<Hash>, s: Patch, E: set<Hash>)
    requires PendingOk(T, S, pd, D) && tops <= pd.dag.Keys && n in pd.dag
    requires Represents(T, S, E, s) && E <= D[n]
    ensures var left := Finalise(pd, n, tops, s).pending;
      && left.dag.Keys <= pd.dag.Keys
      && (forall v :: v in left.dag ==> !Conflict(pd.patches[v], s))
      && PendingOk(T, E, left, Extended(left.dag, D, E))
  {
    var left := Finalise(pd, n, tops, s).pending;
    LeftOver(pd, n, tops, s);
    forall v | v in left.dag
      ensures !Conflict(pd.patches[v], s)
      ensures Represents(T, E, D[v] + E, left.patches[v])
    {
      SurvivorPurged(T, S, pd, D, n, tops, s, E, v);
    }
    AllPurged(T, E, pd, left, D, s);
  }
}
