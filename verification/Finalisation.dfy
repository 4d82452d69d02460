/**
  What finality means for those who read the node: which blocks become stable, that the
  outcome does not depend on the order in which paths are searched, and that no reader of a
  surviving block sees the storage move under it.
 */
module Finalisation {
  import opened Wrappers
  import opened Collections
  import opened Ledger
  import opened Patches
  import opened MergeAlgebra
  import opened Refinement
  import opened Execution
  import opened Conservation
  import opened PendingDag
  import opened Finality
  import opened NodeRun

  /** ---------- which blocks become stable ---------- */

  /** Some way down from `n` to `w` meets blocks of at least `majority` conciliums. */
  ghost predicate SeenFrom(dag: Dag, n: Hash, majority: nat, w: Hash) {
    exists path :: IsPath(dag, n, path) && path[|path| - 1] == w && |Seen(dag, path)| >= majority
  }

  /** The shortest part of a path that meets enough conciliums. */
  lemma {:induction false} FirstOn(dag: Dag, path: seq<Hash>, majority: nat, k: nat) returns (j: nat)
    requires k <= |path| && majority > 0 && forall v :: v in path ==> v in dag
    requires |Seen(dag, path[..k])| >= majority
    ensures 0 < j <= k && FirstSeen(dag, path[..j], majority)
  {
    assert Seen(dag, path[..0]) == {};
    assert path[..k][..k - 1] == path[..k - 1];
    if |Seen(dag, path[..k - 1])| < majority {
      j := k;
    } else {
      j := FirstOn(dag, path, majority, k - 1);
    }
  }

  lemma {:induction false} PathTail(dag: Dag, n: Hash, path: seq<Hash>, j: nat)
    requires ValidDag(dag) && IsPath(dag, n, path) && j < |path|
    ensures path[|path| - 1] in Down(dag, path[j])
  {
    var tail := path[j..];
    assert forall k :: 0 <= k < |tail| ==> tail[k] == path[j + k];
    assert IsPath(dag, path[j], tail);
    PathIsDown(dag, path[j], tail, |tail| - 1);
  }

  lemma PathsJoin(dag: Dag, n: Hash, path: seq<Hash>, rest: seq<Hash>)
    requires IsPath(dag, n, path) && IsPath(dag, path[|path| - 1], rest)
    ensures IsPath(dag, n, path + rest[1..])
    ensures (path + rest[1..])[|path + rest[1..]| - 1] == rest[|rest| - 1]
    ensures Seen(dag, path) <= Seen(dag, path + rest[1..])
    ensures |Seen(dag, path)| <= |Seen(dag, path + rest[1..])|
  {
    var all := path + rest[1..];
    forall k | 0 <= k < |all| - 1
      ensures all[k + 1] in dag[all[k]].parents
    {
      if k >= |path| - 1 {
        assert all[k] == rest[k - |path| + 1] && all[k + 1] == rest[k - |path| + 2];
      }
    }
    assert all[..|path|] == path && all[..|all|] == all;
    SeenGrows(dag, all, |path|, |all|);
  }

  lemma SeenIsStable(dag: Dag, n: Hash, majority: nat, w: Hash) returns (u: Hash)
    requires ValidDag(dag) && majority > 0 && SeenFrom(dag, n, majority, w)
    ensures u in dag && IsTopStable(dag, n, majority, u) && w in Down(dag, u)
  {
    var path :| IsPath(dag, n, path) && path[|path| - 1] == w && |Seen(dag, path)| >= majority;
    assert path[..|path|] == path;
    var j := FirstOn(dag, path, majority, |path|);
    assert WitnessedBy(dag, n, majority, path[..j], path[j - 1]);
    PathTail(dag, n, path, j - 1);
    u := path[j - 1];
  }

  lemma {:induction false} StableSeen(dag: Dag, n: Hash, majority: nat, w: Hash, u: Hash)
    requires ValidDag(dag) && u in dag && IsTopStable(dag, n, majority, u) && w in Down(dag, u)
    ensures SeenFrom(dag, n, majority, w)
  {
    var path :| WitnessedBy(dag, n, majority, path, u);
    var rest := DownIsPath(dag, u, w);
    PathsJoin(dag, n, path, rest);
  }

  /** Some way down from `n` to `w` meets blocks of more than half of `conciliums` conciliums. */
  ghost predicate MostSaw(dag: Dag, n: Hash, conciliums: nat, w: Hash) {
    exists path :: IsPath(dag, n, path) && path[|path| - 1] == w && MostOn(dag, path, conciliums)
  }

  ghost predicate MostOn(dag: Dag, path: seq<Hash>, conciliums: nat)
    requires forall v :: v in path ==> v in dag
  {
    2 * |set v | v in path :: dag[v].conciliumId| > conciliums
  }

  lemma MajorityIsMost(dag: Dag, n: Hash, conciliums: nat, w: Hash)
    ensures SeenFrom(dag, n, Majority(conciliums), w) <==> MostSaw(dag, n, conciliums, w)
  {
    forall path | IsPath(dag, n, path)
      ensures |Seen(dag, path)| >= Majority(conciliums) <==> MostOn(dag, path, conciliums)
    {
      assert Seen(dag, path) == set v | v in path :: dag[v].conciliumId;
    }
  }

  /** Two paths that saw most conciliums hold blocks of one and the same concilium. */
  lemma MajoritiesMeet(dag: Dag, p: seq<Hash>, q: seq<Hash>, enabled: set<nat>) returns (a: Hash, b: Hash)
    requires forall v :: v in p + q ==> v in dag && dag[v].conciliumId in enabled
    requires MostOn(dag, p, |enabled|) && MostOn(dag, q, |enabled|)
    ensures a in p && b in q && dag[a].conciliumId == dag[b].conciliumId
  {
    var A, B := set v | v in p :: dag[v].conciliumId, set v | v in q :: dag[v].conciliumId;
    assert forall v :: v in p || v in q ==> v in p + q;
    if A !! B {
      assert |A + B| == |A| + |B|;
      SubsetSize(A + B, enabled);
    }
    var c :| c in A && c in B;
    a :| a in p && dag[a].conciliumId == c;
    b :| b in q && dag[b].conciliumId == c;
  }

  function Stable(dag: Dag, tops: seq<Hash>): set<Hash>
    requires ValidDag(dag) && Elements(tops) <= dag.Keys
  {
    DownAll(dag, Elements(tops))
  }

  /**
    The stable blocks: those below a block at which some path first has seen a majority are
    exactly those to which some path leads that saw more than half of the conciliums.
   */
  lemma StableIsSeen(dag: Dag, n: Hash, conciliums: nat, tops: seq<Hash>, w: Hash)
    requires ValidDag(dag) && TopsOf(dag, n, conciliums, tops) && Elements(tops) <= dag.Keys
    ensures w in Stable(dag, tops) <==> MostSaw(dag, n, conciliums, w)
  {
    MajorityIsMost(dag, n, conciliums, w);
    if SeenFrom(dag, n, Majority(conciliums), w) {
      var u := SeenIsStable(dag, n, Majority(conciliums), w);
      assert u in tops;
    }
    if w in Stable(dag, tops) {
      var u :| u in Elements(tops) && w in Down(dag, u);
      StableSeen(dag, n, Majority(conciliums), w, u);
    }
  }

  /**
    A settled step makes final exactly the blocks to which some path leads that saw more than
    half of the conciliums, and with them all they build on; it keeps none of them pending and rolls none of them back.
   */
  lemma SettledStable(st: NodeState, n: Hash, conciliums: nat, tops: seq<Hash>, st': NodeState, w: Hash)
    requires Settled(st, n, conciliums, tops, st')
    ensures w in st'.final <==> w in st.final || MostSaw(st.pending.dag, n, conciliums, w)
    ensures MostSaw(st.pending.dag, n, conciliums, w) ==>
      && w in st.pending.dag && w !in st'.pending.dag && (w in st'.bad ==> w in st.bad)
      && forall p :: p in st.pending.dag[w].parents ==> p in st'.final
  {
    var dag := st.pending.dag;
    StableIsSeen(dag, n, conciliums, tops, w);
    DownAllClosed(dag, Elements(tops));
    if tops != [] {
      LeftOver(st.pending, n, Elements(tops), ParentsPatch(st.pending, tops).value);
    }
  }

  /** Nothing pending builds on `tip`, and its history together with `E` spends an output twice. */
  ghost predicate ClashingTip(T: TxTable, dag: Dag, D: map<Hash, set<Hash>>, E: set<Hash>, tip: Hash) {
    && tip in dag && (forall w :: w in dag ==> tip !in dag[w].parents)
    && tip in D && !NoDoubleSpend(T, D[tip] + E)
  }

  /** `v` lies below, or is, such a block. */
  ghost predicate BelowClash(T: TxTable, dag: Dag, D: map<Hash, set<Hash>>, E: set<Hash>, v: Hash)
    requires ValidDag(dag)
  {
    exists tip :: ClashingTip(T, dag, D, E, tip) && v in Down(dag, tip)
  }

  /** Without what builds on it, a block that nothing builds on is a tip, and the other way round. */
  lemma TipOfRest(dag: Dag, gone: set<Hash>, tip: Hash)
    requires ValidDag(dag) && DownClosed(dag, gone) && tip in dag && tip !in gone
    ensures tip in Tips(Remove(dag, gone)) <==> forall w :: w in dag ==> tip !in dag[w].parents
  {
    var rest := Remove(dag, gone);
    if tip in Tips(rest) {
      forall w | w in dag
        ensures tip !in dag[w].parents
      {
        if w in rest { assert tip !in rest[w].parents; }
      }
    }
  }

  /** A tip of the rest is bad iff nothing builds on it and its history clashes. */
  lemma BadTipIff(T: TxTable, S: set<Hash>, dag: Dag, patches: map<Hash, Patch>, D: map<Hash, set<Hash>>, n: Hash,
                  gone: set<Hash>, s: Patch, E: set<Hash>, tip: Hash)
    requires ValidDag(dag) && DownClosed(dag, gone) && dag.Keys == patches.Keys == D.Keys && tip in dag && tip !in gone
    requires Represents(T, S, D[tip], patches[tip]) && Represents(T, S, E, s) && (tip == n ==> E <= D[tip])
    ensures tip in BadTips(Remove(dag, gone), patches, n, s) <==> ClashingTip(T, dag, D, E, tip)
  {
    TipOfRest(dag, gone, tip);
    ConflictIsDoubleSpend(T, S, D[tip], E, patches[tip], s);
    if tip == n { assert D[n] + E == D[n]; }
  }

  lemma {:induction false} BelowInRest(dag: Dag, gone: set<Hash>, vs: set<Hash>, v: Hash)
    requires ValidDag(dag) && ValidDag(Remove(dag, gone)) && DownClosed(dag, gone)
    requires v in dag && v !in gone && vs <= Remove(dag, gone).Keys
    ensures v in DownAll(Remove(dag, gone), vs) <==> exists tip :: tip in vs && v in Down(dag, tip)
  {
    forall tip | tip in vs
      ensures v in Down(Remove(dag, gone), tip) <==> v in Down(dag, tip)
    {
      if v in Down(dag, tip) { DownWithout(dag, gone, tip, v); }
      if v in Down(Remove(dag, gone), tip) { DownInWhole(dag, gone, tip, v); }
    }
  }

  /** The branches rolled back are those of the pending blocks at which the history clashes. */
  lemma RollbackIff(T: TxTable, S: set<Hash>, pd: Pending, D: map<Hash, set<Hash>>, n: Hash, gone: set<Hash>,
                    s: Patch, E: set<Hash>, v: Hash)
    requires PendingOk(T, S, pd, D) && n in pd.dag && DownClosed(pd.dag, gone) && v in pd.dag && v !in gone
    requires Represents(T, S, E, s) && E <= D[n] && ValidDag(Remove(pd.dag, gone))
    ensures v in DownAll(Remove(pd.dag, gone), BadTips(Remove(pd.dag, gone), pd.patches, n, s)) <==>
      BelowClash(T, pd.dag, D, E, v)
  {
    var bad := BadTips(Remove(pd.dag, gone), pd.patches, n, s);
    BelowInRest(pd.dag, gone, bad, v);
    if tip :| tip in bad && v in Down(pd.dag, tip) {
      BadTipIff(T, S, pd.dag, pd.patches, D, n, gone, s, E, tip);
      assert ClashingTip(T, pd.dag, D, E, tip);
    }
    if BelowClash(T, pd.dag, D, E, v) {
      var tip :| ClashingTip(T, pd.dag, D, E, tip) && v in Down(pd.dag, tip);
      DownWithout(pd.dag, gone, tip, v);
      BadTipIff(T, S, pd.dag, pd.patches, D, n, gone, s, E, tip);
    }
  }

  /**
    The blocks rolled back are exactly those below, or at, a pending block that nothing builds on
    and whose history, with what became final, spends an output twice; but for those that became
    final themselves.
   */
  lemma RolledBackIff(T: TxTable, st: NodeState, g: Story, n: Hash, conciliums: nat, tops: seq<Hash>,
                      st': NodeState, v: Hash)
    requires NodeOk(T, st, g) && n in st.pending.dag && v in st.pending.dag
    requires tops != [] && Settled(st, n, conciliums, tops, st')
    ensures v in st'.bad <==>
      && !MostSaw(st.pending.dag, n, conciliums, v)
      && BelowClash(T, st.pending.dag, g.pending, HistoryOf(g.final, g.pending, tops), v)
  {
    var pd, s := st.pending, ParentsPatch(st.pending, tops).value;
    StableMerges(T, g.final, pd, g.pending, n, conciliums, tops);
    StableIsSeen(pd.dag, n, conciliums, tops, v);
    DownAllClosed(pd.dag, Elements(tops));
    LeftOver(pd, n, Elements(tops), s);
    RemoveValid(pd.dag, Stable(pd.dag, tops));
    if v !in Stable(pd.dag, tops) {
      RollbackIff(T, g.final, pd, g.pending, n, Stable(pd.dag, tops), s, HistoryOf(g.final, g.pending, tops), v);
    }
  }

  lemma {:induction false} DownWithout(dag: Dag, gone: set<Hash>, v: Hash, w: Hash)
    requires ValidDag(dag) && ValidDag(Remove(dag, gone)) && DownClosed(dag, gone)
    requires v in dag && w in Down(dag, v) && w !in gone
    ensures v !in gone && w in Down(Remove(dag, gone), v)
    decreases dag[v].height
  {
    if w != v {
      var p :| p in dag[v].parents && w in Down(dag, p);
      DownWithout(dag, gone, p, w);
      assert p in Remove(dag, gone)[v].parents;
    }
  }

  lemma {:induction false} DownInWhole(dag: Dag, gone: set<Hash>, v: Hash, w: Hash)
    requires ValidDag(dag) && ValidDag(Remove(dag, gone)) && v in Remove(dag, gone) && w in Down(Remove(dag, gone), v)
    ensures w in Down(dag, v)
    decreases dag[v].height
  {
    if w != v {
      var p :| p in Remove(dag, gone)[v].parents && w in Down(Remove(dag, gone), p);
      DownInWhole(dag, gone, p, w);
      assert p in dag[v].parents;
    }
  }

  /** ---------- the outcome is determined ---------- */

  function OutputTable(T: TxTable): Utxos {
    map h | h in T :: Outputs(T, h)
  }

  lemma PendingOver(T: TxTable, S: set<Hash>, pd: Pending, D: map<Hash, set<Hash>>, vs: seq<Hash>)
    requires PendingOk(T, S, pd, D) && forall v :: v in vs ==> v in pd.dag
    ensures forall p :: p in PatchesOf(pd.patches, vs) ==> Over(OutputTable(T), p)
  {
    forall k | 0 <= k < |vs|
      ensures Over(OutputTable(T), pd.patches[vs[k]])
    {
      assert Represents(T, S, D[vs[k]], pd.patches[vs[k]]);
    }
  }

  lemma SamePatches(patches: map<Hash, Patch>, vs: seq<Hash>, ws: seq<Hash>)
    requires Elements(vs) == Elements(ws) && forall v :: v in vs ==> v in patches
    ensures forall w :: w in ws ==> w in patches
    ensures Elements(PatchesOf(patches, vs)) == Elements(PatchesOf(patches, ws))
  {
    forall w
      ensures w in vs <==> w in ws
    {
      assert w in Elements(vs) <==> w in Elements(ws);
    }
    PatchesElements(patches, vs);
    PatchesElements(patches, ws);
  }

  lemma PatchesElements(patches: map<Hash, Patch>, vs: seq<Hash>)
    requires forall v :: v in vs ==> v in patches
    ensures Elements(PatchesOf(patches, vs)) == set v | v in vs :: patches[v]
  {
    var ps := PatchesOf(patches, vs);
    forall v | v in vs
      ensures patches[v] in ps
    {
      var k :| 0 <= k < |vs| && vs[k] == v;
      assert ps[k] == patches[v];
    }
  }

  lemma NoElements<X>(s: seq<X>)
    ensures s == [] <==> Elements(s) == {}
  {
    if s != [] { assert s[0] in Elements(s); }
  }

  lemma SameTops(dag: Dag, n: Hash, conciliums: nat, tops: seq<Hash>, tops2: seq<Hash>)
    requires TopsOf(dag, n, conciliums, tops) && TopsOf(dag, n, conciliums, tops2)
    ensures Elements(tops) == Elements(tops2)
  {
    forall w
      ensures w in tops <==> w in tops2
    {
      assert w in tops <==> IsTopStable(dag, n, Majority(conciliums), w);
    }
  }

  lemma SameMerge(T: TxTable, S: set<Hash>, pd: Pending, D: map<Hash, set<Hash>>, vs: seq<Hash>, ws: seq<Hash>)
    requires PendingOk(T, S, pd, D) && Elements(vs) <= pd.dag.Keys && Elements(vs) == Elements(ws)
    ensures ParentsPatch(pd, vs) == ParentsPatch(pd, ws)
  {
    forall v | v in vs
      ensures v in pd.dag
    {
      assert v in Elements(vs);
    }
    SamePatches(pd.patches, vs, ws);
    AllPendingStay(pd.dag, vs);
    AllPendingStay(pd.dag, ws);
    PendingOver(T, S, pd, D, vs);
    MergeAllDependsOnSet(OutputTable(T), PatchesOf(pd.patches, vs), PatchesOf(pd.patches, ws));
  }

  /** However the paths were searched, the same blocks are top stable and the same state is left. */
  lemma SettledUnique(T: TxTable, st: NodeState, g: Story, n: Hash, conciliums: nat,
                      tops: seq<Hash>, st': NodeState, tops2: seq<Hash>, st2: NodeState)
    requires NodeOk(T, st, g)
    requires Settled(st, n, conciliums, tops, st') && Settled(st, n, conciliums, tops2, st2)
    ensures Elements(tops) == Elements(tops2) && st' == st2
  {
    SameTops(st.pending.dag, n, conciliums, tops, tops2);
    SameMerge(T, g.final, st.pending, g.pending, tops, tops2);
    NoElements(tops);
    NoElements(tops2);
  }

  /** ---------- what readers see ---------- */

  lemma SurvivorPatch(st: NodeState, n: Hash, conciliums: nat, tops: seq<Hash>, st': NodeState, v: Hash, s: Patch)
    requires tops != [] && Settled(st, n, conciliums, tops, st') && ParentsPatch(st.pending, tops) == Success(s)
    requires v in st'.pending.dag
    ensures st'.utxos == Apply(st.utxos, s)
    ensures v in st.pending.dag && v in st.pending.patches
    ensures v in st'.pending.patches && st'.pending.patches[v] == Purge(st.pending.patches[v], s)
  {
    LeftOver(st.pending, n, Elements(tops), s);
  }

  /**
    After a settled step that stored `s` every surviving block reads, through its purged patch
    and the new storage, what it read merged with `s` over the old storage. A block above all
    top stable ones reads exactly what it read before.
   */
  lemma {:induction false} SurvivorReads(T: TxTable, st: NodeState, g: Story, n: Hash, conciliums: nat,
                                         tops: seq<Hash>, st': NodeState,
                                         v: Hash, s: Patch)
    requires NodeOk(T, st, g) && n in st.pending.dag
    requires tops != [] && Settled(st, n, conciliums, tops, st') && ParentsPatch(st.pending, tops) == Success(s)
    requires v in st'.pending.dag && v in st.pending.patches && v in st'.pending.patches
    ensures !Conflict(st.pending.patches[v], s)
    ensures Flatten(View(st'.pending.patches[v], st'.utxos)) == Flatten(View(Merge(st.pending.patches[v], s), st.utxos))
    ensures v in st.pending.dag && (forall w :: w in tops ==> w in Down(st.pending.dag, v)) ==>
      Flatten(View(st'.pending.patches[v], st'.utxos)) == Flatten(View(st.pending.patches[v], st.utxos))
  {
    var pd, E := st.pending, HistoryOf(g.final, g.pending, tops);
    StableMerges(T, g.final, pd, g.pending, n, conciliums, tops);
    FinaliseKeeps(T, g.final, pd, g.pending, n, Elements(tops), s, E);
    SurvivorPatch(st, n, conciliums, tops, st', v, s);
    FinalisationKeepsMeaning(T, g.final, st.utxos, g.pending[v], E, pd.patches[v], s);
    if forall w :: w in tops ==> w in Down(pd.dag, v) {
      AllPendingStay(pd.dag, tops);
      StableMergeSucceeds(T, g.final, pd, g.pending, v, tops);
    }
  }

  /** ---------- value ---------- */

  /** An executed block leaves the total of all unspent outputs as it found it under its parents. */
  lemma ExecutionConserves(T: TxTable, st: NodeState, g: Story, blk: Block, sizeFee: Hash -> nat, p: Patch)
    requires NodeOk(T, st, g)
    requires blk.txs != [] && blk.txs[0] in T ==> FreshOutputs(T, ParentsHistory(st, g, blk), blk.txs[0])
    requires ExecuteBlock(T, st, blk, sizeFee) == Some(p)
    ensures ParentsPatch(st.pending, blk.parents).Success?
    ensures var below := ParentsPatch(st.pending, blk.parents).value;
            Total(Flatten(View(p, st.utxos))) == Total(Flatten(View(below, st.utxos)))
  {
    var H, below := ParentsHistory(st, g, blk), ParentsPatch(st.pending, blk.parents).value;
    ExecuteRefines(T, st, g, blk, sizeFee);
    OnlyPendingIn(st.pending.dag, blk.parents);
    MergeVertices(T, g.final, st.pending, g.pending, OnlyPending(st.pending.dag, blk.parents));
    ViewIsLedger(T, g.final, st.utxos, H, below);
    ExecBlockRefines(T, g.final, st.utxos, H, below, blk.txs, blk.conciliumId, sizeFee);
    BlockConserves(T, H, blk.txs, blk.conciliumId, sizeFee);
  }
}
