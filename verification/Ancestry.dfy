/**
  Which of the blocks of a run make up a history: those that are final, those below the block by
  the parents it names, and what is below either. Blocks rolled back later stay part of it.
 */
module Ancestry {
  import opened Wrappers
  import opened Ledger
  import opened Patches
  import opened MergeAlgebra
  import opened MergeTotals
  import opened PendingDag
  import opened Finality
  import opened NodeRun
  import opened RunLog

  /** The place of a block and those of all accepted blocks below it. */
  function Ancestors(arrivals: seq<Arrival>, accepted: set<nat>, j: nat): set<nat>
    requires j < |arrivals|
    decreases j
  {
    {j} + set i, x | i in accepted && i < j && arrivals[i].blk.hash in arrivals[j].blk.parents
                  && x in Ancestors(arrivals, accepted, i) :: x
  }

  function UpTo(accepted: set<nat>, k: nat): set<nat> {
    set i | i in accepted && i < k
  }

  predicate Bound(arrivals: seq<Arrival>, placed: set<nat>) {
    forall i :: i in placed ==> i < |arrivals|
  }

  /** The places, among `placed`, of the blocks in `blocks`, and of all below them. */
  function AncestorsOf(arrivals: seq<Arrival>, accepted: set<nat>, placed: set<nat>, blocks: set<Hash>): set<nat>
    requires Bound(arrivals, placed)
  {
    set j, x | j in placed && arrivals[j].blk.hash in blocks && x in Ancestors(arrivals, accepted, j) :: x
  }

  predicate IsAt(arrivals: seq<Arrival>, placed: set<nat>, i: nat, h: Hash)
    requires Bound(arrivals, placed)
  {
    i in placed && arrivals[i].blk.hash == h
  }

  /** The block at place `j` names `p` as a parent, which is at a place before it. */
  ghost predicate HasParent(arrivals: seq<Arrival>, placed: set<nat>, j: nat, p: Hash)
    requires Bound(arrivals, placed) && j in placed
  {
    p in arrivals[j].blk.parents && exists i: nat :: i < j && IsAt(arrivals, placed, i, p)
  }

  /** Block `v` is at place `j`, and its pending parents are at places before it. */
  ghost predicate PlaceOf(arrivals: seq<Arrival>, placed: set<nat>, dag: Dag, v: Hash, j: nat)
    requires Bound(arrivals, placed) && v in dag
  {
    IsAt(arrivals, placed, j, v) && forall p :: p in dag[v].parents ==> HasParent(arrivals, placed, j, p)
  }

  /** The accepted blocks are different ones, none is lost, and every pending block is among them. */
  ghost predicate Placed(arrivals: seq<Arrival>, placed: set<nat>, st: NodeState)
    requires Bound(arrivals, placed)
  {
    && (forall i, h :: IsAt(arrivals, placed, i, h) ==> IsExecuted(st, h) || h in st.bad)
    && (forall i, j, h :: IsAt(arrivals, placed, i, h) && IsAt(arrivals, placed, j, h) ==> i == j)
    && (forall v :: v in st.pending.dag ==> exists j :: PlaceOf(arrivals, placed, st.pending.dag, v, j))
  }

  /** The trace knows each pending block with the final ones. */
  ghost predicate Knows(arrivals: seq<Arrival>, accepted: set<nat>, tr: Trace)
    requires Bound(arrivals, tr.accepted)
  {
    forall j, v :: v in tr.pending && IsAt(arrivals, tr.accepted, j, v) ==>
      tr.pending[v] == tr.final + Ancestors(arrivals, accepted, j)
  }

  /** What the trace knows are the final blocks, those below each pending one, and all below these. */
  ghost predicate Kin(arrivals: seq<Arrival>, accepted: set<nat>, st: NodeState, tr: Trace)
    requires Bound(arrivals, tr.accepted)
  {
    && tr.accepted <= accepted && Placed(arrivals, tr.accepted, st)
    && tr.final == AncestorsOf(arrivals, accepted, tr.accepted, st.final)
    && tr.pending.Keys == st.pending.dag.Keys && Knows(arrivals, accepted, tr)
  }

  lemma PlaceFound(arrivals: seq<Arrival>, accepted: set<nat>, st: NodeState, tr: Trace, v: Hash)
    returns (j: nat)
    requires Bound(arrivals, tr.accepted) && Kin(arrivals, accepted, st, tr) && v in st.pending.dag
    ensures PlaceOf(arrivals, tr.accepted, st.pending.dag, v, j)
    ensures tr.pending[v] == tr.final + Ancestors(arrivals, accepted, j)
  {
    j :| PlaceOf(arrivals, tr.accepted, st.pending.dag, v, j);
  }

  /** What is below a parent is below the block. */
  lemma {:induction false} ParentBelow(arrivals: seq<Arrival>, accepted: set<nat>, i: nat, j: nat)
    requires i < j < |arrivals| && i in accepted && arrivals[i].blk.hash in arrivals[j].blk.parents
    ensures Ancestors(arrivals, accepted, i) <= Ancestors(arrivals, accepted, j)
  {
  }

  /** The pending parent `p` of the block at place `j` is at a place below. */
  lemma ParentPlace(arrivals: seq<Arrival>, accepted: set<nat>, placed: set<nat>, st: NodeState, v: Hash, j: nat,
                    p: Hash)
    returns (m: nat)
    requires Bound(arrivals, placed) && placed <= accepted && Placed(arrivals, placed, st)
    requires v in st.pending.dag && IsAt(arrivals, placed, j, v) && p in st.pending.dag[v].parents
    ensures IsAt(arrivals, placed, m, p) && m < j
    ensures Ancestors(arrivals, accepted, m) <= Ancestors(arrivals, accepted, j)
  {
    var place :| PlaceOf(arrivals, placed, st.pending.dag, v, place);
    assert HasParent(arrivals, placed, j, p);
    m :| m < j && IsAt(arrivals, placed, m, p);
    ParentBelow(arrivals, accepted, m, j);
  }

  /** What is reached in the pending graph is below by the named parents too. */
  lemma {:induction false} ReachedBelow(arrivals: seq<Arrival>, accepted: set<nat>, placed: set<nat>, st: NodeState,
                                        v: Hash, w: Hash, j: nat, i: nat)
    requires Bound(arrivals, placed) && placed <= accepted && Placed(arrivals, placed, st) && ValidDag(st.pending.dag)
    requires v in st.pending.dag && w in Down(st.pending.dag, v)
    requires IsAt(arrivals, placed, j, v) && IsAt(arrivals, placed, i, w)
    ensures Ancestors(arrivals, accepted, i) <= Ancestors(arrivals, accepted, j)
    decreases st.pending.dag[v].height
  {
    if v != w {
      var p :| p in st.pending.dag[v].parents && w in Down(st.pending.dag, p);
      var m := ParentPlace(arrivals, accepted, placed, st, v, j, p);
      ReachedBelow(arrivals, accepted, placed, st, p, w, m, i);
    }
  }

  /** ---------- a block that is not accepted ---------- */

  lemma IgnoredKin(arrivals: seq<Arrival>, accepted: set<nat>, st: NodeState, tr: Trace, turn: Turn, st': NodeState)
    requires Bound(arrivals, tr.accepted) && Kin(arrivals, accepted, st, tr)
    requires st'.final == st.final && st'.pending == st.pending && st.bad <= st'.bad
    ensures Kin(arrivals, accepted, st', Logged(tr, turn))
  {
  }

  /** ---------- a block that is accepted ---------- */

  lemma StillPlaced(arrivals: seq<Arrival>, placed: set<nat>, more: set<nat>, dag: Dag, dag': Dag, v: Hash, j: nat)
    requires Bound(arrivals, more) && placed <= more && v in dag && v in dag' && dag'[v].parents <= dag[v].parents
    requires PlaceOf(arrivals, placed, dag, v, j)
    ensures PlaceOf(arrivals, more, dag', v, j)
  {
    forall p | p in dag'[v].parents
      ensures HasParent(arrivals, more, j, p)
    {
      assert HasParent(arrivals, placed, j, p);
      var i: nat :| i < j && IsAt(arrivals, placed, i, p);
      assert IsAt(arrivals, more, i, p);
    }
  }

  lemma NewBlockPlaced(arrivals: seq<Arrival>, placed: set<nat>, k: nat, st: NodeState, dag': Dag)
    requires k < |arrivals| && (forall i :: i in placed ==> i < k) && Placed(arrivals, placed, st)
    requires var blk := arrivals[k].blk;
      blk.hash in dag' && dag'[blk.hash].parents == ParentsIn(st.pending.dag, blk.parents)
    ensures PlaceOf(arrivals, placed + {k}, dag', arrivals[k].blk.hash, k)
  {
    var blk := arrivals[k].blk;
    forall q | q in dag'[blk.hash].parents
      ensures HasParent(arrivals, placed + {k}, k, q)
    {
      var i :| PlaceOf(arrivals, placed, st.pending.dag, q, i);
      assert IsAt(arrivals, placed + {k}, i, q);
    }
  }

  /** The new block is at place `k`, and the others where they were. */
  lemma NewPlace(arrivals: seq<Arrival>, placed: set<nat>, k: nat, st: NodeState, p: Patch)
    requires k < |arrivals| && (forall i :: i in placed ==> i < k) && Placed(arrivals, placed, st)
    requires !IsExecuted(st, arrivals[k].blk.hash) && arrivals[k].blk.hash !in st.bad
    ensures Placed(arrivals, placed + {k}, Joined(st, arrivals[k].blk, p))
  {
    var dag, dag' := st.pending.dag, Joined(st, arrivals[k].blk, p).pending.dag;
    forall i, h | IsAt(arrivals, placed + {k}, i, h) && i != k
      ensures IsAt(arrivals, placed, i, h)
    {
    }
    NewBlockPlaced(arrivals, placed, k, st, dag');
    forall v | v in dag'
      ensures exists j: nat :: PlaceOf(arrivals, placed + {k}, dag', v, j)
    {
      if v != arrivals[k].blk.hash {
        var j :| PlaceOf(arrivals, placed, dag, v, j);
        StillPlaced(arrivals, placed, placed + {k}, dag, dag', v, j);
      }
    }
  }

  function Below(tr: Trace, st: NodeState, blk: Block): set<nat> {
    IndicesOf(tr.final, tr.pending, OnlyPending(st.pending.dag, blk.parents))
  }

  lemma {:induction false} BelowIsAncestor(arrivals: seq<Arrival>, accepted: set<nat>, k: nat, st: NodeState,
                                           tr: Trace, x: nat)
    requires k < |arrivals| && tr.accepted == UpTo(accepted, k) && Kin(arrivals, accepted, st, tr)
    requires x in Below(tr, st, arrivals[k].blk)
    ensures x in tr.final + Ancestors(arrivals, accepted, k)
  {
    var dag, parents := st.pending.dag, arrivals[k].blk.parents;
    OnlyPendingIn(dag, parents);
    if x !in tr.final {
      var v :| v in OnlyPending(dag, parents) && v in tr.pending && x in tr.pending[v];
      var j := PlaceFound(arrivals, accepted, st, tr, v);
      ParentBelow(arrivals, accepted, j, k);
    }
  }

  /** What is below an executed parent is known to it, or final. */
  lemma {:induction false} NamedIsBelow(arrivals: seq<Arrival>, accepted: set<nat>, st: NodeState, tr: Trace,
                                        blk: Block,
                                        i: nat, v: Hash)
    requires Bound(arrivals, tr.accepted) && Kin(arrivals, accepted, st, tr) && CanExecute(st, blk)
    requires IsAt(arrivals, tr.accepted, i, v) && v in blk.parents
    ensures Ancestors(arrivals, accepted, i) <= Below(tr, st, blk)
  {
    OnlyPendingIn(st.pending.dag, blk.parents);
    if v in st.pending.dag {
      assert tr.pending[v] == tr.final + Ancestors(arrivals, accepted, i);
      assert v in OnlyPending(st.pending.dag, blk.parents);
    } else {
      assert v in st.final;
    }
  }

  lemma {:induction false} AncestorIsBelow(arrivals: seq<Arrival>, accepted: set<nat>, k: nat, st: NodeState,
                                           tr: Trace, x: nat)
    requires k < |arrivals| && tr.accepted == UpTo(accepted, k) && Kin(arrivals, accepted, st, tr)
    requires CanExecute(st, arrivals[k].blk) && x in Ancestors(arrivals, accepted, k) && x != k
    ensures x in Below(tr, st, arrivals[k].blk)
  {
    var parents := arrivals[k].blk.parents;
    var i :| i in accepted && i < k && arrivals[i].blk.hash in parents && x in Ancestors(arrivals, accepted, i);
    NamedIsBelow(arrivals, accepted, st, tr, arrivals[k].blk, i, arrivals[i].blk.hash);
  }

  /** The places below a new block are those below its parents. */
  lemma {:induction false} NewAncestors(arrivals: seq<Arrival>, accepted: set<nat>, k: nat, st: NodeState, tr: Trace)
    requires k < |arrivals| && tr.accepted == UpTo(accepted, k) && Kin(arrivals, accepted, st, tr)
    requires CanExecute(st, arrivals[k].blk)
    ensures Below(tr, st, arrivals[k].blk) + {k} == tr.final + Ancestors(arrivals, accepted, k)
  {
    forall x | x in Below(tr, st, arrivals[k].blk) { BelowIsAncestor(arrivals, accepted, k, st, tr, x); }
    forall x | x in Ancestors(arrivals, accepted, k) && x != k { AncestorIsBelow(arrivals, accepted, k, st, tr, x); }
  }

  /** Nothing more is final when a block joins. */
  lemma JoinedFinal(arrivals: seq<Arrival>, accepted: set<nat>, placed: set<nat>, k: nat, final: set<Hash>)
    requires Bound(arrivals, placed) && k < |arrivals| && arrivals[k].blk.hash !in final
    ensures AncestorsOf(arrivals, accepted, placed + {k}, final) == AncestorsOf(arrivals, accepted, placed, final)
  {
  }

  lemma {:induction false} JoinKnows(arrivals: seq<Arrival>, accepted: set<nat>, k: nat, tr: Trace, turn: Turn,
                                     h: Hash, below: set<nat>)
    requires k < |arrivals| && |tr.log| == k && Bound(arrivals, tr.accepted) && Knows(arrivals, accepted, tr)
    requires h == arrivals[k].blk.hash && (forall i :: !IsAt(arrivals, tr.accepted, i, h))
    requires below + {k} == tr.final + Ancestors(arrivals, accepted, k)
    ensures Bound(arrivals, tr.accepted + {k}) && Knows(arrivals, accepted, Joining(tr, turn, h, below))
  {
    var tr' := Joining(tr, turn, h, below);
    forall j, v | v in tr'.pending && IsAt(arrivals, tr'.accepted, j, v)
      ensures tr'.pending[v] == tr'.final + Ancestors(arrivals, accepted, j)
    {
      if j != k { assert IsAt(arrivals, tr.accepted, j, v); }
    }
  }

  lemma JoinKin(arrivals: seq<Arrival>, accepted: set<nat>, k: nat, st: NodeState, tr: Trace, turn: Turn, p: Patch)
    requires k < |arrivals| && k in accepted && |tr.log| == k
    requires tr.accepted == UpTo(accepted, k) && Kin(arrivals, accepted, st, tr)
    requires !IsExecuted(st, arrivals[k].blk.hash) && arrivals[k].blk.hash !in st.bad && CanExecute(st, arrivals[k].blk)
    ensures var blk := arrivals[k].blk;
      var tr' := Joining(tr, turn, blk.hash, Below(tr, st, blk));
      tr'.accepted == UpTo(accepted, k + 1) && Kin(arrivals, accepted, Joined(st, blk, p), tr')
  {
    var blk := arrivals[k].blk;
    assert UpTo(accepted, k + 1) == tr.accepted + {k};
    NewPlace(arrivals, tr.accepted, k, st, p);
    NewAncestors(arrivals, accepted, k, st, tr);
    JoinedFinal(arrivals, accepted, tr.accepted, k, st.final);
    JoinKnows(arrivals, accepted, k, tr, turn, blk.hash, Below(tr, st, blk));
  }

  /** ---------- what it makes final ---------- */

  /** The state without the blocks `gone`, of which `stable` are final and the others rolled back. */
  ghost predicate Leaves(st: NodeState, stable: set<Hash>, gone: set<Hash>, st': NodeState) {
    && stable <= gone && st'.final == st.final + stable && st'.bad == st.bad + (gone - stable)
    && st'.pending.dag.Keys == st.pending.dag.Keys - gone
    && forall v :: v in st'.pending.dag ==> st'.pending.dag[v].parents <= st.pending.dag[v].parents
  }

  lemma LeftPlaced(arrivals: seq<Arrival>, placed: set<nat>, st: NodeState, stable: set<Hash>, gone: set<Hash>,
                   st': NodeState)
    requires Bound(arrivals, placed) && Placed(arrivals, placed, st) && Leaves(st, stable, gone, st')
    ensures Placed(arrivals, placed, st')
  {
    var dag, dag' := st.pending.dag, st'.pending.dag;
    forall v | v in dag'
      ensures exists j :: PlaceOf(arrivals, placed, dag', v, j)
    {
      var j :| PlaceOf(arrivals, placed, dag, v, j);
      StillPlaced(arrivals, placed, placed, dag, dag', v, j);
    }
  }

  lemma {:induction false} StableKnown(arrivals: seq<Arrival>, accepted: set<nat>, st: NodeState, tr: Trace,
                                       tops: seq<Hash>, j: nat,
                                       w: Hash)
    requires Bound(arrivals, tr.accepted) && Kin(arrivals, accepted, st, tr) && ValidDag(st.pending.dag)
    requires Elements(tops) <= st.pending.dag.Keys && IsAt(arrivals, tr.accepted, j, w)
    requires w in DownAll(st.pending.dag, Elements(tops))
    ensures Ancestors(arrivals, accepted, j) <= IndicesOf(tr.final, tr.pending, tops)
  {
    var v :| v in Elements(tops) && w in Down(st.pending.dag, v);
    var i := PlaceFound(arrivals, accepted, st, tr, v);
    ReachedBelow(arrivals, accepted, tr.accepted, st, v, w, i, j);
  }

  lemma TopKnown(arrivals: seq<Arrival>, accepted: set<nat>, st: NodeState, tr: Trace, tops: seq<Hash>, x: nat)
    requires Bound(arrivals, tr.accepted) && Kin(arrivals, accepted, st, tr)
    requires Elements(tops) <= st.pending.dag.Keys && x in IndicesOf(tr.final, tr.pending, tops)
    ensures x in AncestorsOf(arrivals, accepted, tr.accepted, st.final + Elements(tops))
  {
    if x !in tr.final {
      var v :| v in tops && v in tr.pending && x in tr.pending[v];
      var j := PlaceFound(arrivals, accepted, st, tr, v);
      assert v in Elements(tops);
    }
  }

  /** What the top stable blocks know is what is below the stable ones. */
  lemma StableAncestors(arrivals: seq<Arrival>, accepted: set<nat>, st: NodeState, tr: Trace, tops: seq<Hash>)
    requires Bound(arrivals, tr.accepted) && Kin(arrivals, accepted, st, tr) && ValidDag(st.pending.dag)
    requires Elements(tops) <= st.pending.dag.Keys
    ensures IndicesOf(tr.final, tr.pending, tops) ==
      AncestorsOf(arrivals, accepted, tr.accepted, st.final + DownAll(st.pending.dag, Elements(tops)))
  {
    var stable := DownAll(st.pending.dag, Elements(tops));
    var known := IndicesOf(tr.final, tr.pending, tops);
    var now := AncestorsOf(arrivals, accepted, tr.accepted, st.final + stable);
    DownAllClosed(st.pending.dag, Elements(tops));
    forall x | x in known
      ensures x in now
    {
      TopKnown(arrivals, accepted, st, tr, tops, x);
    }
    forall x | x in now
      ensures x in known
    {
      var j :| j in tr.accepted && arrivals[j].blk.hash in st.final + stable && x in Ancestors(arrivals, accepted, j);
      if arrivals[j].blk.hash !in st.final {
        StableKnown(arrivals, accepted, st, tr, tops, j, arrivals[j].blk.hash);
      }
    }
  }

  lemma SettlingKnows(arrivals: seq<Arrival>, accepted: set<nat>, tr: Trace, tops: seq<Hash>, left: set<Hash>)
    requires Bound(arrivals, tr.accepted) && Knows(arrivals, accepted, tr)
    ensures Knows(arrivals, accepted, Settling(tr, tops, left))
  {
    var tr' := Settling(tr, tops, left);
    forall j, v | v in tr'.pending && IsAt(arrivals, tr.accepted, j, v)
      ensures tr'.pending[v] == tr'.final + Ancestors(arrivals, accepted, j)
    {
      assert tr.pending[v] == tr.final + Ancestors(arrivals, accepted, j);
    }
  }

  lemma LeaveKin(arrivals: seq<Arrival>, accepted: set<nat>, st: NodeState, tr: Trace, tops: seq<Hash>, gone: set<Hash>,
                 st': NodeState)
    requires Bound(arrivals, tr.accepted) && Kin(arrivals, accepted, st, tr) && ValidDag(st.pending.dag)
    requires Elements(tops) <= st.pending.dag.Keys
    requires Leaves(st, DownAll(st.pending.dag, Elements(tops)), gone, st')
    ensures Kin(arrivals, accepted, st', Settling(tr, tops, st'.pending.dag.Keys))
  {
    LeftPlaced(arrivals, tr.accepted, st, DownAll(st.pending.dag, Elements(tops)), gone, st');
    StableAncestors(arrivals, accepted, st, tr, tops);
    SettlingKnows(arrivals, accepted, tr, tops, st'.pending.dag.Keys);
  }

  lemma NothingLeaves(st: NodeState)
    requires ValidPending(st.pending)
    ensures Leaves(st, DownAll(st.pending.dag, Elements([])), {}, st)
  {
    assert DownAll(st.pending.dag, Elements([])) == {};
  }

  lemma FinalisedLeaves(st: NodeState, n: Hash, tops: seq<Hash>, s: Patch) returns (gone: set<Hash>)
    requires ValidPending(st.pending) && Elements(tops) <= st.pending.dag.Keys
    ensures Leaves(st, DownAll(st.pending.dag, Elements(tops)), gone,
                   Finalised(st, Finalise(st.pending, n, Elements(tops), s), s))
  {
    var o := Finalise(st.pending, n, Elements(tops), s);
    LeftOver(st.pending, n, Elements(tops), s);
    gone := o.stable + o.rollback;
    assert gone - o.stable == o.rollback;
  }

  lemma SettleKin(arrivals: seq<Arrival>, accepted: set<nat>, st: NodeState, tr: Trace, n: Hash, conciliums: nat,
                  tops: seq<Hash>, st': NodeState)
    requires Bound(arrivals, tr.accepted) && Kin(arrivals, accepted, st, tr) && Settled(st, n, conciliums, tops, st')
    ensures Kin(arrivals, accepted, st', Settling(tr, tops, st'.pending.dag.Keys))
  {
    var gone := {};
    if tops == [] {
      NothingLeaves(st);
    } else {
      gone := FinalisedLeaves(st, n, tops, ParentsPatch(st.pending, tops).value);
    }
    LeaveKin(arrivals, accepted, st, tr, tops, gone, st');
  }
}
