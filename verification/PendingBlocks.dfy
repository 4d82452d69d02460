/** The manager of pending blocks, updated in place, against the value-level finality. */
module PendingBlocks {
  import opened Wrappers
  import opened Collections
  import opened Ledger
  import Patches
  import opened MergeAlgebra
  import opened PendingDag
  import opened Finality
  import opened NodeRun
  import opened PatchDb

  datatype FinalityResult = FinalityResult(
    patchToApply: PatchDB,
    stable: set<Hash>,
    rollback: set<Hash>,
    topStable: seq<Hash>)

  /** The objects `blocks`, all in `repr`, have the values `patches`. */
  ghost predicate Backed(blocks: map<Hash, PatchDB>, patches: map<Hash, Patches.Patch>, repr: set<PatchDB>)
    reads repr
  {
    && patches.Keys == blocks.Keys
    && forall v :: v in blocks ==> blocks[v] in repr && blocks[v].Value() == patches[v]
  }

  ghost predicate AllNormal(patches: map<Hash, Patches.Patch>) {
    forall v :: v in patches ==> Patches.Normal(patches[v])
  }

  /** No object serves two blocks. */
  ghost predicate Owned(blocks: map<Hash, PatchDB>, owner: map<PatchDB, Hash>) {
    forall v :: v in blocks ==> blocks[v] in owner && owner[blocks[v]] == v
  }

  ghost predicate Coherent(dag: Dag, blocks: map<Hash, PatchDB>, patches: map<Hash, Patches.Patch>,
                           owner: map<PatchDB, Hash>, repr: set<PatchDB>)
    reads repr
  {
    && ValidDag(dag)
    && dag.Keys == blocks.Keys
    && Backed(blocks, patches, repr)
    && AllNormal(patches)
    && Owned(blocks, owner)
  }

  lemma BackedGrows(blocks: map<Hash, PatchDB>, patches: map<Hash, Patches.Patch>, repr: set<PatchDB>, v: Hash,
                    p: PatchDB)
    requires Backed(blocks, patches, repr)
    ensures Backed(blocks[v := p], patches[v := p.Value()], repr + {p})
  {
  }

  lemma BackedShrinks(blocks: map<Hash, PatchDB>, patches: map<Hash, Patches.Patch>, repr: set<PatchDB>,
                      gone: set<Hash>)
    requires Backed(blocks, patches, repr)
    ensures Backed(blocks - gone, patches - gone, repr)
  {
  }

  lemma OwnedShrinks(blocks: map<Hash, PatchDB>, owner: map<PatchDB, Hash>, gone: set<Hash>)
    requires Owned(blocks, owner)
    ensures Owned(blocks - gone, owner)
  {
  }

  lemma OwnedGrows(blocks: map<Hash, PatchDB>, owner: map<PatchDB, Hash>, repr: set<PatchDB>, v: Hash, p: PatchDB)
    requires Owned(blocks, owner) && p !in repr && forall w :: w in blocks ==> blocks[w] in repr
    ensures Owned(blocks[v := p], owner[p := v])
  {
  }

  lemma Unshared(blocks: map<Hash, PatchDB>, owner: map<PatchDB, Hash>, u: Hash, v: Hash)
    requires Owned(blocks, owner) && u in blocks && v in blocks && u != v
    ensures blocks[u] != blocks[v]
  {
    assert owner[blocks[u]] != owner[blocks[v]];
  }

  /** The manager's state and sets are those of `Finalise`. */
  ghost predicate SettledAs(before: Pending, n: Hash, tops: set<Hash>, s: Patches.Patch, o: Outcome) {
    ValidPending(before) && tops <= before.dag.Keys && Finalise(before, n, tops, s) == o
  }

  ghost predicate TopsClash(pd: Pending, n: Hash, conciliums: nat)
    requires pd.dag.Keys <= pd.patches.Keys
  {
    exists tops :: TopsOf(pd.dag, n, conciliums, tops) && ParentsPatch(pd, tops).Failure?
  }

  lemma SameBadTips(dag: Dag, a: map<Hash, Patches.Patch>, b: map<Hash, Patches.Patch>, n: Hash, s: Patches.Patch)
    requires dag.Keys <= a.Keys && dag.Keys <= b.Keys && forall v :: v in dag ==> a[v] == b[v]
    ensures BadTips(dag, a, n, s) == BadTips(dag, b, n, s)
  {
  }

  /** `patches` with those of the blocks in `done` purged. */
  function PurgedAll(patches: map<Hash, Patches.Patch>, done: set<Hash>, s: Patches.Patch): map<Hash, Patches.Patch> {
    map v | v in patches :: if v in done then Patches.Purge(patches[v], s) else patches[v]
  }

  lemma PurgeAllStep(patches: map<Hash, Patches.Patch>, done: set<Hash>, s: Patches.Patch, v: Hash)
    requires v in patches && v !in done
    ensures PurgedAll(patches, done + {v}, s) == PurgedAll(patches, done, s)[v := Patches.Purge(patches[v], s)]
    ensures PurgedAll(patches, done, s)[v] == patches[v]
  {
  }

  lemma PurgedAllIs(dag: Dag, patches: map<Hash, Patches.Patch>, all: map<Hash, Patches.Patch>, s: Patches.Patch)
    requires dag.Keys == patches.Keys <= all.Keys && forall v :: v in patches ==> patches[v] == all[v]
    ensures PurgedAll(patches, patches.Keys, s) == PurgedFor(dag, all, s)
  {
  }

  function Without(pd: Pending, X: set<Hash>): Pending {
    Pending(Remove(pd.dag, X), pd.patches - X)
  }

  lemma WithoutNone(pd: Pending)
    ensures Without(pd, {}) == pd
  {
    assert pd.patches - {} == pd.patches;
    forall v | v in pd.dag
      ensures Remove(pd.dag, {})[v] == pd.dag[v]
    {
      assert pd.dag[v].parents - {} == pd.dag[v].parents;
    }
  }

  lemma WithoutOneMore(pd: Pending, X: set<Hash>, v: Hash)
    ensures Without(Without(pd, X), {v}) == Without(pd, X + {v})
  {
    var a, b := Remove(Remove(pd.dag, X), {v}), Remove(pd.dag, X + {v});
    forall w | w in a
      ensures a[w] == b[w]
    {
      assert pd.dag[w].parents - X - {v} == pd.dag[w].parents - (X + {v});
    }
    assert pd.patches - X - {v} == pd.patches - (X + {v});
  }

  /** Position `k` of `path` is where it first has seen `majority` conciliums. */
  ghost predicate CrossesAt(dag: Dag, path: seq<Hash>, k: nat, majority: nat) {
    k < |path| && (forall v :: v in path ==> v in dag) && FirstSeen(dag, path[..k + 1], majority)
  }

  lemma SeenStep(dag: Dag, path: seq<Hash>, k: nat)
    requires k < |path| && forall v :: v in path ==> v in dag
    ensures Seen(dag, path[..k + 1]) == Seen(dag, path[..k]) + {dag[path[k]].conciliumId}
  {
    assert path[..k + 1] == path[..k] + [path[k]];
  }

  lemma OneCrossing(dag: Dag, path: seq<Hash>, k: nat, majority: nat)
    requires CrossesAt(dag, path, k, majority)
    ensures forall j: nat :: CrossesAt(dag, path, j, majority) ==> j == k
  {
    forall j: nat | CrossesAt(dag, path, j, majority)
      ensures j == k
    {
      assert path[..k + 1][..k] == path[..k] && path[..j + 1][..j] == path[..j];
      if j < k { SeenGrows(dag, path, j + 1, k); }
      if k < j { SeenGrows(dag, path, k + 1, j); }
    }
  }

  lemma NoCrossing(dag: Dag, path: seq<Hash>, majority: nat)
    requires forall v :: v in path ==> v in dag
    requires |Seen(dag, path)| < majority
    ensures forall j: nat :: !CrossesAt(dag, path, j, majority)
  {
    assert path[..|path|] == path;
    forall j: nat | j < |path|
      ensures !CrossesAt(dag, path, j, majority)
    {
      SeenGrows(dag, path, j + 1, |path|);
    }
  }

  /** What the search on one full path says about top stable blocks. */
  lemma PathOutcome(dag: Dag, n: Hash, path: seq<Hash>, majority: nat, vertex: Option<Hash>)
    requires IsPath(dag, n, path)
    requires vertex.None? ==> |Seen(dag, path)| < majority
    requires vertex.Some? ==>
      exists k :: 0 <= k < |path| && path[k] == vertex.value && FirstSeen(dag, path[..k + 1], majority)
    ensures vertex.Some? ==> IsTopStable(dag, n, majority, vertex.value)
    ensures forall j: nat :: CrossesAt(dag, path, j, majority) ==> vertex == Some(path[j])
  {
    if vertex.Some? {
      var k :| 0 <= k < |path| && path[k] == vertex.value && FirstSeen(dag, path[..k + 1], majority);
      PrefixWitnesses(dag, n, path, k, majority);
      OneCrossing(dag, path, k, majority);
    } else {
      NoCrossing(dag, path, majority);
    }
  }

  /** The blocks at which the paths `done` cross the majority are the `tops`. */
  ghost predicate TopsAlong(dag: Dag, n: Hash, majority: nat, done: set<seq<Hash>>, tops: seq<Hash>) {
    && (forall w :: w in tops ==> IsTopStable(dag, n, majority, w))
    && (forall path, k: nat :: path in done && CrossesAt(dag, path, k, majority) ==> path[k] in tops)
  }

  lemma TopsAlongOne(dag: Dag, n: Hash, majority: nat, done: set<seq<Hash>>, tops: seq<Hash>, path: seq<Hash>,
                     vertex: Option<Hash>)
    requires TopsAlong(dag, n, majority, done, tops) && IsPath(dag, n, path)
    requires vertex.None? ==> |Seen(dag, path)| < majority
    requires vertex.Some? ==>
      exists k :: 0 <= k < |path| && path[k] == vertex.value && FirstSeen(dag, path[..k + 1], majority)
    ensures TopsAlong(dag, n, majority, done + {path}, tops + if vertex.Some? then [vertex.value] else [])
  {
    PathOutcome(dag, n, path, majority, vertex);
  }

  lemma {:induction false} AllTopsFound(dag: Dag, n: Hash, majority: nat, tops: seq<Hash>)
    requires ValidDag(dag) && n in dag
    requires TopsAlong(dag, n, majority, PathsDown(dag, n), tops)
    ensures forall w :: IsTopStable(dag, n, majority, w) ==> w in tops
  {
    forall w | IsTopStable(dag, n, majority, w)
      ensures w in tops
    {
      var path :| WitnessedBy(dag, n, majority, path, w);
      var full := PathExtends(dag, n, path);
      PathsDownArePaths(dag, n, full);
      assert full[..|path|] == path;
      assert CrossesAt(dag, full, |path| - 1, majority);
    }
  }

  lemma {:induction false} DownAllGrows(dag: Dag, vs: set<Hash>, v: Hash)
    requires ValidDag(dag) && vs <= dag.Keys && v in dag
    ensures DownAll(dag, vs + {v}) == DownAll(dag, vs) + Down(dag, v)
  {
  }

  lemma PrefixWitnesses(dag: Dag, n: Hash, path: seq<Hash>, k: nat, majority: nat)
    requires IsPath(dag, n, path) && CrossesAt(dag, path, k, majority)
    ensures IsTopStable(dag, n, majority, path[k])
  {
    assert WitnessedBy(dag, n, majority, path[..k + 1], path[k]);
  }

  lemma VertexValid(dag: Dag, n: Hash, hd: Header)
    requires ValidDag(dag) && n !in dag
    requires forall p :: p in hd.parents ==> p in dag && dag[p].height < hd.height
    ensures ValidDag(dag[n := hd])
  {
  }

  lemma MergeNext(pd: Pending, vs: seq<Hash>, v: Hash)
    requires pd.dag.Keys == pd.patches.Keys
    ensures ParentsPatch(pd, vs + [v]) ==
      if v !in pd.dag then ParentsPatch(pd, vs)
      else if ParentsPatch(pd, vs).Failure? then ParentsPatch(pd, vs)
      else Patches.TryMerge(pd.patches[v], ParentsPatch(pd, vs).value)
  {
    OnlyPendingIn(pd.dag, vs);
    OnlyPendingIn(pd.dag, vs + [v]);
    assert (vs + [v])[..|vs|] == vs;
    if v in pd.dag {
      var ps := PatchesOf(pd.patches, OnlyPending(pd.dag, vs));
      assert PatchesOf(pd.patches, OnlyPending(pd.dag, vs + [v])) == ps + [pd.patches[v]];
      assert (ps + [pd.patches[v]])[..|ps|] == ps;
    }
  }

  lemma StaysFailed(pd: Pending, vs: seq<Hash>, k: nat)
    requires pd.dag.Keys == pd.patches.Keys && k <= |vs|
    requires ParentsPatch(pd, vs[..k]).Failure?
    ensures ParentsPatch(pd, vs).Failure?
    decreases |vs| - k
  {
    if k < |vs| {
      MergeNext(pd, vs[..k], vs[k]);
      assert vs[..k + 1] == vs[..k] + [vs[k]];
      StaysFailed(pd, vs, k + 1);
    } else {
      assert vs[..k] == vs;
    }
  }

  class PendingBlocksManager {
    var dag: Dag
    var blocks: map<Hash, PatchDB>
    var topStable: seq<Hash>
    ghost var patches: map<Hash, Patches.Patch>  // the values of `blocks`
    ghost var owner: map<PatchDB, Hash>          // the inverse of `blocks`
    ghost var repr: set<PatchDB>

    ghost predicate Valid()
      reads this, repr
    {
      Coherent(dag, blocks, patches, owner, repr)
    }

    ghost function Value(): Pending
      reads this
    {
      Pending(dag, patches)
    }

    constructor (tops: seq<Hash>)
      ensures Valid() && Value() == Pending(map[], map[]) && repr == {}
      ensures topStable == tops
    {
      dag, blocks, topStable := map[], map[], tops;
      patches, owner, repr := map[], map[], {};
    }

    /** The parents an edge leads to: those that are still pending. */
    method PendingParents(hashes: seq<Hash>) returns (parents: set<Hash>)
      ensures parents == ParentsIn(dag, hashes)
    {
      parents := {};
      for k := 0 to |hashes|
        invariant parents == ParentsIn(dag, hashes[..k])
      {
        if hashes[k] in dag { parents := parents + {hashes[k]}; }
        assert hashes[..k + 1] == hashes[..k] + [hashes[k]];
      }
      assert hashes[..|hashes|] == hashes;
    }

    /** Save a vertex with its patch. */
    method AddVertex(vertex: Hash, hd: Header, patchState: PatchDB)
      requires Valid() && patchState.Valid() && ValidDag(dag[vertex := hd]) && patchState !in repr
      modifies this`dag, this`blocks, this`patches, this`owner, this`repr
      ensures Valid() && repr == old(repr) + {patchState}
      ensures dag == old(dag)[vertex := hd] && patches == old(patches)[vertex := patchState.Value()]
    {
      OwnedGrows(blocks, owner, repr, vertex, patchState);
      BackedGrows(blocks, patches, repr, vertex, patchState);
      Save(dag[vertex := hd], blocks[vertex := patchState], patches[vertex := patchState.Value()],
           owner[patchState := vertex], repr + {patchState});
    }

    method Save(newDag: Dag, newBlocks: map<Hash, PatchDB>, ghost newPatches: map<Hash, Patches.Patch>,
                ghost newOwner: map<PatchDB, Hash>, ghost newRepr: set<PatchDB>)
      requires Coherent(newDag, newBlocks, newPatches, newOwner, newRepr)
      modifies this`dag, this`blocks, this`patches, this`owner, this`repr
      ensures Valid() && dag == newDag && blocks == newBlocks
      ensures patches == newPatches && owner == newOwner && repr == newRepr
    {
      dag, blocks, patches, owner, repr := newDag, newBlocks, newPatches, newOwner, newRepr;
    }

    method AddBlock(blk: Block, patchState: PatchDB)
      requires Valid() && patchState.Valid()
      requires blk.hash !in dag && patchState !in repr
      requires forall p :: p in blk.parents && p in dag ==> dag[p].height < blk.height
      modifies this`dag, this`blocks, this`patches, this`owner, this`repr
      ensures Valid() && repr == old(repr) + {patchState}
      ensures Value() == NodeRun.AddBlock(old(Value()), blk, patchState.Value())
    {
      var parents := PendingParents(blk.parents);
      var hd := Header(parents, blk.conciliumId, blk.height);
      VertexValid(dag, blk.hash, hd);
      AddVertex(blk.hash, hd, patchState);
    }

    /** One more block: a final one has no pending patch and is skipped. */
    method MergeOne(vertex: Hash, patchMerged: PatchDB) returns (r: Result<PatchDB>)
      requires Valid() && patchMerged.Valid() && patchMerged.conciliumId == None
      ensures vertex !in blocks ==> r == Success(patchMerged)
      ensures vertex in blocks ==>
        (r.Success? <==> !Patches.Conflict(Value().patches[vertex], patchMerged.Value()))
      ensures vertex in blocks && r.Success? ==>
        && fresh(r.value) && r.value.Valid() && r.value.conciliumId == None
        && r.value.Value() == Patches.Merge(Value().patches[vertex], patchMerged.Value())
    {
      if vertex !in blocks { return Success(patchMerged); }
      r := blocks[vertex].Merge(patchMerged, false);
    }

    /** Merge the patches of those blocks of `hashes` that are pending; throws if they clash. */
    method MergePatches(hashes: seq<Hash>) returns (r: Result<PatchDB>)
      requires Valid()
      ensures r.Success? <==> ParentsPatch(Value(), hashes).Success?
      ensures r.Success? ==>
        && fresh(r.value) && r.value.Valid() && r.value.conciliumId == None
        && r.value.Value() == ParentsPatch(Value(), hashes).value
    {
      ghost var pd := Value();
      var patchMerged := new PatchDB(None);
      for k := 0 to |hashes|
        invariant Value() == pd
        invariant fresh(patchMerged) && patchMerged.Valid() && patchMerged.conciliumId == None
        invariant ParentsPatch(pd, hashes[..k]) == Success(patchMerged.Value())
      {
        MergeNext(pd, hashes[..k], hashes[k]);
        assert hashes[..k + 1] == hashes[..k] + [hashes[k]];
        r := MergeOne(hashes[k], patchMerged);
        if r.Failure? {
          StaysFailed(pd, hashes, k + 1);
          assert Value() == pd;
          return;
        }
        patchMerged := r.value;
      }
      assert hashes[..|hashes|] == hashes;
      assert Value() == pd;
      return Success(patchMerged);
    }

    /** First block of `path` by which `majority` conciliums were seen, if any. */
    method FindTopStableForPath(path: seq<Hash>, majority: nat) returns (r: Option<Hash>)
      requires forall v :: v in path ==> v in dag
      requires majority > 0
      ensures r.None? ==> |Seen(dag, path)| < majority
      ensures r.Some? ==> exists k :: 0 <= k < |path| && path[k] == r.value && FirstSeen(dag, path[..k + 1], majority)
    {
      var seen: set<nat> := {};
      for k := 0 to |path|
        invariant seen == Seen(dag, path[..k]) && |seen| < majority
      {
        SeenStep(dag, path, k);
        seen := seen + {dag[path[k]].conciliumId};
        if |seen| >= majority {
          assert path[..k + 1][..k] == path[..k];
          return Some(path[k]);
        }
      }
      assert path[..|path|] == path;
      return None;
    }

    /** For every path down from `n` the block at which it first has seen `majority` conciliums. */
    method FindTopStable(n: Hash, majority: nat) returns (tops: seq<Hash>)
      requires ValidDag(dag) && n in dag && majority > 0
      ensures forall w :: w in tops <==> IsTopStable(dag, n, majority, w)
    {
      tops := [];
      var paths := PathsDown(dag, n);
      ghost var done := {};
      while paths != {}
        invariant done + paths == PathsDown(dag, n)
        invariant TopsAlong(dag, n, majority, done, tops)
        decreases paths
      {
        var path :| path in paths;
        PathsDownArePaths(dag, n, path);
        var vertex := FindTopStableForPath(path, majority);
        TopsAlongOne(dag, n, majority, done, tops, path, vertex);
        if vertex.Some? {
          tops := tops + [vertex.value];
        }
        paths, done := paths - {path}, done + {path};
      }
      AllTopsFound(dag, n, majority, tops);
    }

    /** The blocks on the paths down from `vertex`. */
    method VerticesBelow(vertex: Hash) returns (vertices: set<Hash>)
      requires ValidDag(dag) && vertex in dag
      ensures vertices == Down(dag, vertex)
    {
      PathVertices(dag, vertex);
      vertices := set path, w | path in PathsDown(dag, vertex) && w in path :: w;
    }

    /** The blocks on the paths down from the top stable ones. */
    method FindAlsoStable(tops: seq<Hash>) returns (stable: set<Hash>)
      requires ValidDag(dag) && forall w :: w in tops ==> w in dag
      ensures stable == DownAll(dag, Elements(tops))
    {
      stable := {};
      for k := 0 to |tops|
        invariant stable == DownAll(dag, Elements(tops[..k]))
      {
        DownAllGrows(dag, Elements(tops[..k]), tops[k]);
        var vertices := VerticesBelow(tops[k]);
        stable := stable + vertices;
        assert tops[..k + 1] == tops[..k] + [tops[k]];
        assert Elements(tops[..k + 1]) == Elements(tops[..k]) + {tops[k]};
      }
      assert tops[..|tops|] == tops;
    }

    /** Take a block, and the edges to it, out of the graph. */
    method RemoveVertex(vertex: Hash)
      requires Valid()
      modifies this`dag, this`blocks, this`patches, this`owner, this`repr
      ensures Valid() && repr == old(repr)
      ensures Value() == Without(old(Value()), {vertex})
    {
      RemoveValid(dag, {vertex});
      BackedShrinks(blocks, patches, repr, {vertex});
      OwnedShrinks(blocks, owner, {vertex});
      Save(Remove(dag, {vertex}), blocks - {vertex}, patches - {vertex}, owner, repr);
    }

    method RemoveBlocks(gone: set<Hash>)
      requires Valid()
      modifies this`dag, this`blocks, this`patches, this`owner, this`repr
      ensures Valid() && repr == old(repr)
      ensures Value() == Without(old(Value()), gone)
    {
      var todo := gone;
      ghost var done := {};
      WithoutNone(Value());
      while todo != {}
        invariant done + todo == gone && done !! todo
        invariant Valid() && repr == old(repr)
        invariant Value() == Without(old(Value()), done)
        decreases todo
      {
        var vertex :| vertex in todo;
        WithoutOneMore(old(Value()), done, vertex);
        MoveOne(done, todo, vertex);
        RemoveVertex(vertex);
        todo, done := todo - {vertex}, done + {vertex};
      }
    }

    /** The branches under tips, other than `n`, that do not merge with `patchToApply`. */
    method FindConflictingBranches(n: Hash, patchToApply: PatchDB) returns (rollback: set<Hash>)
      requires Valid() && patchToApply.Valid() && patchToApply.conciliumId == None
      ensures rollback == DownAll(dag, BadTips(dag, patches, n, patchToApply.Value()))
    {
      rollback := {};
      ghost var s := patchToApply.Value();
      ghost var bad := {};
      var tips := Tips(dag);
      while tips != {}
        invariant tips <= Tips(dag)
        invariant bad <= BadTips(dag, patches, n, s) <= bad + tips
        invariant rollback == DownAll(dag, bad)
        decreases tips
      {
        var tip :| tip in tips;
        tips := tips - {tip};
        if tip != n {
          var merged := blocks[tip].Merge(patchToApply, false);
          if merged.Failure? {
            DownAllGrows(dag, bad, tip);
            var vertices := VerticesBelow(tip);
            rollback := rollback + vertices;
            bad := bad + {tip};
          }
        }
      }
    }

    method RemoveConflictingBranches(n: Hash, patchToApply: PatchDB) returns (rollback: set<Hash>)
      requires Valid() && patchToApply.Valid() && patchToApply.conciliumId == None
      modifies this`dag, this`blocks, this`patches, this`owner, this`repr
      ensures rollback == DownAll(old(dag), BadTips(old(dag), old(patches), n, patchToApply.Value()))
      ensures Valid() && repr == old(repr)
      ensures Value() == Without(old(Value()), rollback)
    {
      rollback := FindConflictingBranches(n, patchToApply);
      RemoveBlocks(rollback);
    }

    /** Rebase all pending patches. */
    method PurgePatches(patchToApply: PatchDB)
      requires Valid() && patchToApply.Valid() && patchToApply !in repr
      modifies repr, this`patches
      ensures Valid() && blocks == old(blocks) && repr == old(repr)
      ensures dag == old(dag) && topStable == old(topStable)
      ensures patches == PurgedAll(old(patches), old(patches).Keys, patchToApply.Value())
      ensures patchToApply.Value() == old(patchToApply.Value())
    {
      ghost var s := patchToApply.Value();
      var todo := blocks.Keys;
      ghost var done := {};
      while todo != {}
        invariant done + todo == blocks.Keys && done !! todo
        invariant Valid() && blocks == old(blocks)
        invariant patchToApply !in repr && patchToApply.Valid() && patchToApply.Value() == s
        invariant patches == PurgedAll(old(patches), done, s)
        decreases todo
      {
        var vertex :| vertex in todo;
        PurgeAllStep(old(patches), done, s, vertex);
        MoveOne(done, todo, vertex);
        PurgeOne(vertex, patchToApply);
        todo, done := todo - {vertex}, done + {vertex};
      }
    }

    method PurgeOne(vertex: Hash, patchToApply: PatchDB)
      requires Valid() && vertex in blocks && patchToApply.Valid() && patchToApply !in repr
      modifies blocks[vertex], this`patches
      ensures Valid() && blocks == old(blocks)
      ensures patchToApply.Valid() && patchToApply.Value() == old(patchToApply.Value())
      ensures patches == old(patches)[vertex := Patches.Purge(old(patches)[vertex], patchToApply.Value())]
    {
      blocks[vertex].Purge(patchToApply);
      forall u | u in blocks && u != vertex
        ensures blocks[u].Value() == patches[u]
      {
        Unshared(blocks, owner, u, vertex);
      }
      SavePatches(patches[vertex := blocks[vertex].Value()]);
    }

    ghost method SavePatches(newPatches: map<Hash, Patches.Patch>)
      requires Coherent(dag, blocks, newPatches, owner, repr)
      modifies this`patches
      ensures Valid() && patches == newPatches
    {
      patches := newPatches;
    }

    /**
      Which blocks a new block `n` makes final, and the patch to store for them; none if it
      makes none final. Throws, changing nothing, if the patches of the top ones do not merge.
     */
    method CheckFinality(n: Hash, conciliums: nat) returns (r: Result<Option<FinalityResult>>)
      requires Valid() && n in dag
      modifies this`dag, this`blocks, this`patches, this`owner, this`repr, this`topStable, repr
      ensures Valid() && repr == old(repr)
      ensures r.Failure? ==> Value() == old(Value()) && TopsClash(old(Value()), n, conciliums)
      ensures r.Success? && r.value.None? ==> Value() == old(Value()) && TopsOf(old(dag), n, conciliums, [])
      ensures r.Success? && r.value.Some? ==>
        var f := r.value.value;
        && fresh(f.patchToApply) && f.patchToApply.Valid()
        && f.topStable != [] && TopsOf(old(dag), n, conciliums, f.topStable) && topStable == f.topStable
        && ParentsPatch(old(Value()), f.topStable) == Success(f.patchToApply.Value())
        && SettledAs(old(Value()), n, Elements(f.topStable), f.patchToApply.Value(),
                     Outcome(Value(), f.stable, f.rollback))
    {
      var tops := FindTopStable(n, Majority(conciliums));
      if tops == [] { return Success(None); }
      forall w | w in tops
        ensures w in dag
      {
        TopsBelow(Value(), n, Majority(conciliums), w);
      }
      var stable := FindAlsoStable(tops);
      var merged := MergePatches(tops);
      if merged.Failure? {
        assert TopsOf(dag, n, conciliums, tops);
        return Failure(merged.error);
      }
      var rollback := Settle(n, Elements(tops), stable, merged.value);
      SetTopStable(tops);
      return Success(Some(FinalityResult(merged.value, stable, rollback, tops)));
    }

    method SetTopStable(tops: seq<Hash>)
      requires Valid()
      modifies this`topStable
      ensures Valid() && Value() == old(Value()) && topStable == tops && repr == old(repr)
    {
      topStable := tops;
    }

    /** Drop the stable blocks and the clashing branches, rebase the rest. */
    method Settle(n: Hash, ghost tops: set<Hash>, stable: set<Hash>, patchToApply: PatchDB)
      returns (rollback: set<Hash>)
      requires Valid() && patchToApply.Valid() && patchToApply.conciliumId == None && patchToApply !in repr
      requires tops <= dag.Keys && stable == DownAll(dag, tops)
      modifies this`dag, this`blocks, this`patches, this`owner, this`repr, repr
      ensures Valid() && repr == old(repr)
      ensures patchToApply.Valid() && patchToApply.Value() == old(patchToApply.Value())
      ensures SettledAs(old(Value()), n, tops, patchToApply.Value(), Outcome(Value(), stable, rollback))
    {
      ghost var s := patchToApply.Value();
      RemoveBlocks(stable);
      SameBadTips(dag, old(patches), patches, n, s);
      rollback := RemoveConflictingBranches(n, patchToApply);
      PurgedAllIs(dag, patches, old(patches), s);
      PurgePatches(patchToApply);
    }
  }
}
