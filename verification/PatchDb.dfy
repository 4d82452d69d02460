/** The patch object of the node, updated in place, against the operations on patch values. */
module PatchDb {
  import opened Wrappers
  import opened Ledger
  import opened Patches

  function Max(a: nat, b: nat): nat {
    if a > b then a else b
  }

  function LevelOf(levels: map<nat, nat>, id: nat): nat {
    if id in levels then levels[id] else 0
  }

  /** Levels per concilium: the higher of the two sides. */
  function MergedLevels(a: map<nat, nat>, b: map<nat, nat>): map<nat, nat> {
    map id | id in a.Keys + b.Keys :: Max(LevelOf(a, id), LevelOf(b, id))
  }

  /** Two blocks of one concilium at one level. */
  predicate Fork(a: Option<nat>, aLevels: map<nat, nat>, b: Option<nat>, bLevels: map<nat, nat>) {
    && a.Some? && a == b && (a.value in aLevels <==> a.value in bLevels)
    && LevelOf(aLevels, a.value) == LevelOf(bLevels, a.value)
  }

  /** Two patches of one concilium are a fork iff its level is the same in both, or in neither. */
  lemma ForkIff(a: PatchDB, b: PatchDB)
    ensures Fork(a.conciliumId, a.levels, b.conciliumId, b.levels) <==>
      exists id :: a.conciliumId == Some(id) && b.conciliumId == Some(id) &&
        if id in a.levels && id in b.levels then a.levels[id] == b.levels[id] else id !in a.levels && id !in b.levels
  {
    if a.conciliumId.Some? && a.conciliumId == b.conciliumId {
      assert b.conciliumId == Some(a.conciliumId.value);
    }
  }

  /** Merged levels are levels of one side, and not below those of the other. */
  lemma LevelsAreHigher(a: map<nat, nat>, b: map<nat, nat>, id: nat)
    ensures id in MergedLevels(a, b) <==> id in a || id in b
    ensures id in a ==> MergedLevels(a, b)[id] >= a[id] && (id !in b ==> MergedLevels(a, b)[id] == a[id])
    ensures id in b ==> MergedLevels(a, b)[id] >= b[id] && (id !in a ==> MergedLevels(a, b)[id] == b[id])
    ensures id in a && id in b ==> MergedLevels(a, b)[id] == a[id] || MergedLevels(a, b)[id] == b[id]
  {
  }

  function MergedSoFar(p: Patch, q: Patch, done: set<Hash>, h: Hash): Version {
    if h in done then MergedVersion(VersionAt(p, h), VersionAt(q, h)) else Version(None, map[])
  }

  function PurgedSoFar(p: Patch, s: Patch, done: set<Hash>, h: Hash): Version {
    if h in done then PurgedVersion(VersionAt(p, h), VersionAt(s, h)) else VersionAt(p, h)
  }

  lemma NewlyStep(unspent: Outs, base: map<nat, Hash>, newly: map<nat, Hash>, todo: set<nat>, i: nat)
    requires i in todo && todo <= newly.Keys <= unspent.Keys
    ensures i in unspent - (newly.Keys - todo)
    ensures unspent - (newly.Keys - todo) - {i} == unspent - (newly.Keys - (todo - {i}))
    ensures (base + (newly - todo))[i := newly[i]] == base + (newly - (todo - {i}))
  {
  }

  lemma SameKeys(a: map<nat, Hash>, b: map<nat, Hash>)
    requires |a| == |b| && a.Keys <= b.Keys
    ensures a.Keys == b.Keys
  {
    assert b.Keys == a.Keys + (b.Keys - a.Keys);
    assert |b.Keys| == |a.Keys| + |b.Keys - a.Keys|;
  }

  lemma FromNothing(m: map<nat, Hash>)
    ensures map[] + m == m
  {
  }

  lemma NothingStored(base: map<nat, Hash>, m: map<nat, Hash>)
    ensures base + (m - m.Keys) == base
  {
  }

  lemma StoreOne(base: map<nat, Hash>, m: map<nat, Hash>, todo: set<nat>, i: nat)
    requires i in todo && todo <= m.Keys
    ensures (base + (m - todo))[i := m[i]] == base + (m - (todo - {i}))
  {
  }

  class PatchDB {
    var coins: Utxos
    var spent: map<Hash, map<nat, Hash>>
    var conciliumId: Option<nat>
    var levels: map<nat, nat>

    function Value(): Patch
      reads this
    {
      Patch(coins, spent)
    }

    ghost predicate Valid()
      reads this
    {
      Normal(Value())
    }

    constructor (id: Option<nat>)
      ensures Valid() && Value() == EMPTY
      ensures conciliumId == id
      ensures levels == if id.Some? then map[id.value := 1] else map[]
    {
      coins, spent := map[], map[];
      conciliumId := id;
      levels := if id.Some? then map[id.value := 1] else map[];
    }

    method SetConciliumId(id: nat) returns (ok: bool)
      modifies this`conciliumId, this`levels
      ensures ok <==> old(conciliumId).None?
      ensures ok ==> conciliumId == Some(id) && levels == old(levels)[id := LevelOf(old(levels), id) + 1]
      ensures !ok ==> conciliumId == old(conciliumId) && levels == old(levels)
    {
      ok := conciliumId.None?;
      if ok {
        conciliumId := Some(id);
        levels := levels[id := LevelOf(levels, id) + 1];
      }
    }

    method SetSpentOutput(h: Hash, i: nat, t: Hash)
      modifies this`spent
      ensures Value() == Record(old(Value()), h, i, t)
    {
      var mapSpent := map[];
      if h in spent { mapSpent := spent[h]; }
      mapSpent := mapSpent[i := t];
      spent := spent[h := mapSpent];
    }

    method SpendCoins(h: Hash, utxo: Outs, i: nat, t: Hash) returns (r: Result<()>)
      modifies this`coins, this`spent
      ensures r.Success? <==> Spend(old(Value()), h, utxo, i, t).Success?
      ensures r.Success? ==> Value() == Spend(old(Value()), h, utxo, i, t).value
      ensures r.Failure? ==> Value() == old(Value()) && r.error == IndexAlreadySpent
    {
      var utxoCopy := if h in coins then coins[h] else utxo;
      if i !in utxoCopy { return Failure(IndexAlreadySpent); }
      coins := coins[h := utxoCopy - {i}];
      SetSpentOutput(h, i, t);
      return Success(());
    }

    method CreateCoins(h: Hash, i: nat, c: Coin) returns (r: Result<()>)
      modifies this`coins
      ensures r.Success? <==> Create(old(Value()), h, i, c).Success?
      ensures r.Success? ==> Value() == Create(old(Value()), h, i, c).value
      ensures r.Failure? ==> Value() == old(Value()) && r.error == IndexAlreadyAdded
    {
      var utxo := if h in coins then coins[h] else map[];
      if i in utxo { return Failure(IndexAlreadyAdded); }
      coins := coins[h := utxo[i := c]];
      return Success(());
    }

    method SetUtxo(h: Hash, utxo: Outs)
      modifies this`coins
      ensures coins == old(coins)[h := utxo]
    {
      coins := coins[h := utxo];
    }

    method RemoveUtxo(h: Hash)
      modifies this`coins, this`spent
      ensures Value() == Patch(old(coins) - {h}, old(spent) - {h})
    {
      coins := coins - {h};
      spent := spent - {h};
    }

    method HasUtxos(hashes: set<Hash>) returns (b: bool)
      ensures b <==> coins.Keys * hashes != {}
    {
      var found := set h | h in hashes && h in coins;
      assert found == coins.Keys * hashes;
      b := found != {};
    }

    /** Record all spends of `m` for the UTXO `h`. */
    method StoreSpent(h: Hash, m: map<nat, Hash>)
      requires Valid() && h in coins
      modifies this`spent
      ensures Valid() && SameElsewhere(Value(), old(Value()), h)
      ensures SpentAt(Value(), h) == SpentAt(old(Value()), h) + m
    {
      var todo := m.Keys;
      ghost var base := SpentAt(Value(), h);
      NothingStored(base, m);
      while todo != {}
        invariant todo <= m.Keys
        invariant Valid() && SameElsewhere(Value(), old(Value()), h)
        invariant SpentAt(Value(), h) == base + (m - todo)
        decreases todo
      {
        var i :| i in todo;
        RecordVersion(Value(), h, i, m[i]);
        ElsewhereTransitive(Record(Value(), h, i, m[i]), Value(), old(Value()), h);
        StoreOne(base, m, todo, i);
        SetSpentOutput(h, i, m[i]);
        todo := todo - {i};
      }
      assert m - todo == m;
    }

    /** Put the outputs both versions still hold into this patch. */
    method StoreCommon(h: Hash, mine: Outs, his: Outs)
      modifies this`coins
      ensures coins == old(coins)[h := Common(mine, his)]
    {
      SetUtxo(h, map[]);
      var todo := mine.Keys * his.Keys;
      while todo != {}
        invariant todo <= mine.Keys * his.Keys
        invariant h in coins && coins == old(coins)[h := coins[h]]
        invariant coins[h] == Common(mine, his) - todo
        decreases todo
      {
        var i :| i in todo;
        var r := CreateCoins(h, i, mine[i]);
        todo := todo - {i};
        assert coins[h] == Common(mine, his) - todo;
      }
      assert coins[h] == Common(mine, his);
    }

    /** Look for an output that the two maps of spends attribute to different transactions. */
    method SameSpenders(mine: map<nat, Hash>, his: map<nat, Hash>) returns (ok: bool)
      ensures ok <==> forall i :: i in mine && i in his ==> mine[i] == his[i]
    {
      var todo := mine.Keys * his.Keys;
      while todo != {}
        invariant todo <= mine.Keys * his.Keys
        invariant forall i :: i in mine && i in his && i !in todo ==> mine[i] == his[i]
        decreases todo
      {
        var i :| i in todo;
        if mine[i] != his[i] { return false; }
        todo := todo - {i};
      }
      return true;
    }

    /** Only one side has a version of the UTXO: copy it into `res`. */
    method CopyUtxo(patch: PatchDB, h: Hash, res: PatchDB)
      requires res != this && res != patch && res.Valid() && h !in res.coins
      requires h in coins <==> h !in patch.coins
      modifies res`coins, res`spent
      ensures res.Valid() && SameElsewhere(res.Value(), old(res.Value()), h)
      ensures VersionAt(res.Value(), h) == MergedVersion(VersionAt(Value(), h), VersionAt(patch.Value(), h))
    {
      var utxo := if h in coins then coins[h] else patch.coins[h];
      var mine, his := SpentAt(Value(), h), SpentAt(patch.Value(), h);
      var mapSpent := if mine != map[] then mine else his;
      StoreVersion(res.Value(), h, utxo);
      res.SetUtxo(h, utxo);
      res.StoreSpent(h, mapSpent);
      FromNothing(mapSpent);
    }

    /** Both sides have a version: keep the common outputs and all spends; fails on a double spend. */
    method JoinUtxo(patch: PatchDB, h: Hash, res: PatchDB) returns (ok: bool)
      requires res != this && res != patch && res.Valid() && h !in res.coins
      requires h in coins && h in patch.coins
      modifies res`coins, res`spent
      ensures ok <==> forall i :: !Clash(Value(), patch.Value(), h, i)
      ensures res.Valid() && SameElsewhere(res.Value(), old(res.Value()), h)
      ensures ok ==> VersionAt(res.Value(), h) == MergedVersion(VersionAt(Value(), h), VersionAt(patch.Value(), h))
    {
      var mine, his := SpentAt(Value(), h), SpentAt(patch.Value(), h);
      StoreVersion(res.Value(), h, Common(coins[h], patch.coins[h]));
      res.StoreCommon(h, coins[h], patch.coins[h]);
      ok := SameSpenders(mine, his);
      if !ok {
        ghost var i :| i in mine && i in his && mine[i] != his[i];
        assert Clash(Value(), patch.Value(), h, i);
        return;
      }
      res.StoreSpent(h, mine);
      res.StoreSpent(h, his);
      FromNothing(mine);
    }

    /** As many spends, and each of the first map's in the second. */
    method SpendingTxnsEqual(mine: map<nat, Hash>, his: map<nat, Hash>) returns (equal: bool)
      ensures equal <==> mine == his
    {
      if |mine| != |his| { return false; }
      var todo := mine.Keys;
      while todo != {}
        invariant todo <= mine.Keys
        invariant forall i :: i in mine && i !in todo ==> i in his && his[i] == mine[i]
        decreases todo
      {
        var i :| i in todo;
        if i !in his || his[i] != mine[i] { return false; }
        todo := todo - {i};
      }
      SameKeys(mine, his);
      return true;
    }

    method MergeLevels(patch: PatchDB, res: PatchDB)
      requires res != this && res != patch && res.levels == map[]
      modifies res`levels
      ensures res.levels == MergedLevels(levels, patch.levels)
    {
      var todo := levels.Keys + patch.levels.Keys;
      while todo != {}
        invariant todo <= levels.Keys + patch.levels.Keys
        invariant res.levels == MergedLevels(levels, patch.levels) - todo
        decreases todo
      {
        var id :| id in todo;
        res.levels := res.levels[id := Max(LevelOf(levels, id), LevelOf(patch.levels, id))];
        todo := todo - {id};
        assert res.levels == MergedLevels(levels, patch.levels) - todo;
      }
    }

    method MergeUtxos(patch: PatchDB, res: PatchDB) returns (ok: bool)
      requires res != this && res != patch && Valid() && patch.Valid() && res.Valid() && res.Value() == EMPTY
      modifies res`coins, res`spent
      ensures ok <==> !Conflict(Value(), patch.Value())
      ensures ok ==> res.Valid() && res.Value() == Patches.Merge(Value(), patch.Value())
    {
      ghost var p, q := Value(), patch.Value();
      var all := coins.Keys + patch.coins.Keys;
      var todo := all;
      while todo != {}
        invariant todo <= all && res.Valid()
        invariant forall h :: VersionAt(res.Value(), h) == MergedSoFar(p, q, all - todo, h)
        invariant forall h, i :: h in all - todo ==> !Clash(p, q, h, i)
        decreases todo
      {
        var h :| h in todo;
        assert VersionAt(res.Value(), h) == Version(None, map[]);
        ok := true;
        if h in coins && h in patch.coins {
          ok := JoinUtxo(patch, h, res);
        } else {
          CopyUtxo(patch, h, res);
        }
        if !ok {
          ghost var i :| Clash(p, q, h, i);
          assert Conflict(p, q);
          return;
        }
        todo := todo - {h};
      }
      forall h
        ensures VersionAt(res.Value(), h) == VersionAt(Patches.Merge(p, q), h)
      {
        MergeVersion(p, q, h);
      }
      MergeNormal(p, q);
      SameVersions(res.Value(), Patches.Merge(p, q));
      return true;
    }

    /** A new patch with both contents. Throws on a fork, unless told otherwise, and on a double spend. */
    method Merge(patch: PatchDB, preferPatch: bool) returns (r: Result<PatchDB>)
      requires Valid() && patch.Valid()
      ensures var fork := !preferPatch && Fork(conciliumId, levels, patch.conciliumId, patch.levels);
        && (r.Success? <==> !fork && !Conflict(Value(), patch.Value()))
        && (r.Failure? ==> r.error == if fork then UnexpectedFork else MergeConflict)
      ensures r.Success? ==>
        && fresh(r.value) && r.value.Valid()
        && r.value.Value() == Patches.Merge(Value(), patch.Value())
        && r.value.conciliumId == None
        && r.value.levels == MergedLevels(levels, patch.levels)
    {
      if !preferPatch && Fork(conciliumId, levels, patch.conciliumId, patch.levels) {
        return Failure(UnexpectedFork);
      }
      var res := new PatchDB(None);
      MergeLevels(patch, res);
      var ok := MergeUtxos(patch, res);
      return if ok then Success(res) else Failure(MergeConflict);
    }

    /** Spend here the outputs of `h` that `m` says were spent elsewhere, if they are still held. */
    method SpendKnown(h: Hash, m: map<nat, Hash>)
      requires Valid() && h in coins
      modifies this`coins, this`spent
      ensures Valid() && SameElsewhere(Value(), old(Value()), h)
      ensures var newly := Newly(old(coins)[h], m);
        VersionAt(Value(), h) == Version(Some(old(coins)[h] - newly.Keys), SpentAt(old(Value()), h) + newly)
    {
      var unspent := coins[h];
      var newly := Newly(unspent, m);
      var todo := newly.Keys;
      assert newly - todo == map[] && unspent - (newly.Keys - todo) == unspent;
      while todo != {}
        invariant todo <= newly.Keys
        invariant Valid() && SameElsewhere(Value(), old(Value()), h)
        invariant VersionAt(Value(), h) ==
          Version(Some(unspent - (newly.Keys - todo)), SpentAt(old(Value()), h) + (newly - todo))
        decreases todo
      {
        var i :| i in todo;
        NewlyStep(unspent, SpentAt(old(Value()), h), newly, todo, i);
        SpendVersion(Value(), h, i, m[i]);
        ElsewhereTransitive(Spend(Value(), h, coins[h], i, m[i]).value, Value(), old(Value()), h);
        var r := SpendCoins(h, coins[h], i, m[i]);
        todo := todo - {i};
      }
      assert newly - todo == newly && newly.Keys - todo == newly.Keys;
    }

    /** Rebase one UTXO. */
    method PurgeUtxo(patch: PatchDB, h: Hash)
      requires Valid() && patch.Valid() && patch != this && h in patch.coins
      modifies this`coins, this`spent
      ensures Valid() && SameElsewhere(Value(), old(Value()), h)
      ensures VersionAt(Value(), h) == PurgedVersion(VersionAt(old(Value()), h), VersionAt(patch.Value(), h))
    {
      if h in coins {
        var equal := SpendingTxnsEqual(SpentAt(Value(), h), SpentAt(patch.Value(), h));
        if coins[h] == patch.coins[h] && equal {
          RemoveUtxo(h);
        } else {
          SpendKnown(h, SpentAt(patch.Value(), h));
        }
      }
    }

    /** Rebase this patch on a storage into which `patch` went. */
    method Purge(patch: PatchDB)
      requires Valid() && patch.Valid() && patch != this
      modifies this`coins, this`spent
      ensures Valid()
      ensures Value() == Patches.Purge(old(Value()), patch.Value())
    {
      ghost var p, s := Value(), patch.Value();
      var todo := patch.coins.Keys;
      while todo != {}
        invariant todo <= patch.coins.Keys && Valid()
        invariant forall h :: VersionAt(Value(), h) == PurgedSoFar(p, s, patch.coins.Keys - todo, h)
        decreases todo
      {
        var h :| h in todo;
        assert VersionAt(Value(), h) == VersionAt(p, h);
        PurgeUtxo(patch, h);
        todo := todo - {h};
      }
      forall h
        ensures VersionAt(Value(), h) == VersionAt(Patches.Purge(p, s), h)
      {
        PurgeVersion(p, s, h);
      }
      PurgeNormal(p, s);
      SameVersions(Value(), Patches.Purge(p, s));
    }
  }
}
