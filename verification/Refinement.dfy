/**
  What a patch means. Over a storage that holds the ledger of the final transactions `S`, a
  patch represents the ledger of a larger history `D`: reading through the patch gives exactly
  the plain ledger of `D`. Merging patches unites histories and fails exactly when the union
  spends an output twice; storing a patch makes its history final; purging a patch adds the
  newly final history to its own.
 */
module Refinement {
  import opened Ledger
  import opened Patches

  predicate SpentBy(p: Patch, h: Hash, i: nat, t: Hash) {
    h in p.coins && i in SpentAt(p, h) && SpentAt(p, h)[i] == t
  }

  /** The versions of UTXOs are those of the ledger of `D`. */
  ghost predicate CoinsMatch(T: TxTable, D: set<Hash>, u: Utxos)
    requires D <= T.Keys
  {
    && u.Keys <= D
    && (forall h, i :: h in u ==> (i in u[h] <==> Live(T, D, h, i)))
    && (forall h, i :: h in u && i in u[h] ==> u[h][i] == Outputs(T, h)[i])
  }

  /** Everything that happened in `D` after `S` is on record in `p`. */
  ghost predicate Recorded(T: TxTable, S: set<Hash>, D: set<Hash>, p: Patch)
    requires D <= T.Keys
  {
    && (forall h :: h in D && h !in p.coins ==> h in S || Outputs(T, h) == map[])
    && (forall t, h, i :: t in D && t !in S && Consumes(T, t, h, i) ==> SpentBy(p, h, i, t))
  }

  /** Recorded spends happened. */
  ghost predicate Truthful(T: TxTable, D: set<Hash>, p: Patch) {
    forall h, i :: i in SpentAt(p, h) ==> SpentAt(p, h)[i] in D && Consumes(T, SpentAt(p, h)[i], h, i)
  }

  ghost predicate Represents(T: TxTable, S: set<Hash>, D: set<Hash>, p: Patch) {
    && History(T, D)
    && S <= D
    && Normal(p)
    && CoinsMatch(T, D, p.coins)
    && Recorded(T, S, D, p)
    && Truthful(T, D, p)
  }

  /** The stored table holds exactly the ledger of the final transactions. */
  ghost predicate Stored(T: TxTable, S: set<Hash>, L: Utxos) {
    && History(T, S)
    && CoinsMatch(T, S, L)
    && (forall h, i :: Live(T, S, h, i) ==> h in L)
    && (forall h :: h in L ==> L[h] != map[])
  }

  /** An untouched UTXO is as it is in storage. */
  lemma Untouched(T: TxTable, S: set<Hash>, D: set<Hash>, p: Patch, h: Hash, i: nat)
    requires Represents(T, S, D, p) && h !in p.coins
    ensures Live(T, D, h, i) <==> Live(T, S, h, i)
  {
  }

  /** Reading through a patch is reading the ledger of its history. */
  lemma ViewIsLedger(T: TxTable, S: set<Hash>, L: Utxos, D: set<Hash>, p: Patch)
    requires Stored(T, S, L) && Represents(T, S, D, p)
    ensures Flatten(View(p, L)) == Denote(T, D)
  {
    forall h, i
      ensures OutPoint(h, i) in Flatten(View(p, L)) <==> OutPoint(h, i) in Denote(T, D)
      ensures OutPoint(h, i) in Denote(T, D) ==>
        Flatten(View(p, L))[OutPoint(h, i)] == Denote(T, D)[OutPoint(h, i)]
    {
      FlattenAt(View(p, L), h, i);
      DenoteAt(T, D, h, i);
      if h !in p.coins {
        Untouched(T, S, D, p, h, i);
      }
    }
    SameCoins(Flatten(View(p, L)), Denote(T, D));
  }

  lemma EmptyRepresents(T: TxTable, S: set<Hash>)
    requires History(T, S)
    ensures Represents(T, S, S, EMPTY)
  {
  }

  /** ---------- merge ---------- */

  /** A merge throws exactly when the united history would spend an output twice. */
  lemma ConflictIsDoubleSpend(T: TxTable, S: set<Hash>, D: set<Hash>, E: set<Hash>, p: Patch, q: Patch)
    requires Represents(T, S, D, p) && Represents(T, S, E, q)
    ensures Conflict(p, q) <==> !NoDoubleSpend(T, D + E)
  {
    if !NoDoubleSpend(T, D + E) {
      var t, u, h, i :| t in D + E && u in D + E && Consumes(T, t, h, i) && Consumes(T, u, h, i) && t != u;
      DoubleSpendConflicts(T, S, D, E, p, q, t, u, h, i);
    }
    if Conflict(p, q) {
      var h, i :| h in p.coins && i in SpentAt(p, h) && Clash(p, q, h, i);
      var t, u := SpentAt(p, h)[i], SpentAt(q, h)[i];
      assert Consumes(T, t, h, i) && Consumes(T, u, h, i) && t in D + E && u in D + E;
    }
  }

  lemma DoubleSpendConflicts(T: TxTable, S: set<Hash>, D: set<Hash>, E: set<Hash>, p: Patch, q: Patch,
                             t: Hash, u: Hash, h: Hash, i: nat)
    requires Represents(T, S, D, p) && Represents(T, S, E, q)
    requires t in D + E && u in D + E && t != u && Consumes(T, t, h, i) && Consumes(T, u, h, i)
    ensures Conflict(p, q)
  {
    if t in D && u in E {
      assert SpentBy(p, h, i, t) && SpentBy(q, h, i, u);
      assert Clash(p, q, h, i);
    } else {
      assert SpentBy(q, h, i, t) && SpentBy(p, h, i, u);
      assert Clash(p, q, h, i);
    }
  }

  lemma NoDoubleSpendBelow(T: TxTable, D: set<Hash>, E: set<Hash>)
    requires D <= E && NoDoubleSpend(T, E)
    ensures NoDoubleSpend(T, D)
  {
  }

  lemma UnionHistory(T: TxTable, D: set<Hash>, E: set<Hash>)
    requires History(T, D) && History(T, E) && NoDoubleSpend(T, D + E)
    ensures History(T, D + E)
  {
  }

  lemma LiveInUnion(T: TxTable, D: set<Hash>, E: set<Hash>, h: Hash, i: nat)
    requires History(T, D) && History(T, E)
    ensures Live(T, D + E, h, i) <==>
      && (Live(T, D, h, i) || Live(T, E, h, i))
      && (h in D ==> Live(T, D, h, i))
      && (h in E ==> Live(T, E, h, i))
  {
    assert Consumed(T, D + E, h, i) <==> Consumed(T, D, h, i) || Consumed(T, E, h, i);
  }

  /** A later history of final transactions only loses final outputs. */
  lemma StableMonotone(T: TxTable, S: set<Hash>, D: set<Hash>, h: Hash, i: nat)
    requires S <= D && h in S
    ensures Live(T, D, h, i) ==> Live(T, S, h, i)
  {
  }

  lemma MergedCoinsAt(T: TxTable, S: set<Hash>, D: set<Hash>, E: set<Hash>, p: Patch, q: Patch, h: Hash, i: nat)
    requires Represents(T, S, D, p) && Represents(T, S, E, q) && NoDoubleSpend(T, D + E)
    requires h in p.coins || h in q.coins
    ensures i in MergedCoins(p, q, h) <==> Live(T, D + E, h, i)
    ensures i in MergedCoins(p, q, h) ==> MergedCoins(p, q, h)[i] == Outputs(T, h)[i]
  {
    LiveInUnion(T, D, E, h, i);
    if h !in q.coins {
      Untouched(T, S, E, q, h, i);
      if h in S { StableMonotone(T, S, D, h, i); }
    } else if h !in p.coins {
      Untouched(T, S, D, p, h, i);
      if h in S { StableMonotone(T, S, E, h, i); }
    }
  }

  lemma MergedRecordedAt(T: TxTable, S: set<Hash>, D: set<Hash>, E: set<Hash>, p: Patch, q: Patch,
                         t: Hash, h: Hash, i: nat)
    requires Represents(T, S, D, p) && Represents(T, S, E, q) && NoDoubleSpend(T, D + E)
    requires t in D + E && t !in S && Consumes(T, t, h, i)
    ensures SpentBy(Merge(p, q), h, i, t)
  {
    MergedSpentAt(p, q, h);
    if t in E {
      assert SpentBy(q, h, i, t);
    } else {
      assert SpentBy(p, h, i, t);
      if i in SpentAt(q, h) {
        assert Consumes(T, SpentAt(q, h)[i], h, i);
      }
    }
  }

  lemma MergedTruthful(T: TxTable, D: set<Hash>, E: set<Hash>, p: Patch, q: Patch)
    requires Normal(p) && Normal(q) && Truthful(T, D, p) && Truthful(T, E, q)
    ensures Truthful(T, D + E, Merge(p, q))
  {
    var m := Merge(p, q);
    forall h, i | i in SpentAt(m, h)
      ensures SpentAt(m, h)[i] in D + E && Consumes(T, SpentAt(m, h)[i], h, i)
    {
      MergedSpentAt(p, q, h);
    }
  }

  /** A merge that does not throw represents the united history. */
  lemma MergeRepresents(T: TxTable, S: set<Hash>, D: set<Hash>, E: set<Hash>, p: Patch, q: Patch)
    requires Represents(T, S, D, p) && Represents(T, S, E, q) && !Conflict(p, q)
    ensures Represents(T, S, D + E, Merge(p, q))
  {
    ConflictIsDoubleSpend(T, S, D, E, p, q);
    UnionHistory(T, D, E);
    var m := Merge(p, q);
    assert CoinsMatch(T, D + E, m.coins) by {
      forall h, i | h in m.coins
        ensures i in m.coins[h] <==> Live(T, D + E, h, i)
        ensures i in m.coins[h] ==> m.coins[h][i] == Outputs(T, h)[i]
      {
        MergedCoinsAt(T, S, D, E, p, q, h, i);
      }
    }
    assert Recorded(T, S, D + E, m) by {
      forall t, h, i | t in D + E && t !in S && Consumes(T, t, h, i)
        ensures SpentBy(m, h, i, t)
      {
        MergedRecordedAt(T, S, D, E, p, q, t, h, i);
      }
    }
    MergedTruthful(T, D, E, p, q);
    MergeNormal(p, q);
  }

  /** ---------- storing and purging ---------- */

  /** Storing a patch makes its whole history final. */
  lemma ApplyStores(T: TxTable, S: set<Hash>, L: Utxos, D: set<Hash>, s: Patch)
    requires Stored(T, S, L) && Represents(T, S, D, s)
    ensures Stored(T, D, Apply(L, s))
  {
    var L' := Apply(L, s);
    forall h, i
      ensures Live(T, D, h, i) <==> h in L' && i in L'[h]
      ensures h in L' && i in L'[h] ==> L'[h][i] == Outputs(T, h)[i]
    {
      if h !in s.coins {
        Untouched(T, S, D, s, h, i);
      }
    }
  }

  /** A purge only removes outputs that the stored patch spent. */
  lemma PurgedCoinsAt(T: TxTable, S: set<Hash>, D: set<Hash>, E: set<Hash>, p: Patch, s: Patch, h: Hash, i: nat)
    requires Represents(T, S, D, p) && Represents(T, S, E, s) && NoDoubleSpend(T, D + E)
    requires h in p.coins
    ensures i in p.coins[h] && i !in NewlySpent(p, s, h) <==> Live(T, D + E, h, i)
  {
    LiveInUnion(T, D, E, h, i);
    if h !in s.coins {
      Untouched(T, S, E, s, h, i);
      if h in S { StableMonotone(T, S, D, h, i); }
    } else if i in p.coins[h] && i !in s.coins[h] {
      var t :| t in E && Consumes(T, t, h, i);
      assert t !in S;
      assert SpentBy(s, h, i, t);
    }
  }

  lemma PurgedSpentAt(p: Patch, s: Patch, h: Hash)
    requires Normal(p) && Normal(s)
    ensures SpentAt(Purge(p, s), h) == PurgedSpent(p, s, h)
  {
  }

  /** An entry dropped by a purge had seen no spend beyond those of the stored patch. */
  lemma DroppedEntry(T: TxTable, S: set<Hash>, D: set<Hash>, E: set<Hash>, p: Patch, s: Patch, t: Hash, h: Hash, i: nat)
    requires Represents(T, S, D, p) && Represents(T, S, E, s) && NoDoubleSpend(T, D + E)
    requires t in D && t !in E && Consumes(T, t, h, i)
    ensures !UnchangedSince(p, s, h)
  {
    assert SpentBy(p, h, i, t);
  }

  lemma PurgedRecordedAt(T: TxTable, S: set<Hash>, D: set<Hash>, E: set<Hash>, p: Patch, s: Patch, t: Hash, h: Hash,
                         i: nat)
    requires Represents(T, S, D, p) && Represents(T, S, E, s) && NoDoubleSpend(T, D + E)
    requires t in D && t !in E && Consumes(T, t, h, i)
    ensures SpentBy(Purge(p, s), h, i, t)
  {
    DroppedEntry(T, S, D, E, p, s, t, h, i);
    assert SpentBy(p, h, i, t);
    assert Consumed(T, D, h, i);
    PurgedSpentAt(p, s, h);
  }

  lemma PurgedTruthfulAt(T: TxTable, D: set<Hash>, E: set<Hash>, p: Patch, s: Patch, h: Hash, i: nat)
    requires Normal(p) && Normal(s) && Truthful(T, D, p) && Truthful(T, E, s)
    requires i in SpentAt(Purge(p, s), h)
    ensures var t := SpentAt(Purge(p, s), h)[i]; t in D + E && Consumes(T, t, h, i)
  {
    PurgedSpentAt(p, s, h);
  }

  /** A patch that does not clash with the stored one represents, once purged, both histories. */
  lemma PurgeRepresents(T: TxTable, S: set<Hash>, D: set<Hash>, E: set<Hash>, p: Patch, s: Patch)
    requires Represents(T, S, D, p) && Represents(T, S, E, s) && NoDoubleSpend(T, D + E)
    ensures Represents(T, E, D + E, Purge(p, s))
  {
    UnionHistory(T, D, E);
    PurgeNormal(p, s);
    var r := Purge(p, s);
    assert CoinsMatch(T, D + E, r.coins) by {
      forall h, i | h in r.coins
        ensures i in r.coins[h] <==> Live(T, D + E, h, i)
        ensures i in r.coins[h] ==> r.coins[h][i] == Outputs(T, h)[i]
      {
        PurgedCoinsAt(T, S, D, E, p, s, h, i);
      }
    }
    assert Recorded(T, E, D + E, r) by {
      forall t, h, i | t in D + E && t !in E && Consumes(T, t, h, i)
        ensures SpentBy(r, h, i, t)
      {
        PurgedRecordedAt(T, S, D, E, p, s, t, h, i);
      }
    }
    assert Truthful(T, D + E, r) by {
      forall h, i | i in SpentAt(r, h)
        ensures SpentAt(r, h)[i] in D + E && Consumes(T, SpentAt(r, h)[i], h, i)
      {
        PurgedTruthfulAt(T, D, E, p, s, h, i);
      }
    }
  }

  /** Store the stable patch, purge a survivor: its view is that of the two patches merged over the old storage. */
  lemma FinalisationKeepsMeaning(T: TxTable, S: set<Hash>, L: Utxos, D: set<Hash>, E: set<Hash>, p: Patch, s: Patch)
    requires Stored(T, S, L)
    requires Represents(T, S, D, p) && Represents(T, S, E, s) && !Conflict(p, s)
    ensures Flatten(View(Purge(p, s), Apply(L, s))) == Flatten(View(Merge(p, s), L)) == Denote(T, D + E)
    ensures E <= D ==> Flatten(View(Purge(p, s), Apply(L, s))) == Flatten(View(p, L))
  {
    ConflictIsDoubleSpend(T, S, D, E, p, s);
    MergeRepresents(T, S, D, E, p, s);
    PurgeRepresents(T, S, D, E, p, s);
    ApplyStores(T, S, L, E, s);
    ViewIsLedger(T, S, L, D + E, Merge(p, s));
    ViewIsLedger(T, E, Apply(L, s), D + E, Purge(p, s));
    ViewIsLedger(T, S, L, D, p);
    if E <= D {
      assert D + E == D;
    }
  }
}
