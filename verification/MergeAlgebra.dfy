/**
  Merging as an operation on patches over one table of transaction outputs: commutative,
  associative and idempotent, throwing in one order or grouping exactly when it throws in
  all, so that the merge of a list of patches depends only on which patches are in it.
 */
module MergeAlgebra {
  import opened Wrappers
  import opened Ledger
  import opened Patches

  function Elements<X>(s: seq<X>): set<X> {
    set x | x in s
  }

  /** Merge a list of patches, one after the other, into an empty one. */
  function MergeAll(ps: seq<Patch>): Result<Patch> {
    if ps == [] then Success(EMPTY)
    else
      var acc :- MergeAll(ps[..|ps| - 1]);
      TryMerge(ps[|ps| - 1], acc)
  }

  /** `p` records spends only of UTXOs it has a version of, and its unspent outputs are those of the table `O`. */
  ghost predicate Over(O: Utxos, p: Patch) {
    && Normal(p)
    && (forall h, i :: h in p.coins && i in p.coins[h] ==> h in O && i in O[h] && p.coins[h][i] == O[h][i])
  }

  predicate Holds(p: Patch, h: Hash, i: nat) {
    h in p.coins && i in p.coins[h]
  }

  predicate Records(p: Patch, h: Hash, i: nat, t: Hash) {
    i in SpentAt(p, h) && SpentAt(p, h)[i] == t
  }

  lemma SamePatch(O: Utxos, p: Patch, q: Patch)
    requires Over(O, p) && Over(O, q)
    requires p.coins.Keys == q.coins.Keys
    requires forall h, i :: Holds(p, h, i) <==> Holds(q, h, i)
    requires forall h, i, t :: Records(p, h, i, t) <==> Records(q, h, i, t)
    ensures p == q
  {
    forall h | h in p.coins
      ensures p.coins[h] == q.coins[h]
    {
      assert forall i :: Holds(p, h, i) <==> i in p.coins[h];
      assert forall i :: Holds(q, h, i) <==> i in q.coins[h];
    }
    forall h
      ensures SpentAt(p, h) == SpentAt(q, h)
    {
      forall i
        ensures i in SpentAt(p, h) <==> i in SpentAt(q, h)
        ensures i in SpentAt(p, h) ==> SpentAt(p, h)[i] == SpentAt(q, h)[i]
      {
        if i in SpentAt(p, h) { assert Records(p, h, i, SpentAt(p, h)[i]); }
        if i in SpentAt(q, h) { assert Records(q, h, i, SpentAt(q, h)[i]); }
      }
    }
    assert p.spent.Keys == q.spent.Keys by {
      forall h
        ensures h in p.spent <==> h in q.spent
      {
        assert h in p.spent <==> SpentAt(p, h) != map[];
        assert h in q.spent <==> SpentAt(q, h) != map[];
      }
    }
    assert forall h :: h in p.spent ==> p.spent[h] == SpentAt(p, h) == SpentAt(q, h) == q.spent[h];
    assert p.spent == q.spent;
    assert p.coins == q.coins;
  }

  /** What a merge holds and records, entry by entry. */
  lemma MergeAt(O: Utxos, p: Patch, q: Patch, h: Hash, i: nat, t: Hash)
    requires Over(O, p) && Over(O, q) && !Conflict(p, q)
    ensures h in Merge(p, q).coins <==> h in p.coins || h in q.coins
    ensures Holds(Merge(p, q), h, i) <==>
      && (h in p.coins || h in q.coins)
      && (h in p.coins ==> i in p.coins[h])
      && (h in q.coins ==> i in q.coins[h])
    ensures Records(Merge(p, q), h, i, t) <==> Records(p, h, i, t) || Records(q, h, i, t)
  {
    MergedSpentAt(p, q, h);
    if Records(p, h, i, t) && i in SpentAt(q, h) {
      assert !Clash(p, q, h, i);
    }
  }

  lemma MergeOver(O: Utxos, p: Patch, q: Patch)
    requires Over(O, p) && Over(O, q)
    ensures Over(O, Merge(p, q))
  {
  }

  lemma ConflictRecords(O: Utxos, p: Patch, q: Patch)
    requires Over(O, p) && Over(O, q)
    ensures Conflict(p, q) <==> exists h, i, t, u :: Records(p, h, i, t) && Records(q, h, i, u) && t != u
  {
    if h, i, t, u :| Records(p, h, i, t) && Records(q, h, i, u) && t != u {
      assert Clash(p, q, h, i);
    }
    if Conflict(p, q) {
      var h, i :| h in p.coins && i in SpentAt(p, h) && Clash(p, q, h, i);
      assert Records(p, h, i, SpentAt(p, h)[i]) && Records(q, h, i, SpentAt(q, h)[i]);
    }
  }

  /** ---------- the join of a set of patches ---------- */

  ghost predicate Compatible(P: set<Patch>) {
    forall p, q :: p in P && q in P ==> !Conflict(p, q)
  }

  ghost predicate Touched(P: set<Patch>, h: Hash) {
    exists p :: p in P && h in p.coins
  }

  ghost predicate UnspentIn(P: set<Patch>, h: Hash, i: nat) {
    forall p :: p in P && h in p.coins ==> Holds(p, h, i)
  }

  ghost predicate SpendRecorded(P: set<Patch>, h: Hash, i: nat, t: Hash) {
    exists p :: p in P && Records(p, h, i, t)
  }

  /** `r` touches what some patch touches, holds what no toucher has spent, and records every recorded spend. */
  ghost predicate IsJoin(P: set<Patch>, r: Patch) {
    && (forall h :: h in r.coins <==> Touched(P, h))
    && (forall h, i :: Holds(r, h, i) <==> Touched(P, h) && UnspentIn(P, h, i))
    && (forall h, i, t :: Records(r, h, i, t) <==> SpendRecorded(P, h, i, t))
  }

  lemma JoinUnique(O: Utxos, P: set<Patch>, r: Patch, s: Patch)
    requires Over(O, r) && Over(O, s) && IsJoin(P, r) && IsJoin(P, s)
    ensures r == s
  {
    SamePatch(O, r, s);
  }

  lemma ConflictWithJoin(O: Utxos, P: set<Patch>, r: Patch, p: Patch)
    requires forall q :: q in P ==> Over(O, q)
    requires Over(O, p) && Over(O, r) && IsJoin(P, r)
    ensures Conflict(p, r) <==> exists q :: q in P && Conflict(p, q)
  {
    if Conflict(p, r) {
      var h, i :| h in p.coins && i in SpentAt(p, h) && Clash(p, r, h, i);
      var u := SpentAt(r, h)[i];
      assert Records(r, h, i, u);
      var q :| q in P && Records(q, h, i, u);
      assert Clash(p, q, h, i);
    }
    if q :| q in P && Conflict(p, q) {
      var h, i :| h in p.coins && i in SpentAt(p, h) && Clash(p, q, h, i);
      assert Records(q, h, i, SpentAt(q, h)[i]);
      assert SpendRecorded(P, h, i, SpentAt(q, h)[i]);
      assert Records(r, h, i, SpentAt(q, h)[i]);
      assert Clash(p, r, h, i);
    }
  }

  lemma JoinExtendsAt(P: set<Patch>, p: Patch, h: Hash, i: nat, t: Hash)
    ensures Touched(P + {p}, h) <==> Touched(P, h) || h in p.coins
    ensures UnspentIn(P + {p}, h, i) <==> UnspentIn(P, h, i) && (h in p.coins ==> Holds(p, h, i))
    ensures SpendRecorded(P + {p}, h, i, t) <==> SpendRecorded(P, h, i, t) || Records(p, h, i, t)
  {
  }

  lemma JoinExtends(O: Utxos, P: set<Patch>, r: Patch, p: Patch)
    requires Over(O, p) && Over(O, r) && IsJoin(P, r) && !Conflict(p, r)
    ensures IsJoin(P + {p}, Merge(p, r))
  {
    var m, P' := Merge(p, r), P + {p};
    forall h, i
      ensures h in m.coins <==> Touched(P', h)
      ensures Holds(m, h, i) <==> Touched(P', h) && UnspentIn(P', h, i)
    {
      MergeAt(O, p, r, h, i, 0);
      JoinExtendsAt(P, p, h, i, 0);
    }
    forall h, i, t
      ensures Records(m, h, i, t) <==> SpendRecorded(P', h, i, t)
    {
      MergeAt(O, p, r, h, i, t);
      JoinExtendsAt(P, p, h, i, t);
    }
  }

  lemma ConflictSymmetric(O: Utxos, p: Patch, q: Patch)
    requires Over(O, p) && Over(O, q)
    ensures Conflict(p, q) <==> Conflict(q, p)
  {
    ConflictRecords(O, p, q);
    ConflictRecords(O, q, p);
  }

  lemma NoSelfConflict(p: Patch)
    ensures !Conflict(p, p)
  {
  }

  /** Merging a list throws iff two of its patches clash; otherwise it yields their join. */
  lemma {:induction false} MergeAllIsJoin(O: Utxos, ps: seq<Patch>)
    requires forall p :: p in ps ==> Over(O, p)
    ensures MergeAll(ps).Success? <==> Compatible(Elements(ps))
    ensures MergeAll(ps).Success? ==> Over(O, MergeAll(ps).value) && IsJoin(Elements(ps), MergeAll(ps).value)
  {
    if ps != [] {
      var init, last := ps[..|ps| - 1], ps[|ps| - 1];
      assert ps == init + [last];
      MergeAllIsJoin(O, init);
      var P, P' := Elements(init), Elements(ps);
      assert P' == P + {last};
      NoSelfConflict(last);
      forall q | q in P { ConflictSymmetric(O, last, q); }
      if MergeAll(init).Success? {
        var acc := MergeAll(init).value;
        ConflictWithJoin(O, P, acc, last);
        if !Conflict(last, acc) {
          JoinExtends(O, P, acc, last);
          MergeOver(O, last, acc);
        }
      }
    }
  }

  /** The result of a merge does not depend on the order, repetition or grouping of the merged patches. */
  lemma {:induction false} MergeAllDependsOnSet(O: Utxos, ps: seq<Patch>, qs: seq<Patch>)
    requires forall p :: p in ps ==> Over(O, p)
    requires Elements(ps) == Elements(qs)
    ensures MergeAll(ps) == MergeAll(qs)
  {
    forall q | q in qs
      ensures Over(O, q)
    {
      assert q in Elements(ps);
    }
    MergeAllIsJoin(O, ps);
    MergeAllIsJoin(O, qs);
    if MergeAll(ps).Success? {
      JoinUnique(O, Elements(ps), MergeAll(ps).value, MergeAll(qs).value);
    } else {
      FailsWithConflict(ps);
      FailsWithConflict(qs);
    }
  }

  lemma {:induction false} FailsWithConflict(ps: seq<Patch>)
    requires MergeAll(ps).Failure?
    ensures MergeAll(ps) == Failure(MergeConflict)
  {
    if ps != [] && MergeAll(ps[..|ps| - 1]).Failure? {
      FailsWithConflict(ps[..|ps| - 1]);
    }
  }

  lemma MergeCommutes(O: Utxos, p: Patch, q: Patch)
    requires Over(O, p) && Over(O, q)
    ensures TryMerge(p, q) == TryMerge(q, p)
  {
    ConflictSymmetric(O, p, q);
    if !Conflict(p, q) {
      forall h, i, t
        ensures Holds(Merge(p, q), h, i) <==> Holds(Merge(q, p), h, i)
        ensures Records(Merge(p, q), h, i, t) <==> Records(Merge(q, p), h, i, t)
      {
        MergeAt(O, p, q, h, i, t);
        MergeAt(O, q, p, h, i, t);
      }
      MergeOver(O, p, q);
      MergeOver(O, q, p);
      SamePatch(O, Merge(p, q), Merge(q, p));
    }
  }

  lemma MergeIdempotent(O: Utxos, p: Patch)
    requires Over(O, p)
    ensures TryMerge(p, p) == Success(p)
  {
    NoSelfConflict(p);
    forall h, i, t
      ensures Holds(Merge(p, p), h, i) <==> Holds(p, h, i)
      ensures Records(Merge(p, p), h, i, t) <==> Records(p, h, i, t)
    {
      MergeAt(O, p, p, h, i, t);
    }
    MergeOver(O, p, p);
    SamePatch(O, Merge(p, p), p);
  }

  function Then(a: Result<Patch>, b: Result<Patch>): Result<Patch> {
    var p :- a;
    var q :- b;
    TryMerge(p, q)
  }

  /** A third patch clashes with a merge iff it clashes with one of the merged patches. */
  lemma PairConflict(O: Utxos, p: Patch, q: Patch, r: Patch)
    requires Over(O, p) && Over(O, q) && Over(O, r) && !Conflict(p, q)
    ensures Conflict(r, Merge(p, q)) <==> Conflict(r, p) || Conflict(r, q)
  {
    MergeOver(O, p, q);
    ConflictRecords(O, r, Merge(p, q));
    ConflictRecords(O, r, p);
    ConflictRecords(O, r, q);
    forall h, i, t
      ensures Records(Merge(p, q), h, i, t) <==> Records(p, h, i, t) || Records(q, h, i, t)
    {
      MergeAt(O, p, q, h, i, t);
    }
  }

  lemma GroupingThrows(O: Utxos, p: Patch, q: Patch, r: Patch)
    requires Over(O, p) && Over(O, q) && Over(O, r)
    ensures (Conflict(p, q) || Conflict(Merge(p, q), r)) <==> (Conflict(q, r) || Conflict(p, Merge(q, r)))
  {
    MergeOver(O, p, q);
    ConflictSymmetric(O, Merge(p, q), r);
    ConflictSymmetric(O, r, p);
    ConflictSymmetric(O, r, q);
    if !Conflict(p, q) { PairConflict(O, p, q, r); }
    if !Conflict(q, r) { PairConflict(O, q, r, p); }
  }

  /** `m` is, entry by entry, the merge of `p` and `q`. */
  ghost predicate IsMerge(p: Patch, q: Patch, m: Patch) {
    && m.coins.Keys == p.coins.Keys + q.coins.Keys
    && (forall h, i :: Holds(m, h, i) <==>
          (Holds(p, h, i) || Holds(q, h, i)) && (h in p.coins ==> Holds(p, h, i)) && (h in q.coins ==> Holds(q, h, i)))
    && (forall h, i, t :: Records(m, h, i, t) <==> Records(p, h, i, t) || Records(q, h, i, t))
  }

  lemma MergeIsMerge(O: Utxos, p: Patch, q: Patch)
    requires Over(O, p) && Over(O, q) && !Conflict(p, q)
    ensures IsMerge(p, q, Merge(p, q)) && Over(O, Merge(p, q))
  {
    MergeOver(O, p, q);
    forall h, i
      ensures Holds(Merge(p, q), h, i) <==>
        (Holds(p, h, i) || Holds(q, h, i)) && (h in p.coins ==> Holds(p, h, i)) && (h in q.coins ==> Holds(q, h, i))
    {
      MergeAt(O, p, q, h, i, 0);
    }
    forall h, i, t
      ensures Records(Merge(p, q), h, i, t) <==> Records(p, h, i, t) || Records(q, h, i, t)
    {
      MergeAt(O, p, q, h, i, t);
    }
  }

  /** Entry by entry, the grouping does not matter. */
  lemma SameEntries(p: Patch, q: Patch, r: Patch, pq: Patch, qr: Patch, left: Patch, right: Patch, h: Hash, i: nat,
                    t: Hash)
    requires IsMerge(p, q, pq) && IsMerge(pq, r, left) && IsMerge(q, r, qr) && IsMerge(p, qr, right)
    ensures Holds(left, h, i) <==> Holds(right, h, i)
    ensures Records(left, h, i, t) <==> Records(right, h, i, t)
  {
    assert h in pq.coins <==> h in p.coins || h in q.coins;
    assert h in qr.coins <==> h in q.coins || h in r.coins;
  }

  lemma GroupingsAgree(O: Utxos, p: Patch, q: Patch, r: Patch, pq: Patch, qr: Patch, left: Patch, right: Patch)
    requires Over(O, left) && Over(O, right)
    requires IsMerge(p, q, pq) && IsMerge(pq, r, left) && IsMerge(q, r, qr) && IsMerge(p, qr, right)
    ensures left == right
  {
    forall h, i, t
      ensures Holds(left, h, i) <==> Holds(right, h, i)
      ensures Records(left, h, i, t) <==> Records(right, h, i, t)
    {
      SameEntries(p, q, r, pq, qr, left, right, h, i, t);
    }
    SamePatch(O, left, right);
  }

  /** Either grouping throws, or neither does and they agree. */
  lemma MergeAssociates(O: Utxos, p: Patch, q: Patch, r: Patch)
    requires Over(O, p) && Over(O, q) && Over(O, r)
    ensures Then(TryMerge(p, q), Success(r)) == Then(Success(p), TryMerge(q, r))
  {
    GroupingThrows(O, p, q, r);
    if !Conflict(p, q) && !Conflict(Merge(p, q), r) {
      MergeIsMerge(O, p, q);
      MergeIsMerge(O, q, r);
      MergeIsMerge(O, Merge(p, q), r);
      MergeIsMerge(O, p, Merge(q, r));
      GroupingsAgree(O, p, q, r, Merge(p, q), Merge(q, r), Merge(Merge(p, q), r), Merge(p, Merge(q, r)));
    }
  }
}
