/**
  Patches as values: a partial table of unspent outputs together with a record of which
  transaction spent which output, and the operations the node performs on them.
 */
module Patches {
  import opened Wrappers
  import opened Ledger

  /** Stored outputs by transaction hash: the UTXO table of the storage, or a part of it. */
  type Utxos = map<Hash, Outs>

  datatype Patch = Patch(coins: Utxos, spent: map<Hash, map<nat, Hash>>)

  const EMPTY: Patch := Patch(map[], map[])

  function SpentAt(p: Patch, h: Hash): map<nat, Hash> {
    if h in p.spent then p.spent[h] else map[]
  }

  /** What a patch says about one UTXO: its unspent outputs, if it has a version of them, and its spends. */
  datatype Version = Version(coins: Option<Outs>, spent: map<nat, Hash>)

  function VersionAt(p: Patch, h: Hash): Version {
    Version(if h in p.coins then Some(p.coins[h]) else None, SpentAt(p, h))
  }

  /** No empty entries, and spends only of UTXOs the patch has a version of. */
  predicate Normal(p: Patch) {
    p.spent.Keys <= p.coins.Keys && forall h :: h in p.spent ==> p.spent[h] != map[]
  }

  /** A normal patch is determined by its versions. */
  lemma SameVersions(p: Patch, q: Patch)
    requires Normal(p) && Normal(q)
    requires forall h :: VersionAt(p, h) == VersionAt(q, h)
    ensures p == q
  {
    assert p.coins == q.coins by {
      forall h
        ensures h in p.coins <==> h in q.coins
        ensures h in p.coins ==> p.coins[h] == q.coins[h]
      {
        assert VersionAt(p, h) == VersionAt(q, h);
      }
    }
    assert p.spent == q.spent by {
      forall h
        ensures h in p.spent <==> h in q.spent
        ensures h in p.spent ==> p.spent[h] == q.spent[h]
      {
        assert VersionAt(p, h) == VersionAt(q, h);
      }
    }
  }

  /** `p` and `q` say the same about every UTXO but `h`. */
  ghost predicate SameElsewhere(p: Patch, q: Patch, h: Hash) {
    forall k :: k != h ==> VersionAt(p, k) == VersionAt(q, k)
  }

  /** Record that `t` spent output `i` of `h`. */
  function Record(p: Patch, h: Hash, i: nat, t: Hash): Patch {
    p.(spent := p.spent[h := SpentAt(p, h)[i := t]])
  }

  lemma RecordVersion(p: Patch, h: Hash, i: nat, t: Hash)
    requires Normal(p) && h in p.coins
    ensures var r := Record(p, h, i, t);
      Normal(r) && SameElsewhere(r, p, h) && r.coins == p.coins && SpentAt(r, h) == SpentAt(p, h)[i := t]
  {
    assert i in SpentAt(p, h)[i := t];
  }

  lemma StoreVersion(p: Patch, h: Hash, utxo: Outs)
    requires Normal(p)
    ensures var r := p.(coins := p.coins[h := utxo]);
      Normal(r) && SameElsewhere(r, p, h) && VersionAt(r, h) == Version(Some(utxo), SpentAt(p, h))
  {
  }

  lemma SpendVersion(p: Patch, h: Hash, i: nat, t: Hash)
    requires Normal(p) && h in p.coins && i in p.coins[h]
    ensures Spend(p, h, p.coins[h], i, t).Success?
    ensures var r := Spend(p, h, p.coins[h], i, t).value;
      Normal(r) && SameElsewhere(r, p, h) &&
      VersionAt(r, h) == Version(Some(p.coins[h] - {i}), SpentAt(p, h)[i := t])
  {
    assert i in SpentAt(p, h)[i := t];
  }

  lemma ElsewhereTransitive(p: Patch, q: Patch, r: Patch, h: Hash)
    requires SameElsewhere(p, q, h) && SameElsewhere(q, r, h)
    ensures SameElsewhere(p, r, h)
  {
  }

  /** A normal patch that differs from another in one version is that patch, updated. */
  lemma UpdatedVersion(p: Patch, r: Patch, h: Hash, utxo: Outs, m: map<nat, Hash>)
    requires Normal(p) && Normal(r) && SameElsewhere(r, p, h)
    requires VersionAt(r, h) == Version(Some(utxo), m) && m != map[]
    ensures r == Patch(p.coins[h := utxo], p.spent[h := m])
  {
    var q := Patch(p.coins[h := utxo], p.spent[h := m]);
    forall k
      ensures VersionAt(r, k) == VersionAt(q, k)
    {
      assert k != h ==> VersionAt(r, k) == VersionAt(p, k);
    }
    SameVersions(r, q);
  }

  /** Spend output `i` of `h`, whose unspent outputs are `utxo` unless the patch has its own version. */
  function Spend(p: Patch, h: Hash, utxo: Outs, i: nat, t: Hash): Result<Patch> {
    var mine := if h in p.coins then p.coins[h] else utxo;
    if i in mine then Success(Patch(p.coins[h := mine - {i}], p.spent[h := SpentAt(p, h)[i := t]]))
    else Failure(IndexAlreadySpent)
  }

  function Create(p: Patch, h: Hash, i: nat, c: Coin): Result<Patch> {
    var mine := if h in p.coins then p.coins[h] else map[];
    if i in mine then Failure(IndexAlreadyAdded) else Success(p.(coins := p.coins[h := mine[i := c]]))
  }

  /** ---------- merge ---------- */

  /** The two versions of a UTXO record different spenders of one output. */
  predicate Clash(p: Patch, q: Patch, h: Hash, i: nat) {
    && h in p.coins && h in q.coins
    && i in SpentAt(p, h) && i in SpentAt(q, h)
    && SpentAt(p, h)[i] != SpentAt(q, h)[i]
  }

  predicate Conflict(p: Patch, q: Patch) {
    exists h, i :: h in p.coins && i in SpentAt(p, h) && Clash(p, q, h, i)
  }

  function Common(a: Outs, b: Outs): Outs {
    map i | i in a && i in b :: a[i]
  }

  function MergedCoins(p: Patch, q: Patch, h: Hash): Outs
    requires h in p.coins || h in q.coins
  {
    if h !in q.coins then p.coins[h]
    else if h !in p.coins then q.coins[h]
    else Common(p.coins[h], q.coins[h])
  }

  function MergedSpent(p: Patch, q: Patch, h: Hash): map<nat, Hash> {
    if h in p.coins && h in q.coins then SpentAt(p, h) + SpentAt(q, h)
    else if SpentAt(p, h) != map[] then SpentAt(p, h)
    else SpentAt(q, h)
  }

  function Merge(p: Patch, q: Patch): Patch {
    var hashes := p.coins.Keys + q.coins.Keys;
    Patch(
      map h | h in hashes :: MergedCoins(p, q, h),
      map h | h in hashes && MergedSpent(p, q, h) != map[] :: MergedSpent(p, q, h))
  }

  function TryMerge(p: Patch, q: Patch): Result<Patch> {
    if Conflict(p, q) then Failure(MergeConflict) else Success(Merge(p, q))
  }

  /** ---------- purge ---------- */

  /** The UTXO is unchanged since `s`. */
  predicate UnchangedSince(p: Patch, s: Patch, h: Hash) {
    h in p.coins && h in s.coins && p.coins[h] == s.coins[h] && SpentAt(p, h) == SpentAt(s, h)
  }

  /** Outputs of `h` that `s` spent and `p` still holds. */
  function NewlySpent(p: Patch, s: Patch, h: Hash): map<nat, Hash> {
    if h in p.coins && h in s.coins then map i | i in SpentAt(s, h) && i in p.coins[h] :: SpentAt(s, h)[i]
    else map[]
  }

  function PurgedSpent(p: Patch, s: Patch, h: Hash): map<nat, Hash> {
    if UnchangedSince(p, s, h) then map[] else SpentAt(p, h) + NewlySpent(p, s, h)
  }

  /** Drop what is unchanged since the stored patch `s`; spend, in the rest, what `s` spent. */
  function Purge(p: Patch, s: Patch): Patch {
    Patch(
      map h | h in p.coins && !UnchangedSince(p, s, h) :: p.coins[h] - NewlySpent(p, s, h).Keys,
      map h | h in p.spent.Keys + p.coins.Keys && PurgedSpent(p, s, h) != map[] :: PurgedSpent(p, s, h))
  }

  function MergedVersion(a: Version, b: Version): Version {
    if a.coins.Some? && b.coins.Some? then Version(Some(Common(a.coins.value, b.coins.value)), a.spent + b.spent)
    else if a.coins.None? && b.coins.None? then Version(None, map[])
    else Version(if a.coins.Some? then a.coins else b.coins, if a.spent != map[] then a.spent else b.spent)
  }

  lemma MergeVersion(p: Patch, q: Patch, h: Hash)
    ensures VersionAt(Merge(p, q), h) == MergedVersion(VersionAt(p, h), VersionAt(q, h))
  {
  }

  function Newly(a: Outs, spent: map<nat, Hash>): map<nat, Hash> {
    map i | i in spent && i in a :: spent[i]
  }

  function PurgedVersion(a: Version, b: Version): Version {
    if a.coins.None? || b.coins.None? then a
    else if a == b then Version(None, map[])
    else
      var newly := Newly(a.coins.value, b.spent);
      Version(Some(a.coins.value - newly.Keys), a.spent + newly)
  }

  lemma PurgeVersion(p: Patch, s: Patch, h: Hash)
    requires Normal(p)
    ensures VersionAt(Purge(p, s), h) == PurgedVersion(VersionAt(p, h), VersionAt(s, h))
  {
    if h in p.coins && h !in s.coins {
      assert p.coins[h] - NewlySpent(p, s, h).Keys == p.coins[h];
      assert PurgedSpent(p, s, h) == SpentAt(p, h);
    }
  }

  lemma MergedSpentAt(p: Patch, q: Patch, h: Hash)
    requires Normal(p) && Normal(q)
    ensures SpentAt(Merge(p, q), h) == SpentAt(p, h) + SpentAt(q, h)
  {
  }

  lemma MergeNormal(p: Patch, q: Patch)
    requires Normal(p) && Normal(q)
    ensures Normal(Merge(p, q))
  {
  }

  lemma PurgeNormal(p: Patch, s: Patch)
    requires Normal(p)
    ensures Normal(Purge(p, s))
  {
  }

  /** ---------- storage ---------- */

  /** Write a patch to the stored table: emptied UTXOs are deleted, the others overwritten. */
  function Apply(L: Utxos, s: Patch): Utxos {
    map h | h in L.Keys + s.coins.Keys && (h in s.coins ==> s.coins[h] != map[]) ::
      if h in s.coins then s.coins[h] else L[h]
  }

  /** Read through a patch: its own version of a UTXO if it has one, the stored one otherwise. */
  function View(p: Patch, L: Utxos): Utxos {
    L + p.coins
  }

  /** The UTXOs of `hashes` found in storage, as a patch. */
  function StoredPatch(L: Utxos, hashes: set<Hash>): Patch {
    Patch(map h | h in L && h in hashes :: L[h], map[])
  }

  function Flatten(u: Utxos): Coins {
    var points := set h, i | h in u && i in u[h] :: OutPoint(h, i);
    map o: OutPoint | o in points :: u[o.txHash][o.idx]
  }

  lemma FlattenAt(u: Utxos, h: Hash, i: nat)
    ensures OutPoint(h, i) in Flatten(u) <==> h in u && i in u[h]
    ensures OutPoint(h, i) in Flatten(u) ==> Flatten(u)[OutPoint(h, i)] == u[h][i]
  {
  }
}
