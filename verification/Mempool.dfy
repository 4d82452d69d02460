/** The pool of transactions waiting for a block, trimmed so that it cannot grow without bound. */
module Mempools {
  import opened Ledger

  const MEMPOOL_TX_QTY: nat := 500

  /** The waiting transactions of one concilium, the oldest first. */
  datatype Waiting = Waiting(conciliumId: nat, txs: seq<Hash>)

  /** ---------- sizes ---------- */

  /** The transactions of the conciliums `ids`. */
  function SizeOf(maps: seq<Waiting>, ids: set<nat>): nat {
    if maps == [] then 0
    else
      var last := maps[|maps| - 1];
      SizeOf(maps[..|maps| - 1], ids) + if last.conciliumId in ids then |last.txs| else 0
  }

  /** How many of the maps are those of `ids`. */
  function CountOf(maps: seq<Waiting>, ids: set<nat>): (n: nat)
    ensures n <= |maps|
  {
    if maps == [] then 0
    else CountOf(maps[..|maps| - 1], ids) + if maps[|maps| - 1].conciliumId in ids then 1 else 0
  }

  function Size(maps: seq<Waiting>): nat {
    if maps == [] then 0 else Size(maps[..|maps| - 1]) + |maps[|maps| - 1].txs|
  }

  function Ids(maps: seq<Waiting>): set<nat> {
    set m | m in maps :: m.conciliumId
  }

  /** The size of the pool is that of some maps and that of the others. */
  lemma {:induction false} TwoParts(maps: seq<Waiting>, ids: set<nat>, others: set<nat>)
    requires ids !! others && forall m :: m in maps ==> m.conciliumId in ids || m.conciliumId in others
    ensures Size(maps) == SizeOf(maps, ids) + SizeOf(maps, others)
  {
    if maps != [] { TwoParts(maps[..|maps| - 1], ids, others); }
  }

  lemma {:induction false} WholeSize(maps: seq<Waiting>, ids: set<nat>)
    requires forall m :: m in maps ==> m.conciliumId in ids
    ensures Size(maps) == SizeOf(maps, ids)
  {
    if maps != [] { WholeSize(maps[..|maps| - 1], ids); }
  }

  /** ---------- shares ---------- */

  /** `a / n` rounded down. */
  function FloorDiv(a: int, n: nat): int
    requires n > 0
    decreases a < 0, if a < 0 then -a else a
  {
    if a < 0 then FloorDiv(a + n, n) - 1 else if a < n then 0 else FloorDiv(a - n, n) + 1
  }

  lemma OneMoreTime(n: nat, q: int)
    ensures n * (q + 1) == n * q + n
  {
  }

  lemma {:induction false} FloorBounds(a: int, n: nat)
    requires n > 0
    ensures n * FloorDiv(a, n) <= a < n * FloorDiv(a, n) + n
    decreases a < 0, if a < 0 then -a else a
  {
    if a < 0 {
      FloorBounds(a + n, n);
      OneMoreTime(n, FloorDiv(a + n, n) - 1);
    } else if a >= n {
      FloorBounds(a - n, n);
      OneMoreTime(n, FloorDiv(a - n, n));
    } else {
      assert FloorDiv(a, n) == 0;
    }
  }

  /** `a / n` rounded to the nearest integer, halves up. */
  function Round(a: int, n: nat): int
    requires n > 0
  {
    FloorDiv(2 * a + n, 2 * n)
  }

  /** How many of `size` transactions go when `toRemove` of `current` shall go. */
  function Share(toRemove: int, size: nat, current: nat): (r: nat)
    ensures r <= size
  {
    if current == 0 then 0
    else
      var n := Round(toRemove * size, current);
      if n < 0 then 0 else if n > size then size else n
  }

  lemma Ordered(c: nat, a: int, b: int)
    requires a <= b
    ensures c * a <= c * b
  {
    assert c * (b - a) >= 0;
  }

  lemma NearestInRange(p: int, size: nat, current: nat, n: int)
    requires current > 0 && 0 <= p <= current * size
    requires -(current as int) <= 2 * current * n - 2 * p <= current
    ensures 0 <= n <= size
  {
    if n < 0 { Ordered(2 * current, n, -1); }
    if n > size { Ordered(2 * current, size + 1, n); }
  }

  lemma ProductBound(toRemove: int, size: nat, current: nat)
    requires 0 <= toRemove <= current
    ensures 0 <= toRemove * size <= current * size
  {
    Ordered(size, 0, toRemove);
    Ordered(size, toRemove, current);
    assert size * toRemove == toRemove * size && size * current == current * size;
  }

  /** For a target between nothing and all there is, the share is the nearest integer. */
  lemma ShareError(toRemove: int, size: nat, current: nat)
    requires 0 <= toRemove <= current && current > 0
    ensures -(current as int) < 2 * current * Share(toRemove, size, current) - 2 * (toRemove * size) <= current
  {
    var p, n := toRemove * size, Round(toRemove * size, current);
    FloorBounds(2 * p + current, 2 * current);
    ProductBound(toRemove, size, current);
    NearestInRange(p, size, current, n);
  }

  /** Nothing is removed when the target is not exceeded. */
  lemma NoShare(toRemove: int, size: nat, current: nat)
    requires toRemove <= 0
    ensures Share(toRemove, size, current) == 0
  {
    if current > 0 {
      var p, n := toRemove * size, Round(toRemove * size, current);
      FloorBounds(2 * p + current, 2 * current);
      Ordered(size, toRemove, 0);
      assert size * toRemove == p;
      if n > 0 { Ordered(2 * current, 1, n); }
    }
  }

  /** ---------- purging ---------- */

  /** A concilium's transactions without its share of `toRemove`, which are the oldest. */
  function Cut(m: Waiting, ids: set<nat>, toRemove: int, current: nat): Waiting {
    if m.conciliumId in ids then Waiting(m.conciliumId, m.txs[Share(toRemove, |m.txs|, current)..]) else m
  }

  function Purged(maps: seq<Waiting>, ids: set<nat>, toRemove: int, current: nat): (purged: seq<Waiting>)
    ensures |purged| == |maps|
  {
    if maps == [] then []
    else
      var last := |maps| - 1;
      Purged(maps[..last], ids, toRemove, current) + [Cut(maps[last], ids, toRemove, current)]
  }

  /** Of a map only oldest transactions are gone. */
  predicate LosesOldest(was: Waiting, now: Waiting) {
    now.conciliumId == was.conciliumId && |now.txs| <= |was.txs| && now.txs == was.txs[|was.txs| - |now.txs|..]
  }

  ghost predicate OnlyOldestGone(was: seq<Waiting>, now: seq<Waiting>) {
    |now| == |was| && forall k :: 0 <= k < |was| ==> LosesOldest(was[k], now[k])
  }

  /** What has been removed from `n` maps against its share of `toRemove`: half a transaction per map away at most. */
  ghost predicate NearShare(current: nat, toRemove: int, removed: int, seen: nat, n: nat) {
    -(current * n) <= 2 * current * removed - 2 * (toRemove * seen) <= current * n
  }

  lemma NearShareStep(current: nat, toRemove: int, removed: int, seen: nat, n: nat, size: nat)
    requires NearShare(current, toRemove, removed, seen, n)
    requires 0 <= toRemove <= current && current > 0
    ensures NearShare(current, toRemove, removed + Share(toRemove, size, current), seen + size, n + 1)
  {
    var r := Share(toRemove, size, current);
    ShareError(toRemove, size, current);
    assert 2 * current * (removed + r) == 2 * current * removed + 2 * current * r;
    assert toRemove * (seen + size) == toRemove * seen + toRemove * size;
    assert current * (n + 1) == current * n + current;
  }

  lemma NearShareEnd(current: nat, toRemove: int, removed: int, n: nat)
    requires NearShare(current, toRemove, removed, current, n) && current > 0
    ensures -(n as int) <= 2 * (removed - toRemove) <= n
  {
    var d := 2 * (removed - toRemove);
    assert current * d == 2 * current * removed - 2 * (toRemove * current);
    if d > n { Ordered(current, n + 1, d); }
    if d < -(n as int) { Ordered(current, d, -(n as int) - 1); }
  }

  lemma {:induction false} PurgedShares(maps: seq<Waiting>, ids: set<nat>, toRemove: int, current: nat)
    requires 0 <= toRemove <= current && current > 0
    ensures NearShare(current, toRemove, SizeOf(maps, ids) - SizeOf(Purged(maps, ids, toRemove, current), ids),
                      SizeOf(maps, ids), CountOf(maps, ids))
  {
    if maps != [] {
      var init, last := maps[..|maps| - 1], maps[|maps| - 1];
      PurgedShares(init, ids, toRemove, current);
      assert Purged(maps, ids, toRemove, current)[..|init|] == Purged(init, ids, toRemove, current);
      if last.conciliumId in ids {
        NearShareStep(current, toRemove, SizeOf(init, ids) - SizeOf(Purged(init, ids, toRemove, current), ids),
                      SizeOf(init, ids), CountOf(init, ids), |last.txs|);
      }
    }
  }

  lemma CutOldest(m: Waiting, ids: set<nat>, toRemove: int, current: nat)
    ensures LosesOldest(m, Cut(m, ids, toRemove, current))
    ensures m.conciliumId !in ids || toRemove <= 0 ==> Cut(m, ids, toRemove, current) == m
  {
    if toRemove <= 0 { NoShare(toRemove, |m.txs|, current); }
  }

  lemma {:induction false} PurgedAt(maps: seq<Waiting>, ids: set<nat>, toRemove: int, current: nat, k: nat)
    requires k < |maps|
    ensures Purged(maps, ids, toRemove, current)[k] == Cut(maps[k], ids, toRemove, current)
  {
    if k < |maps| - 1 { PurgedAt(maps[..|maps| - 1], ids, toRemove, current, k); }
  }

  lemma {:induction false} PurgedOldest(maps: seq<Waiting>, ids: set<nat>, toRemove: int, current: nat,
                                        now: seq<Waiting>)
    requires now == Purged(maps, ids, toRemove, current)
    ensures OnlyOldestGone(maps, now)
    ensures forall k :: 0 <= k < |maps| && maps[k].conciliumId !in ids ==> now[k] == maps[k]
    ensures toRemove <= 0 ==> now == maps
  {
    forall k | 0 <= k < |maps|
      ensures LosesOldest(maps[k], now[k])
      ensures maps[k].conciliumId !in ids || toRemove <= 0 ==> now[k] == maps[k]
    {
      PurgedAt(maps, ids, toRemove, current, k);
      CutOldest(maps[k], ids, toRemove, current);
    }
  }

  /**
    The maps of `ids` lost only oldest transactions, none if there are no more than `desired`,
    else as many as it takes to get there, give or take half a one for each map.
   */
  ghost predicate Trimmed(was: seq<Waiting>, ids: set<nat>, desired: int, now: seq<Waiting>) {
    && OnlyOldestGone(was, now)
    && (forall k :: 0 <= k < |was| && was[k].conciliumId !in ids ==> now[k] == was[k])
    && (desired >= SizeOf(was, ids) ==> now == was)
    && (0 <= desired <= SizeOf(was, ids) ==>
          -(CountOf(was, ids) as int) <= 2 * (SizeOf(now, ids) - desired) <= CountOf(was, ids))
  }

  lemma {:induction false} PurgedCount(maps: seq<Waiting>, ids: set<nat>, toRemove: int, current: nat,
                                       now: seq<Waiting>)
    requires current == SizeOf(maps, ids) && 0 <= toRemove <= current && now == Purged(maps, ids, toRemove, current)
    ensures -(CountOf(maps, ids) as int) <= 2 * (SizeOf(now, ids) - (current - toRemove)) <= CountOf(maps, ids)
  {
    if current > 0 {
      PurgedShares(maps, ids, toRemove, current);
      NearShareEnd(current, toRemove, current - SizeOf(now, ids), CountOf(maps, ids));
    } else {
      PurgedOldest(maps, ids, toRemove, current, now);
    }
  }

  function PurgedTo(maps: seq<Waiting>, ids: set<nat>, desired: int): (purged: seq<Waiting>)
    ensures |purged| == |maps|
  {
    Purged(maps, ids, SizeOf(maps, ids) - desired, SizeOf(maps, ids))
  }

  /** Purging trims: to the target, but for half a transaction per map, and only the oldest go. */
  lemma PurgedIsTrimmed(maps: seq<Waiting>, ids: set<nat>, desired: int)
    ensures Trimmed(maps, ids, desired, PurgedTo(maps, ids, desired))
  {
    var current, now := SizeOf(maps, ids), PurgedTo(maps, ids, desired);
    var toRemove := current - desired;
    assert 0 <= desired <= current ==>
        -(CountOf(maps, ids) as int) <= 2 * (SizeOf(now, ids) - desired) <= CountOf(maps, ids) by {
      if 0 <= desired <= current { PurgedCount(maps, ids, toRemove, current, now); }
    }
    PurgedOldest(maps, ids, toRemove, current, now);
  }

  lemma {:induction false} SameElsewhere(was: seq<Waiting>, now: seq<Waiting>, ids: set<nat>)
    requires |was| == |now| && forall k :: 0 <= k < |was| ==> was[k].conciliumId == now[k].conciliumId
    requires forall k :: 0 <= k < |was| && was[k].conciliumId in ids ==> now[k] == was[k]
    ensures SizeOf(now, ids) == SizeOf(was, ids)
  {
    if was != [] { SameElsewhere(was[..|was| - 1], now[..|now| - 1], ids); }
  }

  lemma SameIds(was: seq<Waiting>, now: seq<Waiting>)
    requires OnlyOldestGone(was, now)
    ensures forall k :: 0 <= k < |was| ==> was[k].conciliumId == now[k].conciliumId
    ensures Ids(now) == Ids(was)
  {
    forall k | 0 <= k < |was|
      ensures was[k].conciliumId == now[k].conciliumId
      ensures was[k].conciliumId in Ids(now) && now[k].conciliumId in Ids(was)
    {
      assert LosesOldest(was[k], now[k]) && now[k] in now && was[k] in was;
    }
  }

  /** Trimming the others to what the kept ones leave of the limit: the limit, but for half a transaction per map. */
  lemma {:induction false} OthersTrimmed(was: seq<Waiting>, kept: set<nat>, others: set<nat>, limit: nat,
                                         now: seq<Waiting>)
    requires kept !! others && forall m :: m in was ==> m.conciliumId in kept || m.conciliumId in others
    requires SizeOf(was, kept) <= limit <= Size(was)
    requires Trimmed(was, others, limit - SizeOf(was, kept), now)
    ensures Near(Size(now), limit, |now|)
  {
    TwoParts(was, kept, others);
    SameElsewhere(was, now, kept);
    SameIds(was, now);
    forall m | m in now
      ensures m.conciliumId in kept || m.conciliumId in others
    {
      var k :| 0 <= k < |now| && now[k] == m;
      assert was[k] in was && LosesOldest(was[k], now[k]);
    }
    TwoParts(now, kept, others);
  }

  /** `size` is `target`, give or take half a transaction for each of `n` maps. */
  predicate Near(size: nat, target: nat, n: nat) {
    2 * target <= 2 * size + n && 2 * size <= 2 * target + n
  }

  function Cleared(maps: seq<Waiting>, kept: set<nat>): (cleared: seq<Waiting>)
    ensures |cleared| == |maps|
    ensures forall k :: 0 <= k < |maps| ==>
      cleared[k] == if maps[k].conciliumId in kept then maps[k] else Waiting(maps[k].conciliumId, [])
  {
    seq(|maps|, k requires 0 <= k < |maps| =>
      if maps[k].conciliumId in kept then maps[k] else Waiting(maps[k].conciliumId, []))
  }

  lemma {:induction false} ClearedSize(maps: seq<Waiting>, kept: set<nat>)
    ensures Size(Cleared(maps, kept)) == SizeOf(maps, kept)
  {
    if maps != [] {
      ClearedSize(maps[..|maps| - 1], kept);
      assert Cleared(maps, kept)[..|maps| - 1] == Cleared(maps[..|maps| - 1], kept);
    }
  }

  lemma ClearedOldest(was: seq<Waiting>, maps: seq<Waiting>, kept: set<nat>)
    requires OnlyOldestGone(was, maps)
    ensures OnlyOldestGone(was, Cleared(maps, kept))
  {
    forall k | 0 <= k < |was|
      ensures LosesOldest(was[k], Cleared(maps, kept)[k])
    {
      assert LosesOldest(was[k], maps[k]);
    }
  }

  lemma NothingGone(maps: seq<Waiting>)
    ensures OnlyOldestGone(maps, maps)
  {
  }

  lemma {:induction false} Replaced(maps: seq<Waiting>, k: nat, m: Waiting)
    requires k < |maps|
    ensures Size(maps[k := m]) == Size(maps) - |maps[k].txs| + |m.txs|
  {
    var n := |maps| - 1;
    if k < n {
      Replaced(maps[..n], k, m);
      assert maps[k := m][..n] == maps[..n][k := m];
    } else {
      assert maps[k := m][..n] == maps[..n];
    }
  }

  /** ---------- the limit ---------- */

  /** The pool brought back to its limit. */
  function Limited(maps: seq<Waiting>, preferred: set<nat>): (limited: seq<Waiting>)
    ensures |limited| == |maps|
  {
    if Size(maps) < MEMPOOL_TX_QTY then maps
    else if preferred == {} then PurgedTo(maps, Ids(maps), 2 * Size(maps) / 3)
    else if SizeOf(maps, preferred) < MEMPOOL_TX_QTY then
      PurgedTo(maps, Ids(maps) - preferred, MEMPOOL_TX_QTY - SizeOf(maps, preferred))
    else Cleared(PurgedTo(maps, preferred, 2 * Size(maps) / 3), preferred)
  }

  lemma {:induction false} PartSize(maps: seq<Waiting>, ids: set<nat>)
    ensures SizeOf(maps, ids) <= Size(maps) && (Size(maps) > 0 ==> maps != [])
  {
    if maps != [] { PartSize(maps[..|maps| - 1], ids); }
  }

  /** No concilium preferred: two thirds of the transactions stay, whatever their concilium. */
  lemma {:induction false} LimitedAll(was: seq<Waiting>, now: seq<Waiting>)
    requires Size(was) >= 500 && now == Limited(was, {})
    ensures OnlyOldestGone(was, now) && Near(Size(now), 2 * Size(was) / 3, |now|)
  {
    var ids := Ids(was);
    WholeSize(was, ids);
    PurgedIsTrimmed(was, ids, 2 * Size(was) / 3);
    SameIds(was, now);
    forall m | m in now
      ensures m.conciliumId in ids
    {
      assert m.conciliumId in Ids(now);
    }
    WholeSize(now, ids);
  }

  /** Preferred conciliums within the limit: they keep everything, and the others what is left of the limit. */
  lemma {:induction false} LimitedOthers(was: seq<Waiting>, preferred: set<nat>, now: seq<Waiting>)
    requires Size(was) >= 500 && now == Limited(was, preferred) && preferred != {}
    requires SizeOf(was, preferred) < 500
    ensures OnlyOldestGone(was, now) && Near(Size(now), 500, |now|)
    ensures forall k :: 0 <= k < |was| && was[k].conciliumId in preferred ==> now[k] == was[k]
  {
    var others := Ids(was) - preferred;
    PurgedIsTrimmed(was, others, MEMPOOL_TX_QTY - SizeOf(was, preferred));
    forall m | m in was
      ensures m.conciliumId in preferred || m.conciliumId in others
    {
      assert m.conciliumId in Ids(was);
    }
    OthersTrimmed(was, preferred, others, MEMPOOL_TX_QTY, now);
  }

  lemma ClearedAt(was: seq<Waiting>, purged: seq<Waiting>, ids: set<nat>)
    requires OnlyOldestGone(was, purged)
    ensures forall k :: 0 <= k < |was| ==>
      Cleared(purged, ids)[k] == if was[k].conciliumId in ids then purged[k] else Waiting(was[k].conciliumId, [])
  {
    SameIds(was, purged);
  }

  lemma {:induction false} TrimmedNear(was: seq<Waiting>, ids: set<nat>, desired: nat, purged: seq<Waiting>)
    requires Trimmed(was, ids, desired, purged)
    ensures SizeOf(was, ids) >= desired ==> Near(SizeOf(purged, ids), desired, |purged|)
    ensures SizeOf(was, ids) <= desired ==> purged == was
  {
  }

  /** The maps of `ids` trimmed and the others given up. */
  lemma {:induction false} TrimmedAndCleared(was: seq<Waiting>, ids: set<nat>, desired: nat, now: seq<Waiting>)
    requires now == Cleared(PurgedTo(was, ids, desired), ids)
    ensures OnlyOldestGone(was, now) && Size(now) == SizeOf(PurgedTo(was, ids, desired), ids)
    ensures forall k :: 0 <= k < |was| && was[k].conciliumId !in ids ==> now[k].txs == []
    ensures SizeOf(was, ids) <= desired ==>
      Size(now) == SizeOf(was, ids) && forall k :: 0 <= k < |was| && was[k].conciliumId in ids ==> now[k] == was[k]
    ensures SizeOf(was, ids) >= desired ==> Near(Size(now), desired, |now|)
  {
    var purged := PurgedTo(was, ids, desired);
    PurgedIsTrimmed(was, ids, desired);
    ClearedSize(purged, ids);
    ClearedOldest(was, purged, ids);
    ClearedAt(was, purged, ids);
    TrimmedNear(was, ids, desired, purged);
  }

  /** Preferred conciliums above the limit: the others are given up, and of the preferred two thirds of all may stay. */
  lemma {:induction false} LimitedPreferred(was: seq<Waiting>, preferred: set<nat>, now: seq<Waiting>)
    requires now == Limited(was, preferred) && preferred != {} && SizeOf(was, preferred) >= 500
    ensures OnlyOldestGone(was, now)
    ensures forall k :: 0 <= k < |was| && was[k].conciliumId !in preferred ==> now[k].txs == []
    ensures var trimmed := 2 * Size(was) / 3;
      if SizeOf(was, preferred) <= trimmed
      then Size(now) == SizeOf(was, preferred) &&
           forall k :: 0 <= k < |was| && was[k].conciliumId in preferred ==> now[k] == was[k]
      else Near(Size(now), trimmed, |now|)
  {
    PartSize(was, preferred);
    TrimmedAndCleared(was, preferred, 2 * Size(was) / 3, now);
  }

  /** Only oldest transactions go, and the limit is kept but for half a transaction per map. */
  lemma LimitedKeeps(was: seq<Waiting>, preferred: set<nat>)
    ensures OnlyOldestGone(was, Limited(was, preferred))
    ensures Bounded(was) && |was| + 2 <= 500 ==>
      2 * Size(Limited(was, preferred)) <= 1000 + |was|
  {
    var now := Limited(was, preferred);
    PartSize(was, preferred);
    if Size(was) < MEMPOOL_TX_QTY {
      NothingGone(was);
    } else if preferred == {} {
      LimitedAll(was, now);
    } else if SizeOf(was, preferred) < MEMPOOL_TX_QTY {
      LimitedOthers(was, preferred, now);
    } else {
      LimitedPreferred(was, preferred, now);
    }
  }

  function Ensured(maps: seq<Waiting>, id: nat): seq<Waiting> {
    if id in Ids(maps) then maps else maps + [Waiting(id, [])]
  }

  /** At most the limit, half a transaction per concilium, and one more. */
  predicate Bounded(maps: seq<Waiting>) {
    2 * Size(maps) <= 1000 + |maps| + 2
  }

  lemma LimitedIds(was: seq<Waiting>, preferred: set<nat>)
    ensures forall k :: 0 <= k < |was| ==> Limited(was, preferred)[k].conciliumId == was[k].conciliumId
  {
    LimitedKeeps(was, preferred);
    SameIds(was, Limited(was, preferred));
  }

  /** There is room for one more. */
  lemma LimitedBounded(was: seq<Waiting>, preferred: set<nat>)
    ensures Bounded(was) && |was| + 2 <= 500 ==>
      2 * Size(Limited(was, preferred)) <= 1000 + |was|
  {
    LimitedKeeps(was, preferred);
  }

  class Mempool {
    var maps: seq<Waiting>
    var preferred: set<nat>
    var local: set<Hash>
    var badTxns: set<Hash>

    constructor ()
      ensures maps == [] && preferred == {} && local == {} && badTxns == {} && Bounded(maps)
    {
      maps, preferred, local, badTxns := [], {}, {}, {};
    }

    method CalcSize() returns (size: nat)
      ensures size == Size(maps)
    {
      size := 0;
      for i := 0 to |maps|
        invariant size == Size(maps[..i])
      {
        assert maps[..i + 1][..i] == maps[..i];
        size := size + |maps[i].txs|;
      }
      assert maps[..|maps|] == maps;
    }

    method CalcSizeOf(ids: set<nat>) returns (size: nat)
      ensures size == SizeOf(maps, ids)
    {
      size := 0;
      for i := 0 to |maps|
        invariant size == SizeOf(maps[..i], ids)
      {
        assert maps[..i + 1][..i] == maps[..i];
        if maps[i].conciliumId in ids { size := size + |maps[i].txs|; }
      }
      assert maps[..|maps|] == maps;
    }

    method PurgeEach(ids: set<nat>, toRemove: int, current: nat)
      modifies this`maps
      ensures maps == Purged(old(maps), ids, toRemove, current)
    {
      ghost var was := maps;
      assert was[..0] == [] && was[0..] == was;
      for i := 0 to |maps|
        invariant |maps| == |was| && maps[..i] == Purged(was[..i], ids, toRemove, current) && maps[i..] == was[i..]
      {
        assert maps[i] == maps[i..][0] == was[i];
        assert was[..i + 1][..i] == was[..i];
        ghost var before := maps;
        maps := maps[i := Cut(maps[i], ids, toRemove, current)];
        assert maps[..i + 1] == before[..i] + [maps[i]];
        assert maps[i + 1..] == before[i..][1..] == was[i + 1..];
      }
      assert maps[..|maps|] == maps && was[..|was|] == was;
    }

    /** Trim the maps of `ids` in proportion to their sizes, the oldest transactions first. */
    method PurgeMaps(ids: set<nat>, desired: int)
      modifies this`maps
      ensures maps == PurgedTo(old(maps), ids, desired)
    {
      var current := CalcSizeOf(ids);
      PurgeEach(ids, current - desired, current);
    }

    /** Bring the pool back to its limit. */
    method LimitConstraints()
      modifies this`maps
      ensures maps == Limited(old(maps), preferred)
    {
      var current := CalcSize();
      if current < MEMPOOL_TX_QTY { return; }
      var trimmed := 2 * current / 3;
      if preferred == {} {
        PurgeMaps(Ids(maps), trimmed);
        return;
      }
      var preferredSize := CalcSizeOf(preferred);
      if preferredSize < MEMPOOL_TX_QTY {
        PurgeMaps(Ids(maps) - preferred, MEMPOOL_TX_QTY - preferredSize);
      } else {
        PurgeMaps(preferred, trimmed);
        maps := Cleared(maps, preferred);
      }
    }

    method HasTx(h: Hash) returns (b: bool)
      ensures b <==> h in local || h in badTxns || exists k :: 0 <= k < |maps| && h in maps[k].txs
    {
      if h in local || h in badTxns { return true; }
      for i := 0 to |maps|
        invariant forall k :: 0 <= k < i ==> h !in maps[k].txs
      {
        if h in maps[i].txs { return true; }
      }
      return false;
    }

    /** Where the map of a concilium is; it is created if there is none. */
    method EnsureConciliumTxns(id: nat) returns (k: nat)
      modifies this`maps
      ensures k < |maps| && maps[k].conciliumId == id
      ensures maps == Ensured(old(maps), id) && Size(maps) == Size(old(maps))
    {
      for i := 0 to |maps|
        invariant forall j :: 0 <= j < i ==> maps[j].conciliumId != id
      {
        if maps[i].conciliumId == id {
          assert maps[i] in maps;
          return i;
        }
      }
      k := |maps|;
      maps := maps + [Waiting(id, [])];
      assert maps[..k] == old(maps);
    }

    /**
      Make room, then add a transaction that is not known yet as the newest of its concilium;
      the pool stays bounded.
     */
    method AddTx(h: Hash, id: nat) returns (ok: bool)
      modifies this`maps
      ensures var roomy := Limited(Ensured(old(maps), id), preferred);
        && (ok <==> h !in local && h !in badTxns && forall k :: 0 <= k < |roomy| ==> h !in roomy[k].txs)
        && (ok ==> exists k :: 0 <= k < |roomy| && roomy[k].conciliumId == id
                            && maps == roomy[k := Waiting(id, roomy[k].txs + [h])])
        && (!ok ==> maps == roomy)
      ensures Bounded(old(maps)) && |maps| + 2 <= 500 ==> Bounded(maps)
    {
      var k := EnsureConciliumTxns(id);
      ghost var was := maps;
      LimitConstraints();
      LimitedIds(was, preferred);
      LimitedBounded(was, preferred);
      var known := HasTx(h);
      ok := !known;
      if ok {
        var m := Waiting(id, maps[k].txs + [h]);
        Replaced(maps, k, m);
        maps := maps[k := m];
      }
    }

    method SetPreferredConciliums(ids: set<nat>)
      modifies this`preferred
      ensures preferred == old(preferred) + ids
    {
      preferred := preferred + ids;
    }
  }
}
