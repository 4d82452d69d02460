/** Which blocks to offer a peer that tells its last known ones: a search of the graph, level by level. */
module GetBlocks {
  import opened Collections
  import opened Ledger

  const MAX_BLOCKS_INV: nat := 300

  datatype Info = Info(parents: set<Hash>, height: nat)
  type MainDag = map<Hash, Info>

  /** `c` is a child of `h`, one higher. */
  predicate IsNext(dag: MainDag, h: Hash, c: Hash) {
    h in dag && c in dag && h in dag[c].parents && dag[c].height == dag[h].height + 1
  }

  /** The children of `h` that are one higher and not known. */
  function NextOf(dag: MainDag, known: set<Hash>, h: Hash): set<Hash> {
    set c | c in dag && IsNext(dag, h, c) && c !in known
  }

  /** Both blocks are in the graph, `h` is a parent of `c`, one lower, and `c` is unknown. */
  ghost predicate StepsUp(dag: MainDag, known: set<Hash>, h: Hash, c: Hash) {
    c in dag && h in dag && h in dag[c].parents && dag[h].height + 1 == dag[c].height && c !in known
  }

  /** A way up from a known block through unknown ones, one higher at a time. */
  ghost predicate IsClimb(dag: MainDag, known: set<Hash>, path: seq<Hash>) {
    && |path| > 1 && path[0] in known
    && forall k :: 0 <= k < |path| - 1 ==> StepsUp(dag, known, path[k], path[k + 1])
  }

  ghost predicate Reached(dag: MainDag, known: set<Hash>, h: Hash) {
    exists path :: IsClimb(dag, known, path) && path[|path| - 1] == h
  }

  lemma ReachedFirst(dag: MainDag, known: set<Hash>, h: Hash, c: Hash)
    requires h in known && c in NextOf(dag, known, h)
    ensures Reached(dag, known, c)
  {
    assert IsClimb(dag, known, [h, c]);
  }

  lemma ReachedNext(dag: MainDag, known: set<Hash>, h: Hash, c: Hash)
    requires Reached(dag, known, h) && c in NextOf(dag, known, h)
    ensures Reached(dag, known, c)
  {
    var path :| IsClimb(dag, known, path) && path[|path| - 1] == h;
    assert IsClimb(dag, known, path + [c]);
  }

  /** What contains the next blocks of the known ones, and of its own, contains all that is reached. */
  lemma {:induction false} ClosedContains(dag: MainDag, known: set<Hash>, sent: set<Hash>, path: seq<Hash>)
    requires IsClimb(dag, known, path)
    requires forall h :: h in known || h in sent ==> NextOf(dag, known, h) <= sent
    ensures path[|path| - 1] in sent
    decreases |path|
  {
    var init := path[..|path| - 1];
    assert path[|path| - 2 + 1] in NextOf(dag, known, path[|path| - 2]);
    if |path| > 2 {
      assert forall k :: 0 <= k < |init| ==> init[k] == path[k];
      ClosedContains(dag, known, sent, init);
    }
  }

  ghost predicate Below(dag: MainDag, level: set<Hash>, k: nat) {
    forall h :: h in level ==> h in dag && dag[h].height >= k
  }

  lemma HeightBound(dag: MainDag) returns (top: nat)
    ensures forall h :: h in dag ==> dag[h].height <= top
  {
    top := 0;
    var todo := dag.Keys;
    while todo != {}
      invariant todo <= dag.Keys && forall h :: h in dag && h !in todo ==> dag[h].height <= top
    {
      var h :| h in todo;
      top := if dag[h].height > top then dag[h].height else top;
      todo := todo - {h};
    }
  }

  /** The hashes of `asked` that the graph has, or the genesis block if it has none of them. */
  function KnownOf(dag: MainDag, genesis: Hash, asked: seq<Hash>): set<Hash> {
    var known := set h | h in asked && h in dag;
    if known == {} && genesis in dag then {genesis} else known
  }

  predicate AsksForAll(dag: MainDag, asked: seq<Hash>) {
    forall h :: h in asked ==> h !in dag
  }

  ghost predicate NextOfSome(dag: MainDag, known: set<Hash>, level: set<Hash>, c: Hash) {
    exists h :: h in level && c in NextOf(dag, known, h)
  }

  /** The blocks `done` of the level are in `now`, and their next ones there or in `next`. */
  ghost predicate Passed(dag: MainDag, known: set<Hash>, done: set<Hash>, now: set<Hash>, next: set<Hash>) {
    && done <= now
    && (forall c :: c in next ==> NextOfSome(dag, known, done, c))
    && (forall h :: h in done ==> NextOf(dag, known, h) <= now + next)
  }

  lemma PassOne(dag: MainDag, known: set<Hash>, done: set<Hash>, now: set<Hash>, next: set<Hash>, h: Hash,
                more: set<Hash>)
    requires Passed(dag, known, done, now, next) && more == NextOf(dag, known, h) - now
    ensures Passed(dag, known, done + {h}, now + {h}, next + more)
  {
    forall c | c in next + more
      ensures NextOfSome(dag, known, done + {h}, c)
    {
      if c in next {
        var g :| g in done && c in NextOf(dag, known, g);
        assert g in done + {h};
      } else {
        assert h in done + {h} && c in NextOf(dag, known, h);
      }
    }
  }

  lemma AddOne(s: set<Hash>, x: Hash)
    ensures |s + {x}| <= |s| + 1
  {
    if x in s { assert s + {x} == s; }
  }

  /** One level: send its blocks, up to the limit, and collect the next level. */
  method SendLevel(dag: MainDag, known: set<Hash>, level: set<Hash>, sent: set<Hash>)
    returns (now: set<Hash>, next: set<Hash>, ghost done: set<Hash>)
    requires |sent| <= MAX_BLOCKS_INV
    ensures now == sent + done && done <= level && |now| <= MAX_BLOCKS_INV + 1
    ensures Passed(dag, known, done, now, next)
    ensures |now| <= MAX_BLOCKS_INV ==> done == level
    ensures next !! sent && next !! known
  {
    now, next, done := sent, {}, {};
    var todo := level;
    while todo != {}
      invariant done + todo == level && done !! todo && now == sent + done && |now| <= MAX_BLOCKS_INV
      invariant Passed(dag, known, done, now, next) && next !! sent && next !! known
      decreases todo
    {
      var h :| h in todo;
      var more := NextOf(dag, known, h) - now;
      PassOne(dag, known, done, now, next, h, more);
      AddOne(now, h);
      MoveOne(done, todo, h);
      assert sent + (done + {h}) == sent + done + {h};
      next := next + more;
      now := now + {h};
      todo, done := todo - {h}, done + {h};
      if |now| > MAX_BLOCKS_INV { return; }
    }
  }

  /** What was sent is reached, and what is next to it was sent or is in the level. */
  ghost predicate Searching(dag: MainDag, known: set<Hash>, first: set<Hash>, sent: set<Hash>, level: set<Hash>) {
    && first <= sent
    && (forall h :: h in sent ==> h in first || Reached(dag, known, h))
    && (forall h :: h in level ==> Reached(dag, known, h))
  }

  ghost predicate Complete(dag: MainDag, known: set<Hash>, sent: set<Hash>, level: set<Hash>) {
    forall h :: h in known || h in sent ==> NextOf(dag, known, h) <= sent + level
  }

  lemma NextLevel(dag: MainDag, known: set<Hash>, first: set<Hash>, sent: set<Hash>, level: set<Hash>,
                  done: set<Hash>, now: set<Hash>, next: set<Hash>, k: nat)
    requires Searching(dag, known, first, sent, level) && Below(dag, level, k)
    requires now == sent + done && done <= level && Passed(dag, known, done, now, next)
    ensures Searching(dag, known, first, now, next) && Below(dag, next, k + 1)
    ensures Complete(dag, known, sent, level) && done == level ==> Complete(dag, known, now, next)
  {
    forall c | c in next
      ensures Reached(dag, known, c) && c in dag && dag[c].height >= k + 1
    {
      var h :| h in done && c in NextOf(dag, known, h);
      ReachedNext(dag, known, h, c);
    }
  }

  /** ---------- layers ---------- */

  function NextOfAll(dag: MainDag, known: set<Hash>, blocks: set<Hash>): set<Hash> {
    set h, c | h in blocks && c in NextOf(dag, known, h) :: c
  }

  /** What is sent after `j` whole levels: with every block, and every known one, all that is next to it. */
  function Layer(dag: MainDag, known: set<Hash>, first: set<Hash>, j: nat): set<Hash> {
    if j == 0 then first
    else
      var below := Layer(dag, known, first, j - 1);
      below + NextOfAll(dag, known, known + below)
  }

  /** Level `j` would go past the limit. */
  predicate PassesLimit(dag: MainDag, known: set<Hash>, first: set<Hash>, j: nat) {
    |Layer(dag, known, first, j)| < MAX_BLOCKS_INV < |Layer(dag, known, first, j + 1)|
  }

  /** After `j` levels the search ends: the next one would go past the limit, and is sent in part, or there is none. */
  ghost predicate StopsAt(dag: MainDag, known: set<Hash>, first: set<Hash>, j: nat, sent: set<Hash>) {
    var done, more := Layer(dag, known, first, j), Layer(dag, known, first, j + 1);
    if PassesLimit(dag, known, first, j) then done <= sent <= more && |sent| == MAX_BLOCKS_INV + 1
    else sent == done && |sent| <= MAX_BLOCKS_INV && (|sent| == MAX_BLOCKS_INV || more == done)
  }

  lemma {:induction false} LayersGrow(dag: MainDag, known: set<Hash>, first: set<Hash>, i: nat, j: nat)
    requires i <= j
    ensures Layer(dag, known, first, i) <= Layer(dag, known, first, j)
    ensures |Layer(dag, known, first, i)| <= |Layer(dag, known, first, j)|
  {
    if i < j { LayersGrow(dag, known, first, i, j - 1); }
    SubsetSize(Layer(dag, known, first, i), Layer(dag, known, first, j));
  }

  lemma {:induction false} LayersStay(dag: MainDag, known: set<Hash>, first: set<Hash>, i: nat, j: nat)
    requires i <= j && Layer(dag, known, first, i + 1) == Layer(dag, known, first, i)
    ensures Layer(dag, known, first, j) == Layer(dag, known, first, i)
  {
    if i < j { LayersStay(dag, known, first, i, j - 1); }
  }

  lemma NonePasses(dag: MainDag, known: set<Hash>, first: set<Hash>, i: nat, j: nat, sent: set<Hash>)
    requires StopsAt(dag, known, first, j, sent) && !PassesLimit(dag, known, first, j)
    ensures !PassesLimit(dag, known, first, i)
  {
    if i < j {
      LayersGrow(dag, known, first, i + 1, j);
    } else {
      LayersGrow(dag, known, first, j, i);
      if |sent| < MAX_BLOCKS_INV {
        LayersStay(dag, known, first, j, i);
        LayersStay(dag, known, first, j, i + 1);
      }
    }
  }

  /** One more than the limit is sent if and only if some level starts below the limit and would end above it. */
  lemma PastLimitIff(dag: MainDag, known: set<Hash>, first: set<Hash>, j: nat, sent: set<Hash>)
    requires StopsAt(dag, known, first, j, sent)
    ensures |sent| == 301 <==> exists i :: PassesLimit(dag, known, first, i)
  {
    if !PassesLimit(dag, known, first, j) {
      forall i: nat { NonePasses(dag, known, first, i, j, sent); }
    }
  }

  /** The part of the level that was done and what is next to it make up the layers. */
  lemma LayerDone(dag: MainDag, known: set<Hash>, first: set<Hash>, k: nat, sent: set<Hash>, level: set<Hash>,
                  now: set<Hash>, next: set<Hash>)
    requires sent == Layer(dag, known, first, k) && now == sent + level == Layer(dag, known, first, k + 1)
    requires Passed(dag, known, level, now, next)
    ensures now + next == Layer(dag, known, first, k + 2)
  {
    forall c
      ensures c in now + next <==> c in now + NextOfAll(dag, known, known + now)
    {
      if c in next {
        var h :| h in level && c in NextOf(dag, known, h);
      }
      if h :| h in known + now && c in NextOf(dag, known, h) {
        if h !in level { assert c in NextOfAll(dag, known, known + sent); }
      }
    }
  }

  /** Where the search stands after `k` levels. */
  ghost predicate AtLayer(dag: MainDag, known: set<Hash>, first: set<Hash>, k: nat, sent: set<Hash>, level: set<Hash>) {
    if |sent| <= MAX_BLOCKS_INV
    then sent == Layer(dag, known, first, k) && sent + level == Layer(dag, known, first, k + 1)
    else k > 0 && StopsAt(dag, known, first, k - 1, sent)
  }

  lemma NextLayer(dag: MainDag, known: set<Hash>, first: set<Hash>, k: nat, sent: set<Hash>, level: set<Hash>,
                  done: set<Hash>, now: set<Hash>, next: set<Hash>)
    requires AtLayer(dag, known, first, k, sent, level) && |sent| < MAX_BLOCKS_INV
    requires now == sent + done && done <= level && |now| <= MAX_BLOCKS_INV + 1 && Passed(dag, known, done, now, next)
    requires |now| <= MAX_BLOCKS_INV ==> done == level
    ensures AtLayer(dag, known, first, k + 1, now, next)
  {
    if |now| <= MAX_BLOCKS_INV {
      LayerDone(dag, known, first, k, sent, level, now, next);
    } else {
      SubsetSize(now, Layer(dag, known, first, k + 1));
    }
  }

  /** Where the search stands before level `k`. */
  ghost predicate SearchAt(dag: MainDag, known: set<Hash>, first: set<Hash>, k: nat, sent: set<Hash>, level: set<Hash>)
  {
    && Searching(dag, known, first, sent, level) && Below(dag, level, k)
    && AtLayer(dag, known, first, k, sent, level)
    && |sent| <= MAX_BLOCKS_INV + 1 && (|sent| < MAX_BLOCKS_INV ==> Complete(dag, known, sent, level))
  }

  lemma SearchNext(dag: MainDag, known: set<Hash>, first: set<Hash>, k: nat, sent: set<Hash>, level: set<Hash>,
                   done: set<Hash>, now: set<Hash>, next: set<Hash>)
    requires SearchAt(dag, known, first, k, sent, level) && |sent| < MAX_BLOCKS_INV
    requires now == sent + done && done <= level && |now| <= MAX_BLOCKS_INV + 1 && Passed(dag, known, done, now, next)
    requires |now| <= MAX_BLOCKS_INV ==> done == level
    ensures SearchAt(dag, known, first, k + 1, now, next)
  {
    NextLevel(dag, known, first, sent, level, done, now, next, k);
    NextLayer(dag, known, first, k, sent, level, done, now, next);
  }

  lemma SearchEnds(dag: MainDag, known: set<Hash>, first: set<Hash>, k: nat, sent: set<Hash>, level: set<Hash>)
    requires SearchAt(dag, known, first, k, sent, level) && (level == {} || |sent| >= MAX_BLOCKS_INV)
    ensures exists j :: StopsAt(dag, known, first, j, sent)
    ensures |sent| <= MAX_BLOCKS_INV + 1 && Searching(dag, known, first, sent, {})
    ensures |sent| < MAX_BLOCKS_INV ==> Complete(dag, known, sent, {})
  {
    if |sent| <= MAX_BLOCKS_INV { assert StopsAt(dag, known, first, k, sent); }
  }

  lemma LevelBelowTop(dag: MainDag, level: set<Hash>, k: nat, top: nat)
    requires Below(dag, level, k) && level != {} && forall h :: h in dag ==> dag[h].height <= top
    ensures k <= top
  {
    var h :| h in level;
  }

  /** ---------- the search ---------- */

  /** The blocks next to the known ones. */
  method FirstLevel(dag: MainDag, known: set<Hash>, first: set<Hash>) returns (level: set<Hash>)
    requires first <= known
    ensures Searching(dag, known, first, first, level) && Complete(dag, known, first, level) && Below(dag, level, 0)
    ensures first + level == Layer(dag, known, first, 1)
  {
    assert known + first == known;
    level := set h, c | h in known && c in NextOf(dag, known, h) :: c;
    forall c | c in level
      ensures Reached(dag, known, c)
    {
      var h :| h in known && c in NextOf(dag, known, h);
      ReachedFirst(dag, known, h, c);
    }
  }

  method Advance(dag: MainDag, known: set<Hash>, ghost first: set<Hash>, ghost k: nat, sent: set<Hash>,
                 level: set<Hash>)
    returns (now: set<Hash>, next: set<Hash>)
    requires SearchAt(dag, known, first, k, sent, level) && |sent| < MAX_BLOCKS_INV
    ensures SearchAt(dag, known, first, k + 1, now, next)
  {
    ghost var done;
    now, next, done := SendLevel(dag, known, level, sent);
    SearchNext(dag, known, first, k, sent, level, done, now, next);
  }

  /** Level after level, until there is none or the limit is met. */
  method Search(dag: MainDag, known: set<Hash>, first: set<Hash>) returns (sent: set<Hash>)
    requires first <= known && |first| <= 1
    ensures |sent| <= MAX_BLOCKS_INV + 1
    ensures Searching(dag, known, first, sent, {})
    ensures |sent| < MAX_BLOCKS_INV ==> Complete(dag, known, sent, {})
    ensures exists j :: StopsAt(dag, known, first, j, sent)
  {
    sent := first;
    var level := FirstLevel(dag, known, first);
    ghost var top := HeightBound(dag);
    ghost var k: nat := 0;
    while level != {} && |sent| < MAX_BLOCKS_INV
      invariant k <= top + 1 && SearchAt(dag, known, first, k, sent, level)
      decreases top + 1 - k
    {
      LevelBelowTop(dag, level, k, top);
      sent, level := Advance(dag, known, first, k, sent, level);
      k := k + 1;
    }
    SearchEnds(dag, known, first, k, sent, level);
  }

  /** What the search starts from. */
  lemma KnownAndFirst(dag: MainDag, genesis: Hash, asked: seq<Hash>, known: set<Hash>, first: set<Hash>)
    requires var here := set h | h in asked && h in dag;
      if here == {} then genesis in dag && known == first == {genesis} else known == here && first == {}
    ensures known == KnownOf(dag, genesis, asked)
    ensures first == if AsksForAll(dag, asked) then known else {}
  {
    var here := set h | h in asked && h in dag;
    assert forall h :: h in asked && h in dag ==> h in here;
    if here != {} {
      var h :| h in here;
      assert h in asked && h in dag;
    }
  }

  lemma AllFound(dag: MainDag, known: set<Hash>, sent: set<Hash>)
    requires Complete(dag, known, sent, {})
    ensures forall h :: Reached(dag, known, h) ==> h in sent
  {
    forall h | Reached(dag, known, h)
      ensures h in sent
    {
      var path :| IsClimb(dag, known, path) && path[|path| - 1] == h;
      ClosedContains(dag, known, sent, path);
    }
  }

  lemma NobodyReached(dag: MainDag)
    ensures forall h :: !Reached(dag, {}, h)
  {
  }

  lemma {:induction false} EmptyLayers(dag: MainDag, j: nat)
    ensures Layer(dag, {}, {}, j) == {}
  {
    if j > 0 { EmptyLayers(dag, j - 1); }
  }

  lemma EmptySearch(dag: MainDag)
    ensures StopsAt(dag, {}, {}, 0, {}) && forall j :: !PassesLimit(dag, {}, {}, j)
  {
    forall j: nat { EmptyLayers(dag, j); }
  }

  /**
    The blocks to send: what is reached from the known ones, all of it if that is less than
    the limit. A peer that knows none of the blocks is sent the genesis block as well.
   */
  method GetBlocksFromLastKnown(dag: MainDag, genesis: Hash, asked: seq<Hash>) returns (sent: set<Hash>)
    ensures |sent| <= 301
    ensures var known := KnownOf(dag, genesis, asked);
      var first := if AsksForAll(dag, asked) then known else {};
      && first <= sent
      && (forall h :: h in sent ==> h in first || Reached(dag, known, h))
      && (|sent| < 300 ==> forall h :: Reached(dag, known, h) ==> h in sent)
      && (exists j :: StopsAt(dag, known, first, j, sent))
      && (|sent| == 301 <==> exists j :: PassesLimit(dag, known, first, j))
  {
    var known := set h | h in asked && h in dag;
    sent := {};
    if known == {} {
      if genesis !in dag {
        NobodyReached(dag);
        EmptySearch(dag);
        return;
      }
      known := {genesis};
      sent := {genesis};
    }
    KnownAndFirst(dag, genesis, asked, known, sent);
    sent := Search(dag, known, sent);
    if |sent| < MAX_BLOCKS_INV { AllFound(dag, known, sent); }
    ghost var j :| StopsAt(dag, known, if AsksForAll(dag, asked) then known else {}, j, sent);
    PastLimitIff(dag, known, if AsksForAll(dag, asked) then known else {}, j, sent);
  }

  /** `c` is one higher than the highest of its parents. */
  ghost predicate OneAbove(dag: MainDag, c: Hash)
    requires c in dag
  {
    && dag[c].parents <= dag.Keys
    && (forall p :: p in dag[c].parents ==> dag[p].height < dag[c].height)
    && exists p :: p in dag[c].parents && dag[p].height + 1 == dag[c].height
  }

  /** All blocks but the genesis one. */
  ghost predicate Heighted(dag: MainDag, genesis: Hash) {
    forall c :: c in dag && c != genesis ==> OneAbove(dag, c)
  }

  lemma ParentBelow(dag: MainDag, genesis: Hash, h: Hash) returns (p: Hash)
    requires Heighted(dag, genesis) && genesis in dag && h in dag && h != genesis
    ensures p in dag && h in NextOf(dag, {genesis}, p) && dag[p].height < dag[h].height
  {
    assert OneAbove(dag, h);
    p :| p in dag[h].parents && dag[p].height + 1 == dag[h].height;
    assert IsNext(dag, p, h);
  }

  /** From the genesis block everything is reached. */
  lemma {:induction false} AllReached(dag: MainDag, genesis: Hash, h: Hash)
    requires Heighted(dag, genesis) && genesis in dag && h in dag && h != genesis
    ensures Reached(dag, {genesis}, h)
    decreases dag[h].height
  {
    var p := ParentBelow(dag, genesis, h);
    if p == genesis {
      ReachedFirst(dag, {genesis}, genesis, h);
    } else {
      AllReached(dag, genesis, p);
      ReachedNext(dag, {genesis}, p, h);
    }
  }

  /** So a peer that knows no block is sent the whole graph, if that is less than the limit. */
  lemma StrangersGetAll(dag: MainDag, genesis: Hash, asked: seq<Hash>, sent: set<Hash>)
    requires Heighted(dag, genesis) && genesis in dag && AsksForAll(dag, asked)
    requires genesis in sent
    requires forall h :: h in sent ==> h == genesis || Reached(dag, KnownOf(dag, genesis, asked), h)
    requires forall h :: Reached(dag, KnownOf(dag, genesis, asked), h) ==> h in sent
    ensures sent == dag.Keys
  {
    var known := KnownOf(dag, genesis, asked);
    assert (set h | h in asked && h in dag) == {};
    assert known == {genesis};
    forall h | h in dag && h != genesis { AllReached(dag, genesis, h); }
    forall h | Reached(dag, known, h)
      ensures h in dag
    {
      var path :| IsClimb(dag, known, path) && path[|path| - 1] == h;
      assert path[|path| - 2 + 1] in NextOf(dag, known, path[|path| - 2]);
    }
  }

  /** ---------- past the limit ---------- */

  function UpTo(n: nat): set<Hash> {
    if n == 0 then {} else UpTo(n - 1) + {n - 1}
  }

  lemma {:induction false} UpToSize(n: nat)
    ensures |UpTo(n)| == n && forall h: Hash :: h in UpTo(n) <==> h < n
  {
    if n > 0 { UpToSize(n - 1); }
  }

  /** A genesis block with 302 children: a peer that knows nothing is sent one block more than the limit. */
  lemma StarPassesLimit(dag: MainDag)
    requires dag == map h | h in UpTo(303) :: if h == 0 then Info({}, 1) else Info({0}, 2)
    ensures PassesLimit(dag, {0}, {0}, 0)
  {
    UpToSize(303);
    assert Layer(dag, {0}, {0}, 0) == {0};
    forall h | h in UpTo(303)
      ensures h in Layer(dag, {0}, {0}, 1)
    {
      if h != 0 { assert IsNext(dag, 0, h) && h in NextOf(dag, {0}, 0); }
    }
    SubsetSize(UpTo(303), Layer(dag, {0}, {0}, 1));
  }
}
