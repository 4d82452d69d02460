/**
  The graph of pending blocks: edges go from a block to those of its parents that are still
  pending, and heights fall along them. Downward paths, what a block reaches, tips, removal,
  and the blocks at which a path first has seen enough conciliums.
 */
module PendingDag {
  import opened Ledger

  datatype Header = Header(parents: set<Hash>, conciliumId: nat, height: nat)
  type Dag = map<Hash, Header>

  ghost predicate ValidDag(dag: Dag) {
    forall v, p :: v in dag && p in dag[v].parents ==> p in dag && dag[p].height < dag[v].height
  }

  /** ---------- reachability ---------- */

  function Down(dag: Dag, v: Hash): set<Hash>
    requires ValidDag(dag) && v in dag
    decreases dag[v].height
  {
    {v} + set p, w | p in dag[v].parents && w in Down(dag, p) :: w
  }

  function DownAll(dag: Dag, vs: set<Hash>): set<Hash>
    requires ValidDag(dag) && vs <= dag.Keys
  {
    set v, w | v in vs && w in Down(dag, v) :: w
  }

  lemma {:induction false} DownInDag(dag: Dag, v: Hash)
    requires ValidDag(dag) && v in dag
    ensures Down(dag, v) <= dag.Keys
    decreases dag[v].height
  {
    forall p | p in dag[v].parents { DownInDag(dag, p); }
  }

  lemma {:induction false} DownTransitive(dag: Dag, u: Hash, v: Hash, w: Hash)
    requires ValidDag(dag) && u in dag && v in dag
    requires v in Down(dag, u) && w in Down(dag, v)
    ensures w in Down(dag, u)
    decreases dag[u].height
  {
    if u != v {
      var p :| p in dag[u].parents && v in Down(dag, p);
      DownTransitive(dag, p, v, w);
    }
  }

  /** A set of blocks that contains the pending parents of its blocks. */
  ghost predicate DownClosed(dag: Dag, X: set<Hash>) {
    forall v :: v in X && v in dag ==> dag[v].parents <= X
  }

  lemma DownAllClosed(dag: Dag, vs: set<Hash>)
    requires ValidDag(dag) && vs <= dag.Keys
    ensures vs <= DownAll(dag, vs) <= dag.Keys && DownClosed(dag, DownAll(dag, vs))
  {
    forall v | v in vs { DownInDag(dag, v); }
    forall x, p | x in DownAll(dag, vs) && p in dag[x].parents
      ensures p in DownAll(dag, vs)
    {
      var v :| v in vs && x in Down(dag, v);
      assert p in Down(dag, p);
      assert p in Down(dag, x);
      DownTransitive(dag, v, x, p);
    }
  }

  /** ---------- tips and removal ---------- */

  predicate IsTip(dag: Dag, v: Hash) {
    v in dag && forall w :: w in dag ==> v !in dag[w].parents
  }

  function Tips(dag: Dag): set<Hash> {
    set v | v in dag && IsTip(dag, v)
  }

  function Remove(dag: Dag, X: set<Hash>): Dag {
    map v | v in dag && v !in X :: dag[v].(parents := dag[v].parents - X)
  }

  lemma RemoveValid(dag: Dag, X: set<Hash>)
    requires ValidDag(dag)
    ensures ValidDag(Remove(dag, X)) && Remove(dag, X).Keys == dag.Keys - X
  {
  }

  function Above(dag: Dag, v: Hash): set<Hash>
    requires v in dag
  {
    set w | w in dag && dag[w].height > dag[v].height
  }

  /** Every block is below, or is, some tip. */
  lemma {:induction false} TipAbove(dag: Dag, v: Hash) returns (tip: Hash)
    requires ValidDag(dag) && v in dag
    ensures IsTip(dag, tip) && v in Down(dag, tip)
    decreases |Above(dag, v)|
  {
    if IsTip(dag, v) {
      tip := v;
    } else {
      var w :| w in dag && v in dag[w].parents;
      assert Above(dag, w) < Above(dag, v) by { assert w in Above(dag, v) && w !in Above(dag, w); }
      SmallerSet(Above(dag, w), Above(dag, v));
      tip := TipAbove(dag, w);
      assert v in Down(dag, v);
      assert v in Down(dag, w);
      DownTransitive(dag, tip, w, v);
    }
  }

  lemma SmallerSet<X>(a: set<X>, b: set<X>)
    requires a < b
    ensures |a| < |b|
  {
    assert |b - a| > 0;
    assert |a| + |b - a| == |b| by { assert a + (b - a) == b; }
  }

  /** ---------- downward paths ---------- */

  ghost predicate IsPath(dag: Dag, v: Hash, path: seq<Hash>) {
    && path != [] && path[0] == v
    && (forall k :: 0 <= k < |path| ==> path[k] in dag)
    && (forall k :: 0 <= k < |path| - 1 ==> path[k + 1] in dag[path[k]].parents)
  }

  /** All paths from `v` down to blocks without pending parents. */
  function PathsDown(dag: Dag, v: Hash): set<seq<Hash>>
    requires ValidDag(dag) && v in dag
    decreases dag[v].height
  {
    if dag[v].parents == {} then {[v]}
    else set p, rest | p in dag[v].parents && rest in PathsDown(dag, p) :: [v] + rest
  }

  lemma {:induction false} PathsDownArePaths(dag: Dag, v: Hash, path: seq<Hash>)
    requires ValidDag(dag) && v in dag && path in PathsDown(dag, v)
    ensures IsPath(dag, v, path)
    decreases dag[v].height
  {
    if dag[v].parents != {} {
      var p, rest :| p in dag[v].parents && rest in PathsDown(dag, p) && path == [v] + rest;
      PathsDownArePaths(dag, p, rest);
    }
  }

  /** Every downward path can be continued to a full one. */
  lemma {:induction false} PathExtends(dag: Dag, v: Hash, path: seq<Hash>) returns (full: seq<Hash>)
    requires ValidDag(dag) && IsPath(dag, v, path)
    ensures full in PathsDown(dag, v) && path <= full
    decreases dag[v].height
  {
    if |path| > 1 {
      assert path[0 + 1] in dag[path[0]].parents;
      var tail := path[1..];
      assert forall k :: 0 <= k < |tail| ==> tail[k] == path[k + 1];
      var rest := PathExtends(dag, path[1], tail);
      full := [v] + rest;
      assert path == [v] + tail;
    } else if dag[v].parents == {} {
      full := path;
      assert path == [v];
    } else {
      var p :| p in dag[v].parents;
      var rest := PathExtends(dag, p, [p]);
      full := [v] + rest;
    }
  }

  lemma {:induction false} PathIsDown(dag: Dag, v: Hash, path: seq<Hash>, k: nat)
    requires ValidDag(dag) && IsPath(dag, v, path) && k < |path|
    ensures path[k] in Down(dag, v)
    decreases k
  {
    if k > 0 {
      var tail := path[1..];
      assert forall j :: 0 <= j < |tail| ==> tail[j] == path[j + 1];
      PathIsDown(dag, path[1], tail, k - 1);
      assert tail[k - 1] == path[k];
    }
  }

  lemma {:induction false} DownIsPath(dag: Dag, v: Hash, w: Hash) returns (path: seq<Hash>)
    requires ValidDag(dag) && v in dag && w in Down(dag, v)
    ensures IsPath(dag, v, path) && path[|path| - 1] == w
    decreases dag[v].height
  {
    if w == v {
      path := [v];
    } else {
      var p :| p in dag[v].parents && w in Down(dag, p);
      var rest := DownIsPath(dag, p, w);
      path := [v] + rest;
    }
  }

  /** The blocks on the full paths from `v` are those it reaches. */
  lemma {:induction false} PathVertices(dag: Dag, v: Hash)
    requires ValidDag(dag) && v in dag
    ensures (set path, w | path in PathsDown(dag, v) && w in path :: w) == Down(dag, v)
  {
    forall path, w | path in PathsDown(dag, v) && w in path
      ensures w in Down(dag, v)
    {
      PathsDownArePaths(dag, v, path);
      var k :| 0 <= k < |path| && path[k] == w;
      PathIsDown(dag, v, path, k);
    }
    forall w | w in Down(dag, v)
      ensures w in set path, w | path in PathsDown(dag, v) && w in path :: w
    {
      var path := DownIsPath(dag, v, w);
      var full := PathExtends(dag, v, path);
      assert full[|path| - 1] == w;
      assert full in PathsDown(dag, v) && w in full;
    }
  }

  /** ---------- finality ---------- */

  /** More than half of `n` conciliums. */
  function Majority(n: nat): nat {
    n / 2 + 1
  }

  function Seen(dag: Dag, path: seq<Hash>): set<nat>
    requires forall v :: v in path ==> v in dag
  {
    set v | v in path :: dag[v].conciliumId
  }

  /** Walking down `path`, its last block is the first by which `majority` conciliums were seen. */
  ghost predicate FirstSeen(dag: Dag, path: seq<Hash>, majority: nat)
    requires path != [] && forall v :: v in path ==> v in dag
  {
    |Seen(dag, path)| >= majority && |Seen(dag, path[..|path| - 1])| < majority
  }

  ghost predicate WitnessedBy(dag: Dag, v: Hash, majority: nat, path: seq<Hash>, w: Hash) {
    IsPath(dag, v, path) && path[|path| - 1] == w && FirstSeen(dag, path, majority)
  }

  /** Some downward path from `v` first has seen `majority` conciliums at `w`. */
  ghost predicate IsTopStable(dag: Dag, v: Hash, majority: nat, w: Hash) {
    exists path :: WitnessedBy(dag, v, majority, path, w)
  }

  /** `tops` lists, in some order and possibly more than once, the blocks `n` makes top stable. */
  ghost predicate TopsOf(dag: Dag, n: Hash, conciliums: nat, tops: seq<Hash>) {
    forall w :: w in tops <==> IsTopStable(dag, n, Majority(conciliums), w)
  }

  lemma SeenGrows(dag: Dag, path: seq<Hash>, j: nat, k: nat)
    requires j <= k <= |path| && forall v :: v in path ==> v in dag
    ensures Seen(dag, path[..j]) <= Seen(dag, path[..k])
    ensures |Seen(dag, path[..j])| <= |Seen(dag, path[..k])|
  {
    var a, b := Seen(dag, path[..j]), Seen(dag, path[..k]);
    assert forall i :: 0 <= i < j ==> path[..j][i] == path[..k][i];
    assert a <= b;
    if a != b { SmallerSet(a, b); }
  }
}
