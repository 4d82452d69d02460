/**
  The log of a run: a block for every arrival, and for every history of the node the places of
  the blocks that make it up.
 */
module RunLog {
  import opened Ledger
  import opened Execution
  import opened MergeTotals
  import opened Finality
  import opened NodeRun

  /** ---------- a log of blocks ---------- */

  /** `S` and what the blocks of the log at `indices` executed. */
  function Made(S: set<Hash>, log: seq<Turn>, indices: set<nat>): set<Hash> {
    if log == [] then S
    else
      var n := |log| - 1;
      Made(S, log[..n], indices) + if n in indices then Executed(log[n].txs) else {}
  }

  function Chosen(log: seq<Turn>, indices: set<nat>): seq<Turn> {
    if log == [] then []
    else
      var n := |log| - 1;
      Chosen(log[..n], indices) + if n in indices then [log[n]] else []
  }

  lemma {:induction false} MadeByChosen(S: set<Hash>, log: seq<Turn>, indices: set<nat>)
    ensures Made(S, log, indices) == After(S, Chosen(log, indices))
  {
    if log != [] {
      var n := |log| - 1;
      MadeByChosen(S, log[..n], indices);
      var init := Chosen(log[..n], indices);
      if n in indices {
        assert (init + [log[n]])[..|init|] == init;
      } else {
        assert init + [] == init;
      }
    }
  }

  lemma {:induction false} MadeByBoth(S: set<Hash>, log: seq<Turn>, a: set<nat>, b: set<nat>)
    ensures Made(S, log, a + b) == Made(S, log, a) + Made(S, log, b)
  {
    if log != [] { MadeByBoth(S, log[..|log| - 1], a, b); }
  }

  lemma {:induction false} MadeByMore(S: set<Hash>, log: seq<Turn>, a: set<nat>, b: set<nat>)
    requires a <= b
    ensures Made(S, log, a) <= Made(S, log, b)
  {
    MadeByBoth(S, log, a, b);
    assert a + b == b;
  }

  lemma {:induction false} MadeBySame(S: set<Hash>, log: seq<Turn>, a: set<nat>, b: set<nat>)
    requires forall i: nat :: i < |log| ==> (i in a <==> i in b)
    ensures Made(S, log, a) == Made(S, log, b)
  {
    if log != [] { MadeBySame(S, log[..|log| - 1], a, b); }
  }

  predicate Within(log: seq<Turn>, indices: set<nat>) {
    forall i :: i in indices ==> i < |log|
  }

  lemma {:induction false} MadeNext(S: set<Hash>, log: seq<Turn>, turn: Turn, indices: set<nat>)
    requires Within(log, indices)
    ensures Made(S, log + [turn], indices) == Made(S, log, indices)
    ensures Made(S, log + [turn], indices + {|log|}) == Made(S, log, indices) + Executed(turn.txs)
  {
    assert (log + [turn])[..|log|] == log;
    MadeBySame(S, log, indices, indices + {|log|});
  }

  /** Each accepted block was accepted on a part of what was accepted before it. */
  ghost predicate LogOk(T: TxTable, S: set<Hash>, log: seq<Turn>, accepted: set<nat>) {
    forall i: nat :: i < |log| && i in accepted ==> TurnOk(T, log[i], Made(S, log[..i], accepted))
  }

  /** With every block, `indices` has all those it was executed on. */
  ghost predicate Whole(S: set<Hash>, log: seq<Turn>, indices: set<nat>) {
    forall i: nat :: i < |log| && i in indices ==> log[i].below <= Made(S, log[..i], indices)
  }

  lemma WholeBoth(S: set<Hash>, log: seq<Turn>, a: set<nat>, b: set<nat>)
    requires Whole(S, log, a) && Whole(S, log, b)
    ensures Whole(S, log, a + b)
  {
    forall i: nat | i < |log| && i in a + b
      ensures log[i].below <= Made(S, log[..i], a + b)
    {
      MadeByBoth(S, log[..i], a, b);
    }
  }

  lemma {:induction false} WholeNext(S: set<Hash>, log: seq<Turn>, turn: Turn, indices: set<nat>)
    requires Within(log, indices) && Whole(S, log, indices)
    ensures Whole(S, log + [turn], indices)
    ensures turn.below <= Made(S, log, indices) ==> Whole(S, log + [turn], indices + {|log|})
  {
    var longer := log + [turn];
    forall i: nat | i < |log|
      ensures longer[i] == log[i] && longer[..i] == log[..i]
      ensures Made(S, log[..i], indices) == Made(S, log[..i], indices + {|log|})
    {
      MadeBySame(S, log[..i], indices, indices + {|log|});
    }
    assert longer[..|log|] == log;
    MadeBySame(S, log, indices, indices + {|log|});
  }

  lemma {:induction false} LogNext(T: TxTable, S: set<Hash>, log: seq<Turn>, accepted: set<nat>, turn: Turn)
    requires Within(log, accepted) && LogOk(T, S, log, accepted)
    ensures LogOk(T, S, log + [turn], accepted)
    ensures TurnOk(T, turn, Made(S, log, accepted)) ==> LogOk(T, S, log + [turn], accepted + {|log|})
  {
    var longer := log + [turn];
    forall i: nat | i < |log|
      ensures longer[i] == log[i] && longer[..i] == log[..i]
      ensures Made(S, log[..i], accepted) == Made(S, log[..i], accepted + {|log|})
    {
      MadeBySame(S, log[..i], accepted, accepted + {|log|});
    }
    assert longer[..|log|] == log;
    MadeBySame(S, log, accepted, accepted + {|log|});
  }

  lemma TurnOkBelow(T: TxTable, turn: Turn, E: set<Hash>, F: set<Hash>)
    requires TurnOk(T, turn, F) && turn.below <= E <= F
    ensures TurnOk(T, turn, E)
  {
  }

  lemma LogBefore(T: TxTable, S: set<Hash>, log: seq<Turn>, n: nat, accepted: set<nat>, indices: set<nat>)
    requires LogOk(T, S, log, accepted) && Whole(S, log, indices) && n <= |log|
    ensures LogOk(T, S, log[..n], accepted) && Whole(S, log[..n], indices)
  {
    forall i: nat | i < n
      ensures log[..n][i] == log[i] && log[..n][..i] == log[..i]
    {
    }
  }

  lemma {:induction false} AcceptedAlone(T: TxTable, S: set<Hash>, log: seq<Turn>, n: nat, accepted: set<nat>,
                                         indices: set<nat>)
    requires LogOk(T, S, log, accepted) && Whole(S, log, indices) && indices <= accepted && n < |log| && n in indices
    ensures TurnOk(T, log[n], Made(S, log[..n], indices))
  {
    MadeByMore(S, log[..n], indices, accepted);
    TurnOkBelow(T, log[n], Made(S, log[..n], indices), Made(S, log[..n], accepted));
  }

  lemma {:induction false} ChosenOk(T: TxTable, S: set<Hash>, log: seq<Turn>, accepted: set<nat>, indices: set<nat>)
    requires LogOk(T, S, log, accepted) && Whole(S, log, indices) && indices <= accepted
    ensures TurnsOk(T, S, Chosen(log, indices))
  {
    if log != [] {
      var n := |log| - 1;
      var init, before := log[..n], Chosen(log[..n], indices);
      LogBefore(T, S, log, n, accepted, indices);
      ChosenOk(T, S, init, accepted, indices);
      if n in indices {
        MadeByChosen(S, init, indices);
        AcceptedAlone(T, S, log, n, accepted, indices);
        assert (before + [log[n]])[..|before|] == before;
        TurnsSnoc(T, S, before + [log[n]]);
      } else {
        assert before + [] == before;
      }
    }
  }

  /** ---------- the histories of a node ---------- */

  /** Which blocks, by their place in the log, are final, and which are below each pending one. */
  datatype Trace = Trace(log: seq<Turn>, accepted: set<nat>, final: set<nat>, pending: map<Hash, set<nat>>)

  /** The history `D` is that of the blocks at `indices`, all accepted. */
  ghost predicate Explains(S: set<Hash>, log: seq<Turn>, accepted: set<nat>, indices: set<nat>, D: set<Hash>) {
    indices <= accepted && Whole(S, log, indices) && D == Made(S, log, indices)
  }

  ghost predicate TraceOk(T: TxTable, S: set<Hash>, g: Story, tr: Trace) {
    && Within(tr.log, tr.accepted) && LogOk(T, S, tr.log, tr.accepted)
    && Explains(S, tr.log, tr.accepted, tr.final, g.final)
    && tr.pending.Keys == g.pending.Keys
    && forall v :: v in tr.pending ==> Explains(S, tr.log, tr.accepted, tr.pending[v], g.pending[v])
  }

  function IndicesOf(final: set<nat>, pending: map<Hash, set<nat>>, vs: seq<Hash>): set<nat> {
    final + set v, i | v in vs && v in pending && i in pending[v] :: i
  }

  lemma ExplainsBoth(S: set<Hash>, tr: Trace, a: set<nat>, b: set<nat>, D: set<Hash>, E: set<Hash>)
    requires Explains(S, tr.log, tr.accepted, a, D) && Explains(S, tr.log, tr.accepted, b, E)
    ensures Explains(S, tr.log, tr.accepted, a + b, D + E)
  {
    WholeBoth(S, tr.log, a, b);
    MadeByBoth(S, tr.log, a, b);
  }

  lemma {:induction false} ExplainsMany(S: set<Hash>, tr: Trace, final: set<nat>, pending: map<Hash, set<nat>>,
                                        F: set<Hash>, D: map<Hash, set<Hash>>, vs: seq<Hash>)
    requires Explains(S, tr.log, tr.accepted, final, F) && pending.Keys == D.Keys && forall v :: v in vs ==> v in D
    requires forall v :: v in D ==> Explains(S, tr.log, tr.accepted, pending[v], D[v])
    ensures Explains(S, tr.log, tr.accepted, IndicesOf(final, pending, vs), HistoryOf(F, D, vs))
  {
    if vs == [] {
      assert IndicesOf(final, pending, vs) == final && HistoryOf(F, D, vs) == F;
    } else {
      var init, last := vs[..|vs| - 1], vs[|vs| - 1];
      assert vs == init + [last];
      ExplainsMany(S, tr, final, pending, F, D, init);
      HistoryOfSnoc(F, D, init, last);
      assert IndicesOf(final, pending, vs) == IndicesOf(final, pending, init) + pending[last];
      ExplainsBoth(S, tr, IndicesOf(final, pending, init), pending[last], HistoryOf(F, D, init), D[last]);
    }
  }

  /** One more block in the log, accepted or not. */
  lemma ExplainsNext(S: set<Hash>, log: seq<Turn>, accepted: set<nat>, turn: Turn, longer: set<nat>,
                     indices: set<nat>, D: set<Hash>)
    requires Within(log, accepted) && accepted <= longer && Explains(S, log, accepted, indices, D)
    ensures Explains(S, log + [turn], longer, indices, D)
    ensures turn.below <= D && |log| in longer ==>
      Explains(S, log + [turn], longer, indices + {|log|}, D + Executed(turn.txs))
  {
    WholeNext(S, log, turn, indices);
    MadeNext(S, log, turn, indices);
  }

  function Logged(tr: Trace, turn: Turn): Trace {
    tr.(log := tr.log + [turn])
  }

  /** A block that is not executed. */
  lemma Ignored(T: TxTable, S: set<Hash>, g: Story, tr: Trace, turn: Turn)
    requires TraceOk(T, S, g, tr)
    ensures TraceOk(T, S, g, Logged(tr, turn))
  {
    LogNext(T, S, tr.log, tr.accepted, turn);
    MadeNext(S, tr.log, turn, tr.accepted);
    ExplainsNext(S, tr.log, tr.accepted, turn, tr.accepted, tr.final, g.final);
    forall v | v in tr.pending { ExplainsNext(S, tr.log, tr.accepted, turn, tr.accepted, tr.pending[v], g.pending[v]); }
  }

  /** The trace once a block with the indices `below` of its parents was executed. */
  function Joining(tr: Trace, turn: Turn, h: Hash, below: set<nat>): Trace {
    var n := |tr.log|;
    Trace(tr.log + [turn], tr.accepted + {n}, tr.final, tr.pending[h := below + {n}])
  }

  lemma {:induction false} Joins(T: TxTable, S: set<Hash>, g: Story, tr: Trace, turn: Turn,
                                 h: Hash, below: set<nat>)
    requires TraceOk(T, S, g, tr) && Explains(S, tr.log, tr.accepted, below, turn.below)
    requires TurnOk(T, turn, Made(S, tr.log, tr.accepted)) && h !in g.pending
    ensures TraceOk(T, S, Story(g.final, g.pending[h := turn.below + Executed(turn.txs)]), Joining(tr, turn, h, below))
  {
    var accepted := tr.accepted + {|tr.log|};
    LogNext(T, S, tr.log, tr.accepted, turn);
    MadeNext(S, tr.log, turn, tr.accepted);
    ExplainsNext(S, tr.log, tr.accepted, turn, accepted, tr.final, g.final);
    ExplainsNext(S, tr.log, tr.accepted, turn, accepted, below, turn.below);
    forall v | v in tr.pending { ExplainsNext(S, tr.log, tr.accepted, turn, accepted, tr.pending[v], g.pending[v]); }
  }

  /** The trace once the blocks `vs` and all below them are final. */
  function Settling(tr: Trace, vs: seq<Hash>, left: set<Hash>): Trace {
    var final := IndicesOf(tr.final, tr.pending, vs);
    tr.(final := final, pending := map v | v in left && v in tr.pending :: tr.pending[v] + final)
  }

  lemma SettlesTrace(T: TxTable, S: set<Hash>, g: Story, tr: Trace, vs: seq<Hash>, g': Story)
    requires TraceOk(T, S, g, tr) && Settles(g.final, g.pending, vs, g')
    ensures TraceOk(T, S, g', Settling(tr, vs, g'.pending.Keys))
  {
    var tr' := Settling(tr, vs, g'.pending.Keys);
    ExplainsMany(S, tr, tr.final, tr.pending, g.final, g.pending, vs);
    assert Explains(S, tr'.log, tr'.accepted, tr'.final, g'.final);
    forall v | v in tr'.pending
      ensures Explains(S, tr'.log, tr'.accepted, tr'.pending[v], g'.pending[v])
    {
      ExplainsBoth(S, tr, tr.pending[v], tr'.final, g.pending[v], g'.final);
    }
  }
}
