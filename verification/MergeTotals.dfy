/**
  What merging does to the total of all unspent outputs: what is gained are exactly the fees of
  the transfers that both sides executed, which have paid them twice, and nothing is lost but what
  one coinbase, if both sides have it, was counted to pay out twice.
 */
module MergeTotals {
  import opened Wrappers
  import opened Ledger
  import opened Patches
  import opened Refinement
  import opened Execution
  import opened Conservation

  function AmountAt(coins: Coins, o: OutPoint): nat {
    if o in coins then coins[o].amount else 0
  }

  lemma {:induction false} Without(coins: Coins, o: OutPoint)
    ensures Total(coins) == AmountAt(coins, o) + Total(coins - {o})
  {
    if o in coins { TotalRemove(coins, o); } else { assert coins - {o} == coins; }
  }

  lemma AmountWithout(coins: Coins, o: OutPoint, x: OutPoint)
    ensures AmountAt(coins - {o}, x) == if x == o then 0 else AmountAt(coins, x)
  {
  }

  ghost predicate SameAmounts(a: Coins, b: Coins, c: Coins, d: Coins) {
    forall o :: AmountAt(a, o) + AmountAt(b, o) == AmountAt(c, o) + AmountAt(d, o)
  }

  lemma SameWithout(a: Coins, b: Coins, c: Coins, d: Coins, o: OutPoint)
    requires SameAmounts(a, b, c, d)
    ensures SameAmounts(a - {o}, b - {o}, c - {o}, d - {o})
  {
    forall x
      ensures AmountAt(a - {o}, x) + AmountAt(b - {o}, x) == AmountAt(c - {o}, x) + AmountAt(d - {o}, x)
    {
      AmountWithout(a, o, x);
      AmountWithout(b, o, x);
      AmountWithout(c, o, x);
      AmountWithout(d, o, x);
    }
  }

  lemma {:induction false} SameTotals(keys: set<OutPoint>, a: Coins, b: Coins, c: Coins, d: Coins)
    requires SameAmounts(a, b, c, d)
    requires a.Keys <= keys && b.Keys <= keys && c.Keys <= keys && d.Keys <= keys
    ensures Total(a) + Total(b) == Total(c) + Total(d)
    decreases keys
  {
    if keys == {} {
      assert a == b == c == d == map[];
    } else {
      var o :| o in keys;
      Without(a, o);
      Without(b, o);
      Without(c, o);
      Without(d, o);
      SameWithout(a, b, c, d, o);
      SameTotals(keys - {o}, a - {o}, b - {o}, c - {o}, d - {o});
      assert AmountAt(a, o) + AmountAt(b, o) == AmountAt(c, o) + AmountAt(d, o);
    }
  }

  /** What two histories have in common is a history; an output is gone from it only if it is gone from both. */
  lemma LiveInBoth(T: TxTable, D: set<Hash>, E: set<Hash>, h: Hash, i: nat)
    requires History(T, D) && History(T, E) && NoDoubleSpend(T, D + E)
    ensures History(T, D * E)
    ensures Live(T, D * E, h, i) <==> h in D && h in E && (Live(T, D, h, i) || Live(T, E, h, i))
  {
    if Consumed(T, D, h, i) && Consumed(T, E, h, i) {
      var t :| t in D && Consumes(T, t, h, i);
      var u :| u in E && Consumes(T, u, h, i);
      assert t == u;
      assert Consumed(T, D * E, h, i);
    }
  }

  /** Totals of united histories: what they have in common is counted twice. */
  lemma TotalsOfUnion(T: TxTable, D: set<Hash>, E: set<Hash>)
    requires History(T, D) && History(T, E) && NoDoubleSpend(T, D + E)
    ensures History(T, D + E) && History(T, D * E)
    ensures Total(Denote(T, D + E)) + Total(Denote(T, D * E)) == Total(Denote(T, D)) + Total(Denote(T, E))
  {
    UnionHistory(T, D, E);
    LiveInBoth(T, D, E, 0, 0);
    forall o
      ensures AmountAt(Denote(T, D + E), o) + AmountAt(Denote(T, D * E), o) ==
        AmountAt(Denote(T, D), o) + AmountAt(Denote(T, E), o)
    {
      assert o == OutPoint(o.txHash, o.idx);
      LiveInUnion(T, D, E, o.txHash, o.idx);
      LiveInBoth(T, D, E, o.txHash, o.idx);
      DenoteAt(T, D, o.txHash, o.idx);
      DenoteAt(T, E, o.txHash, o.idx);
      DenoteAt(T, D + E, o.txHash, o.idx);
      DenoteAt(T, D * E, o.txHash, o.idx);
    }
    var all, both, one, other := Denote(T, D + E), Denote(T, D * E), Denote(T, D), Denote(T, E);
    SameTotals(all.Keys + both.Keys + one.Keys + other.Keys, all, both, one, other);
  }

  /** A transfer accepted on `D` and part of `E` is accepted on what they have in common. */
  lemma AcceptedOnBoth(T: TxTable, D: set<Hash>, E: set<Hash>, t: Hash, sizeFee: nat)
    requires History(T, D) && History(T, E) && NoDoubleSpend(T, D + E)
    requires t in E && Accepts(Denote(T, D), T[t], sizeFee)
    ensures History(T, D * E) && Accepts(Denote(T, D * E), T[t], sizeFee)
  {
    LiveInBoth(T, D, E, 0, 0);
    var tx, both := T[t], Denote(T, D * E);
    NoReplay(T, D, t, sizeFee);
    forall k | 0 <= k < |tx.inputs|
      ensures tx.inputs[k] in both && both[tx.inputs[k]] == Denote(T, D)[tx.inputs[k]]
    {
      var o := tx.inputs[k];
      assert o == OutPoint(o.txHash, o.idx);
      assert Consumes(T, t, o.txHash, o.idx);
      DenoteAt(T, D, o.txHash, o.idx);
      DenoteAt(T, D * E, o.txHash, o.idx);
      LiveInBoth(T, D, E, o.txHash, o.idx);
    }
    SameAmountIn(Denote(T, D), both, tx.inputs);
  }

  lemma {:induction false} SameAmountIn(a: Coins, b: Coins, inputs: seq<OutPoint>)
    requires forall o :: o in inputs ==> o in a && o in b && a[o] == b[o]
    ensures AmountIn(a, inputs) == AmountIn(b, inputs)
  {
    if inputs != [] {
      var init := inputs[..|inputs| - 1];
      assert forall o :: o in init ==> o in inputs;
      SameAmountIn(a, b, init);
    }
  }

  /** ---------- fees ---------- */

  function InputTotal(T: TxTable, inputs: seq<OutPoint>): nat {
    if inputs == [] then 0
    else
      var o := inputs[|inputs| - 1];
      InputTotal(T, inputs[..|inputs| - 1]) +
        if o.txHash in T && o.idx in Outputs(T, o.txHash) then Outputs(T, o.txHash)[o.idx].amount else 0
  }

  /** What a transfer pays, whatever ledger it is executed on. */
  function FeeOf(T: TxTable, t: Hash): int
    requires t in T
  {
    InputTotal(T, T[t].inputs) - AmountOut(T[t].outputs)
  }

  lemma {:induction false} InputsOnLedger(T: TxTable, D: set<Hash>, inputs: seq<OutPoint>)
    requires D <= T.Keys && forall o :: o in inputs ==> o in Denote(T, D)
    ensures AmountIn(Denote(T, D), inputs) == InputTotal(T, inputs)
  {
    if inputs != [] {
      var init, last := inputs[..|inputs| - 1], inputs[|inputs| - 1];
      assert forall o :: o in init ==> o in inputs;
      InputsOnLedger(T, D, init);
      assert last in inputs && last == OutPoint(last.txHash, last.idx);
      DenoteAt(T, D, last.txHash, last.idx);
    }
  }

  lemma FeeOnLedger(T: TxTable, D: set<Hash>, t: Hash, sizeFee: nat)
    requires D <= T.Keys && t in T && Accepts(Denote(T, D), T[t], sizeFee)
    ensures Fee(Denote(T, D), T[t]) == FeeOf(T, t) > sizeFee
  {
    InputsOnLedger(T, D, T[t].inputs);
  }

  /** The fees of those of the transfers `txs` that `E` contains. */
  function SharedFees(T: TxTable, txs: seq<Hash>, E: set<Hash>): int {
    if txs == [] then 0
    else
      var t := txs[|txs| - 1];
      SharedFees(T, txs[..|txs| - 1], E) + if t in E && t in T then FeeOf(T, t) else 0
  }

  /** ---------- one block ---------- */

  /** One more shared transfer loses its fee. */
  lemma SharedLoses(T: TxTable, D: set<Hash>, E: set<Hash>, t: Hash, sizeFee: nat)
    requires History(T, D) && History(T, E) && NoDoubleSpend(T, D + E)
    requires t in E && Accepts(Denote(T, D), T[t], sizeFee)
    ensures D * E + {t} <= T.Keys && FeeOf(T, t) > 0
    ensures Total(Denote(T, D * E + {t})) + FeeOf(T, t) == Total(Denote(T, D * E))
  {
    AcceptedOnBoth(T, D, E, t, sizeFee);
    TransferConserves(T, D * E, t, sizeFee);
    ApplyExtends(T, D * E, t, sizeFee);
    FeeOnLedger(T, D * E, t, sizeFee);
  }

  lemma LastAccepted(T: TxTable, H: set<Hash>, txs: seq<Hash>, cid: nat, sizeFee: Hash -> nat)
    requires History(T, H) && txs != [] && ApplyTxs(T, Denote(T, H), txs, cid, sizeFee).Some?
    ensures var init, t := txs[..|txs| - 1], txs[|txs| - 1];
      && ApplyTxs(T, Denote(T, H), init, cid, sizeFee).Some?
      && History(T, H + Executed(init)) && t in T
      && Accepts(Denote(T, H + Executed(init)), T[t], sizeFee(t))
  {
    TransfersOnly(T, H, txs[..|txs| - 1], cid, sizeFee);
  }

  lemma ExecutedSnoc(H: set<Hash>, init: seq<Hash>, t: Hash, E: set<Hash>)
    requires H <= E
    ensures Executed(init + [t]) == Executed(init) + {t}
    ensures (H + Executed(init)) * E == H + Executed(init) * E
    ensures t in E ==> H + Executed(init + [t]) * E == (H + Executed(init)) * E + {t}
    ensures t !in E ==> Executed(init + [t]) * E == Executed(init) * E
    ensures Executed(init + [t]) !! E <==> Executed(init) !! E && t !in E
  {
    assert Executed(init + [t]) == Executed(init) + {t};
  }

  /** The last transfer of a block: new to what was there before, and if it is shared its fee is lost. */
  lemma {:induction false} LastShared(T: TxTable, H: set<Hash>, init: seq<Hash>, t: Hash, cid: nat,
                                      sizeFee: Hash -> nat, E: set<Hash>)
    requires History(T, H) && History(T, E) && H <= E && NoDoubleSpend(T, H + Executed(init + [t]) + E)
    requires ApplyTxs(T, Denote(T, H), init + [t], cid, sizeFee).Some?
    ensures ApplyTxs(T, Denote(T, H), init, cid, sizeFee).Some?
    ensures NoDoubleSpend(T, H + Executed(init) + E) && t in T && t !in H + Executed(init)
    ensures t in E ==>
      && H + Executed(init + [t]) * E <= T.Keys && H + Executed(init) * E <= T.Keys && FeeOf(T, t) > 0
      && Total(Denote(T, H + Executed(init + [t]) * E)) + FeeOf(T, t) == Total(Denote(T, H + Executed(init) * E))
  {
    var txs := init + [t];
    assert txs[..|txs| - 1] == init;
    ExecutedSnoc(H, init, t, E);
    LastAccepted(T, H, txs, cid, sizeFee);
    NoReplay(T, H + Executed(init), t, sizeFee(t));
    NoDoubleSpendBelow(T, H + Executed(init) + E, H + Executed(txs) + E);
    if t in E { SharedLoses(T, H + Executed(init), E, t, sizeFee(t)); }
  }

  /** What a block shares with another history has lost the fees of the transfers they share. */
  lemma {:induction false} SharedTotal(T: TxTable, H: set<Hash>, txs: seq<Hash>, cid: nat, sizeFee: Hash -> nat,
                                       E: set<Hash>)
    requires History(T, H) && History(T, E) && H <= E && NoDoubleSpend(T, H + Executed(txs) + E)
    requires ApplyTxs(T, Denote(T, H), txs, cid, sizeFee).Some?
    ensures H + Executed(txs) * E <= T.Keys
    ensures Total(Denote(T, H + Executed(txs) * E)) + SharedFees(T, txs, E) == Total(Denote(T, H))
    ensures SharedFees(T, txs, E) >= 0 && (SharedFees(T, txs, E) == 0 <==> Executed(txs) !! E)
  {
    if txs == [] {
      assert H + Executed(txs) * E == H;
    } else {
      var init, t := txs[..|txs| - 1], txs[|txs| - 1];
      assert txs == init + [t];
      ExecutedSnoc(H, init, t, E);
      LastShared(T, H, init, t, cid, sizeFee, E);
      SharedTotal(T, H, init, cid, sizeFee, E);
    }
  }

  /** An accepted block's own history has the total of the one it was executed on. */
  lemma BlockHistory(T: TxTable, H: set<Hash>, txs: seq<Hash>, cid: nat, sizeFee: Hash -> nat)
    requires History(T, H) && txs != [] && txs[0] in T && FreshOutputs(T, H, txs[0])
    requires ApplyBlock(T, Denote(T, H), txs, cid, sizeFee).Some?
    ensures History(T, H + Executed(txs)) && Total(Denote(T, H + Executed(txs))) == Total(Denote(T, H))
  {
    var c, rest := txs[0], txs[1..];
    TransfersOnly(T, H, rest, cid, sizeFee);
    BlockConserves(T, H, txs, cid, sizeFee);
    assert txs == [c] + rest;
    assert H + Executed(txs) == H + Executed(rest) + {c};
    CoinbaseExtends(T, H + Executed(rest), c);
  }

  /** A coinbase that is new to a history, or stores nothing, adds what it pays out unless it is there already. */
  lemma WithCoinbase(T: TxTable, D: set<Hash>, c: Hash)
    requires History(T, D) && c in T && IsCoinbase(T[c]) && FreshOutputs(T, D, c)
    ensures History(T, D + {c})
    ensures Total(Denote(T, D + {c})) == Total(Denote(T, D)) + AmountOut(T[c].outputs)
  {
    CoinbaseExtends(T, D, c);
    if c in D {
      NothingCreated(c, T[c].outputs);
      assert Denote(T, D) + map[] == Denote(T, D);
    } else {
      NoneOf(T, D, c);
      TotalCreate(Denote(T, D), c, T[c].outputs);
    }
  }

  /** What both sides have: what they share of the transfers, and the coinbase if they share it. */
  lemma SharedWithBlock(T: TxTable, H: set<Hash>, txs: seq<Hash>, cid: nat, sizeFee: Hash -> nat, E: set<Hash>)
    requires History(T, H) && txs != [] && txs[0] in T && FreshOutputs(T, H, txs[0])
    requires ApplyBlock(T, Denote(T, H), txs, cid, sizeFee).Some?
    requires History(T, E) && H <= E && NoDoubleSpend(T, H + Executed(txs) + E)
    ensures (H + Executed(txs)) * E <= T.Keys && H + Executed(txs[1..]) * E <= T.Keys
    ensures Total(Denote(T, (H + Executed(txs)) * E)) ==
      Total(Denote(T, H + Executed(txs[1..]) * E)) + if txs[0] in E then AmountOut(T[txs[0]].outputs) else 0
  {
    var c, rest := txs[0], txs[1..];
    var shared := H + Executed(rest) * E;
    assert txs == [c] + rest;
    assert Executed(txs) == Executed(rest) + {c};
    TransfersOnly(T, H, rest, cid, sizeFee);
    NoDoubleSpendBelow(T, H + Executed(rest) + E, H + Executed(txs) + E);
    LiveInBoth(T, H + Executed(rest), E, 0, 0);
    assert (H + Executed(rest)) * E == shared;
    if c in E {
      assert c !in Executed(rest);
      WithCoinbase(T, shared, c);
      assert (H + Executed(txs)) * E == shared + {c};
    } else {
      assert (H + Executed(txs)) * E == shared;
    }
  }

  /** A block executed on the history `below`. */
  datatype Turn = Turn(below: set<Hash>, txs: seq<Hash>, cid: nat, sizeFee: Hash -> nat)

  function TransfersOf(turn: Turn): seq<Hash> {
    if turn.txs == [] then [] else turn.txs[1..]
  }

  /** The block shares no transfer with `E`. */
  predicate NewTo(turn: Turn, E: set<Hash>) {
    Executed(TransfersOf(turn)) !! E
  }

  /** The plain ledger accepts the block on a part of `E`, to which its coinbase, if it pays, is new. */
  ghost predicate TurnOk(T: TxTable, turn: Turn, E: set<Hash>) {
    && History(T, turn.below) && turn.below <= E
    && turn.txs != [] && turn.txs[0] in T && FreshOutputs(T, turn.below, turn.txs[0])
    && ApplyBlock(T, Denote(T, turn.below), turn.txs, turn.cid, turn.sizeFee).Some?
  }

  /** What the coinbase of the block pays out, if `E` has it. */
  function SharedPayout(T: TxTable, turn: Turn, E: set<Hash>): nat {
    if turn.txs != [] && turn.txs[0] in E && turn.txs[0] in T then AmountOut(T[turn.txs[0]].outputs) else 0
  }

  /**
    Merging an accepted block with another history that extends the one it was executed on adds
    the fees of the transfers that the other side has executed too, less what the coinbase pays
    out if the other side has that.
   */
  lemma {:induction false} MergedTotal(T: TxTable, turn: Turn, E: set<Hash>)
    requires History(T, E) && TurnOk(T, turn, E) && NoDoubleSpend(T, E + Executed(turn.txs))
    ensures History(T, E + Executed(turn.txs))
    ensures Total(Denote(T, E + Executed(turn.txs))) + SharedPayout(T, turn, E) ==
      Total(Denote(T, E)) + SharedFees(T, TransfersOf(turn), E)
    ensures SharedFees(T, TransfersOf(turn), E) >= 0
    ensures SharedFees(T, TransfersOf(turn), E) == 0 <==> NewTo(turn, E)
  {
    var H, txs := turn.below, turn.txs;
    assert H + Executed(txs) + E == E + Executed(txs);
    BlockHistory(T, H, txs, turn.cid, turn.sizeFee);
    TotalsOfUnion(T, H + Executed(txs), E);
    SharedWithBlock(T, H, txs, turn.cid, turn.sizeFee, E);
    NoDoubleSpendBelow(T, H + Executed(txs[1..]) + E, H + Executed(txs) + E);
    SharedTotal(T, H, txs[1..], turn.cid, turn.sizeFee, E);
  }

  /** ---------- many blocks ---------- */

  /** `E` and what the blocks executed. */
  function After(E: set<Hash>, turns: seq<Turn>): set<Hash> {
    if turns == [] then E else After(E, turns[..|turns| - 1]) + Executed(turns[|turns| - 1].txs)
  }

  /** Each block was accepted on a part of what was there before it. */
  ghost predicate TurnsOk(T: TxTable, E: set<Hash>, turns: seq<Turn>) {
    forall k :: 0 <= k < |turns| ==> TurnOk(T, turns[k], After(E, turns[..k]))
  }

  /** The fees of all transfers executed once more, for every time they were. */
  function RepeatedFees(T: TxTable, E: set<Hash>, turns: seq<Turn>): int {
    if turns == [] then 0
    else
      var init := turns[..|turns| - 1];
      RepeatedFees(T, E, init) + SharedFees(T, TransfersOf(turns[|turns| - 1]), After(E, init))
  }

  /** What all coinbases executed once more pay out, for every time they were. */
  function RepeatedPayouts(T: TxTable, E: set<Hash>, turns: seq<Turn>): nat {
    if turns == [] then 0
    else
      var init := turns[..|turns| - 1];
      RepeatedPayouts(T, E, init) + SharedPayout(T, turns[|turns| - 1], After(E, init))
  }

  /** Coinbases that pay are new to `E` and to the blocks before them. */
  ghost predicate FreshOn(T: TxTable, E: set<Hash>, turns: seq<Turn>) {
    forall k: nat :: k < |turns| ==> FreshAt(T, E, turns, k)
  }

  predicate FreshAt(T: TxTable, E: set<Hash>, turns: seq<Turn>, k: nat)
    requires k < |turns|
  {
    turns[k].txs != [] && turns[k].txs[0] in T ==> FreshOutputs(T, After(E, turns[..k]), turns[k].txs[0])
  }

  lemma FreshBefore(T: TxTable, E: set<Hash>, turns: seq<Turn>)
    requires turns != [] && FreshOn(T, E, turns)
    ensures FreshOn(T, E, turns[..|turns| - 1]) && FreshAt(T, E, turns, |turns| - 1)
  {
    var init := turns[..|turns| - 1];
    forall k: nat | k < |init|
      ensures FreshAt(T, E, init, k)
    {
      assert FreshAt(T, E, turns, k) && init[..k] == turns[..k];
    }
  }

  /** Then nothing is paid out twice. */
  lemma {:induction false} FreshPayOnce(T: TxTable, E: set<Hash>, turns: seq<Turn>)
    requires FreshOn(T, E, turns)
    ensures RepeatedPayouts(T, E, turns) == 0
  {
    if turns != [] {
      var init, turn := turns[..|turns| - 1], turns[|turns| - 1];
      FreshBefore(T, E, turns);
      FreshPayOnce(T, E, init);
      if turn.txs != [] && turn.txs[0] in After(E, init) && turn.txs[0] in T {
        NothingCreated(turn.txs[0], T[turn.txs[0]].outputs);
      }
    }
  }

  predicate NewAt(E: set<Hash>, turns: seq<Turn>, k: nat)
    requires k < |turns|
  {
    NewTo(turns[k], After(E, turns[..k]))
  }

  /** No block has a transfer that was executed before it. */
  ghost predicate NoneRepeated(E: set<Hash>, turns: seq<Turn>) {
    forall k :: 0 <= k < |turns| ==> NewAt(E, turns, k)
  }

  lemma NewBefore(E: set<Hash>, turns: seq<Turn>, n: nat, k: nat)
    requires k < n <= |turns|
    ensures NewAt(E, turns[..n], k) == NewAt(E, turns, k)
  {
    assert turns[..n][..k] == turns[..k];
  }

  lemma NoneRepeatedSnoc(E: set<Hash>, turns: seq<Turn>, n: nat)
    requires |turns| == n + 1
    ensures NoneRepeated(E, turns) <==> NoneRepeated(E, turns[..n]) && NewAt(E, turns, n)
  {
    forall k: nat | k < n
      ensures NewAt(E, turns[..n], k) == NewAt(E, turns, k)
    {
      NewBefore(E, turns, n, k);
    }
    if NoneRepeated(E, turns) {
      forall k | 0 <= k < n
        ensures NewAt(E, turns[..n], k)
      {
        assert NewAt(E, turns, k);
      }
    }
  }

  lemma TurnsBefore(T: TxTable, E: set<Hash>, turns: seq<Turn>, k: nat)
    requires TurnsOk(T, E, turns) && k <= |turns|
    ensures TurnsOk(T, E, turns[..k])
  {
    forall j | 0 <= j < k
      ensures TurnOk(T, turns[..k][j], After(E, turns[..k][..j]))
    {
      assert turns[..k][..j] == turns[..j];
    }
  }

  /** Blocks executed on parts of what came before: what was executed again accounts for the change of the total. */
  lemma {:induction false} TurnsTotal(T: TxTable, E: set<Hash>, turns: seq<Turn>)
    requires History(T, E) && TurnsOk(T, E, turns) && NoDoubleSpend(T, After(E, turns))
    ensures History(T, After(E, turns))
    ensures Total(Denote(T, After(E, turns))) + RepeatedPayouts(T, E, turns) ==
      Total(Denote(T, E)) + RepeatedFees(T, E, turns)
    ensures RepeatedFees(T, E, turns) >= 0
    ensures RepeatedFees(T, E, turns) == 0 <==> NoneRepeated(E, turns)
  {
    if turns != [] {
      var n := |turns| - 1;
      TurnsBefore(T, E, turns, n);
      NoDoubleSpendBelow(T, After(E, turns[..n]), After(E, turns));
      TurnsTotal(T, E, turns[..n]);
      NoneRepeatedSnoc(E, turns, n);
      assert TurnOk(T, turns[n], After(E, turns[..n]));
      MergedTotal(T, turns[n], After(E, turns[..n]));
    }
  }

  /** ---------- branches ---------- */

  /** Blocks executed one on the other, the first one on `H`. */
  ghost predicate IsBranch(H: set<Hash>, turns: seq<Turn>) {
    forall k :: 0 <= k < |turns| ==> turns[k].below == After(H, turns[..k])
  }

  lemma {:induction false} AfterBoth(H: set<Hash>, E: set<Hash>, turns: seq<Turn>)
    requires H <= E
    ensures After(E, turns) == After(H, turns) + E
  {
    if turns != [] { AfterBoth(H, E, turns[..|turns| - 1]); }
  }

  lemma {:induction false} LastNew(T: TxTable, H: set<Hash>, init: seq<Hash>, t: Hash, cid: nat, sizeFee: Hash -> nat)
    requires History(T, H) && ApplyTxs(T, Denote(T, H), init + [t], cid, sizeFee).Some?
    ensures ApplyTxs(T, Denote(T, H), init, cid, sizeFee).Some? && t !in H
  {
    var txs := init + [t];
    assert txs[..|txs| - 1] == init;
    LastAccepted(T, H, txs, cid, sizeFee);
    NoReplay(T, H + Executed(init), t, sizeFee(t));
  }

  /** A block's own transfers are new to the history it is executed on. */
  lemma {:induction false} TransfersNew(T: TxTable, H: set<Hash>, txs: seq<Hash>, cid: nat, sizeFee: Hash -> nat)
    requires History(T, H) && ApplyTxs(T, Denote(T, H), txs, cid, sizeFee).Some?
    ensures Executed(txs) !! H
  {
    if txs != [] {
      var init, t := txs[..|txs| - 1], txs[|txs| - 1];
      assert txs == init + [t];
      LastNew(T, H, init, t, cid, sizeFee);
      TransfersNew(T, H, init, cid, sizeFee);
      ExecutedSnoc(H, init, t, H);
    }
  }

  /** No transfer of a branch was executed in `E`. */
  predicate SharesNothing(turns: seq<Turn>, E: set<Hash>) {
    forall k :: 0 <= k < |turns| ==> NewTo(turns[k], E)
  }

  lemma NewOnBranch(T: TxTable, H: set<Hash>, turns: seq<Turn>, E: set<Hash>, k: nat)
    requires H <= E && IsBranch(H, turns) && TurnsOk(T, E, turns) && k < |turns|
    ensures NewAt(E, turns, k) <==> NewTo(turns[k], E)
  {
    var turn := turns[k];
    AfterBoth(H, E, turns[..k]);
    assert TurnOk(T, turn, After(E, turns[..k]));
    TransfersNew(T, turn.below, turn.txs[1..], turn.cid, turn.sizeFee);
  }

  lemma BranchRepeatsShared(T: TxTable, H: set<Hash>, turns: seq<Turn>, E: set<Hash>)
    requires H <= E && IsBranch(H, turns) && TurnsOk(T, E, turns)
    ensures NoneRepeated(E, turns) <==> SharesNothing(turns, E)
  {
    forall k: nat | k < |turns|
      ensures NewAt(E, turns, k) <==> NewTo(turns[k], E)
    {
      NewOnBranch(T, H, turns, E, k);
    }
  }

  /**
    Merging a branch with another one that starts from the same history: what both executed
    accounts for the change of the total. If they have no coinbase that pays in common nothing is
    lost, and the total stays if and only if they have no transfer in common.
   */
  lemma {:induction false} BranchTotal(T: TxTable, H: set<Hash>, turns: seq<Turn>, E: set<Hash>)
    requires History(T, E) && H <= E && IsBranch(H, turns) && TurnsOk(T, E, turns)
    requires NoDoubleSpend(T, After(H, turns) + E)
    ensures History(T, After(H, turns) + E)
    ensures Total(Denote(T, After(H, turns) + E)) + RepeatedPayouts(T, E, turns) ==
      Total(Denote(T, E)) + RepeatedFees(T, E, turns)
    ensures FreshOn(T, E, turns) ==> Total(Denote(T, After(H, turns) + E)) >= Total(Denote(T, E))
    ensures FreshOn(T, E, turns) ==>
      (Total(Denote(T, After(H, turns) + E)) == Total(Denote(T, E)) <==> SharesNothing(turns, E))
  {
    AfterBoth(H, E, turns);
    TurnsTotal(T, E, turns);
    BranchRepeatsShared(T, H, turns, E);
    if FreshOn(T, E, turns) { FreshPayOnce(T, E, turns); }
  }

  /** The patch after the blocks of a branch, executed on `p` over the storage; none if one of them fails. */
  function ExecBranch(T: TxTable, L: Utxos, p: Patch, turns: seq<Turn>): Option<Patch> {
    if turns == [] then Some(p)
    else
      var turn := turns[|turns| - 1];
      match ExecBranch(T, L, p, turns[..|turns| - 1])
      case None => None
      case Some(q) => ExecBlock(T, L, q, turn.txs, turn.cid, turn.sizeFee)
  }

  lemma {:induction false} BranchBefore(T: TxTable, H: set<Hash>, turns: seq<Turn>)
    requires turns != [] && IsBranch(H, turns) && FreshOn(T, H, turns)
    ensures IsBranch(H, turns[..|turns| - 1]) && FreshOn(T, H, turns[..|turns| - 1])
    ensures turns[|turns| - 1].below == After(H, turns[..|turns| - 1])
    ensures FreshAt(T, H, turns, |turns| - 1)
  {
    FreshBefore(T, H, turns);
    var init := turns[..|turns| - 1];
    forall k | 0 <= k < |init|
      ensures init[k] == turns[k] && init[..k] == turns[..k]
    {
    }
  }

  lemma {:induction false} TurnBefore(T: TxTable, E: set<Hash>, turns: seq<Turn>, n: nat, k: nat)
    requires k < n <= |turns| && TurnsOk(T, E, turns[..n])
    ensures TurnOk(T, turns[k], After(E, turns[..k]))
  {
    var init := turns[..n];
    assert init[..k] == turns[..k] && init[k] == turns[k];
    assert TurnOk(T, init[k], After(E, init[..k]));
  }

  lemma {:induction false} TurnsSnoc(T: TxTable, E: set<Hash>, turns: seq<Turn>)
    requires turns != [] && TurnsOk(T, E, turns[..|turns| - 1])
    requires TurnOk(T, turns[|turns| - 1], After(E, turns[..|turns| - 1]))
    ensures TurnsOk(T, E, turns)
  {
    forall k: nat | k < |turns| - 1 { TurnBefore(T, E, turns, |turns| - 1, k); }
  }

  /** A block executed on the patch of a branch continues the branch. */
  lemma TurnExecuted(T: TxTable, S: set<Hash>, L: Utxos, q: Patch, turn: Turn, E: set<Hash>)
    requires Stored(T, S, L) && Represents(T, S, turn.below, q) && turn.below <= E
    requires turn.txs != [] && turn.txs[0] in T ==> FreshOutputs(T, turn.below, turn.txs[0])
    requires ExecBlock(T, L, q, turn.txs, turn.cid, turn.sizeFee).Some?
    ensures Represents(T, S, turn.below + Executed(turn.txs),
                       ExecBlock(T, L, q, turn.txs, turn.cid, turn.sizeFee).value)
    ensures TurnOk(T, turn, E)
  {
    ExecBlockRefines(T, S, L, turn.below, q, turn.txs, turn.cid, turn.sizeFee);
  }

  lemma {:induction false} BranchExecuted(T: TxTable, S: set<Hash>, L: Utxos, H: set<Hash>, p: Patch,
                                          turns: seq<Turn>, E: set<Hash>)
    requires Stored(T, S, L) && Represents(T, S, H, p) && H <= E && IsBranch(H, turns) && FreshOn(T, H, turns)
    requires ExecBranch(T, L, p, turns).Some?
    ensures Represents(T, S, After(H, turns), ExecBranch(T, L, p, turns).value)
    ensures TurnsOk(T, E, turns)
  {
    if turns != [] {
      var n := |turns| - 1;
      var init, turn := turns[..n], turns[n];
      BranchBefore(T, H, turns);
      BranchExecuted(T, S, L, H, p, init, E);
      AfterBoth(H, E, init);
      TurnExecuted(T, S, L, ExecBranch(T, L, p, init).value, turn, After(E, init));
      TurnsSnoc(T, E, turns);
    }
  }

  /** The same for what is read through the merged patches. */
  lemma {:induction false} BranchPatchTotal(T: TxTable, S: set<Hash>, L: Utxos, H: set<Hash>, p: Patch,
                                            turns: seq<Turn>, E: set<Hash>, q: Patch)
    requires Stored(T, S, L) && Represents(T, S, H, p) && Represents(T, S, E, q)
    requires H <= E && IsBranch(H, turns) && FreshOn(T, H, turns)
    requires ExecBranch(T, L, p, turns).Some? && !Conflict(ExecBranch(T, L, p, turns).value, q)
    ensures var merged := Merge(ExecBranch(T, L, p, turns).value, q);
      && Total(Flatten(View(merged, L))) + RepeatedPayouts(T, E, turns) ==
           Total(Flatten(View(q, L))) + RepeatedFees(T, E, turns)
      && (FreshOn(T, E, turns) ==>
            && Total(Flatten(View(merged, L))) >= Total(Flatten(View(q, L)))
            && (Total(Flatten(View(merged, L))) == Total(Flatten(View(q, L))) <==> SharesNothing(turns, E)))
  {
    var r, D := ExecBranch(T, L, p, turns).value, After(H, turns);
    BranchExecuted(T, S, L, H, p, turns, E);
    ConflictIsDoubleSpend(T, S, D, E, r, q);
    MergeRepresents(T, S, D, E, r, q);
    ViewIsLedger(T, S, L, D + E, Merge(r, q));
    ViewIsLedger(T, S, L, E, q);
    BranchTotal(T, H, turns, E);
  }

  /** ---------- a shared transfer ---------- */

  function Coinbase(outputs: seq<Coin>): Tx {
    Tx(0, [OutPoint(ZERO_HASH, 0)], outputs, [], None)
  }

  /** Transfer 2 spends the output of coinbase 1 and leaves 3 as a fee, which coinbases 3 and 4 both pay out. */
  function SharedTable(): TxTable {
    map[1 := Coinbase([Coin(10, 5)]), 2 := Tx(0, [OutPoint(1, 0)], [Coin(7, 6)], [5], None),
        3 := Coinbase([Coin(3, 8)]), 4 := Coinbase([Coin(3, 9)])]
  }

  function SharingTurn(coinbase: Hash): Turn {
    Turn({1}, [coinbase, 2], 0, _ => 0)
  }

  lemma {:induction false} OneIn(coins: Coins, o: OutPoint)
    ensures AmountIn(coins, [o]) == AmountAt(coins, o)
  {
    assert [o][..0] == [];
  }

  lemma OneOut(c: Coin)
    ensures AmountOut([c]) == c.amount
  {
    assert [c][..0] == [];
  }

  lemma SharedOutputs()
    ensures var T := SharedTable();
      && Outputs(T, 1) == map[0 := Coin(10, 5)] && Outputs(T, 2) == map[0 := Coin(7, 6)]
      && Outputs(T, 3) == map[0 := Coin(3, 8)] && Outputs(T, 4) == map[0 := Coin(3, 9)]
  {
  }

  lemma SharedStart()
    ensures History(SharedTable(), {1}) && Denote(SharedTable(), {1}) == map[OutPoint(1, 0) := Coin(10, 5)]
    ensures Total(Denote(SharedTable(), {1})) == 10
  {
    var T := SharedTable();
    SharedOutputs();
    forall h, i { DenoteAt(T, {1}, h, i); }
    SameCoins(Denote(T, {1}), map[OutPoint(1, 0) := Coin(10, 5)]);
    OneCoin(OutPoint(1, 0), Coin(10, 5));
  }

  lemma OneCoin(o: OutPoint, c: Coin)
    ensures Total(map[o := c]) == c.amount
  {
    Without(map[o := c], o);
    assert map[o := c] - {o} == map[];
  }

  lemma SharingFee(T: TxTable, coins: Coins, tx: Tx)
    requires T == SharedTable() && tx == T[2] && coins == map[OutPoint(1, 0) := Coin(10, 5)]
    ensures Accepts(coins, tx, 0) && Fee(coins, tx) == 3
  {
    OneIn(coins, OutPoint(1, 0));
    OneOut(Coin(7, 6));
  }

  lemma {:induction false} SharingApplied(T: TxTable, coins: Coins, c: Hash, sizeFee: Hash -> nat)
    requires T == SharedTable() && coins == map[OutPoint(1, 0) := Coin(10, 5)] && (c == 3 || c == 4) && sizeFee(2) == 0
    ensures ApplyTxs(T, coins, [2], 0, sizeFee) == Some((ApplyTx(coins, 2, T[2]), 3))
    ensures IsCoinbase(T[c]) && AmountOut(T[c].outputs) == 3
  {
    SharingFee(T, coins, T[2]);
    OneOut(T[c].outputs[0]);
    assert [2][..0] == [];
  }

  lemma SharingAccepted(c: Hash)
    requires c == 3 || c == 4
    ensures TurnOk(SharedTable(), SharingTurn(c), {1}) && TransfersOf(SharingTurn(c)) == [2]
    ensures Executed(SharingTurn(c).txs) == {c, 2}
  {
    var T, turn := SharedTable(), SharingTurn(c);
    SharedStart();
    SharingTxs(turn, c);
    SharingApplied(T, Denote(T, {1}), c, turn.sizeFee);
    ClosedTurn(T, turn, c, [2], Denote(T, {1}), ApplyTx(Denote(T, {1}), 2, T[2]), 3);
  }

  lemma SharingTxs(turn: Turn, c: Hash)
    requires turn.txs == [c, 2]
    ensures turn.txs[1..] == TransfersOf(turn) == [2] && Executed(turn.txs) == {c, 2}
  {
  }

  /** A block whose transfers apply, with the fees that its coinbase pays out. */
  lemma {:induction false} ClosedTurn(T: TxTable, turn: Turn, c: Hash, rest: seq<Hash>, coins: Coins, after: Coins,
                                      fees: nat)
    requires turn.txs != [] && turn.txs[0] == c && turn.txs[1..] == rest && c in T
    requires ApplyTxs(T, coins, rest, turn.cid, turn.sizeFee) == Some((after, fees))
    requires IsCoinbase(T[c]) && AmountOut(T[c].outputs) == fees
    ensures ApplyBlock(T, coins, turn.txs, turn.cid, turn.sizeFee).Some?
  {
  }

  lemma TurnOkAbove(T: TxTable, turn: Turn, E: set<Hash>, F: set<Hash>)
    requires TurnOk(T, turn, E) && E <= F
    ensures TurnOk(T, turn, F)
  {
  }

  lemma SharedFee()
    ensures SharedFees(SharedTable(), [2], {1, 2, 3}) == 3
  {
    var T := SharedTable();
    SharedOutputs();
    assert T[2].inputs[..0] == [] && T[2].outputs[..0] == [] && [2][..0] == [];
    assert InputTotal(T, T[2].inputs) == 10 && AmountOut(T[2].outputs) == 7;
  }

  lemma SpentOnce()
    ensures NoDoubleSpend(SharedTable(), {1, 2, 3, 4})
  {
    var T := SharedTable();
    forall t, h, i | t in {1, 2, 3, 4} && Consumes(T, t, h, i)
      ensures t == 2
    {
    }
  }

  lemma SharingHistory(c: Hash)
    requires c == 3 || c == 4
    ensures {1} + Executed(SharingTurn(c).txs) == {1, 2, c}
    ensures History(SharedTable(), {1, 2, c})
    ensures Total(Denote(SharedTable(), {1, 2, c})) == Total(Denote(SharedTable(), {1}))
  {
    SharingAccepted(c);
    var turn := SharingTurn(c);
    assert {1} + Executed(turn.txs) == {1, 2, c};
    BlockHistory(SharedTable(), {1}, turn.txs, 0, turn.sizeFee);
  }

  lemma {:induction false} MergedTotalAs(T: TxTable, turn: Turn, E: set<Hash>, F: set<Hash>, txs: seq<Hash>)
    requires History(T, E) && TurnOk(T, turn, E) && NoDoubleSpend(T, F)
    requires F == E + Executed(turn.txs) && txs == TransfersOf(turn) && turn.txs[0] !in E
    ensures F <= T.Keys && Total(Denote(T, F)) == Total(Denote(T, E)) + SharedFees(T, txs, E)
  {
    MergedTotal(T, turn, E);
  }

  lemma SharingAbove()
    ensures var b := SharingTurn(4);
      && TurnOk(SharedTable(), b, {1, 2, 3}) && b.txs[0] !in {1, 2, 3}
      && TransfersOf(b) == [2] && {1, 2, 3} + Executed(b.txs) == {1, 2, 3, 4}
  {
    SharingAccepted(4);
    TurnOkAbove(SharedTable(), SharingTurn(4), {1}, {1, 2, 3});
  }

  lemma SharingMerged(T: TxTable, b: Turn)
    requires T == SharedTable() && b == SharingTurn(4)
    ensures Total(Denote(T, {1, 2, 3, 4})) == Total(Denote(T, {1, 2, 3})) + 3
  {
    SharingAbove();
    SharingHistory(3);
    SpentOnce();
    SharedFee();
    MergedTotalAs(T, b, {1, 2, 3}, {1, 2, 3, 4}, [2]);
  }

  /** Two blocks on one history with the same transfer: each keeps the total, and merged they have its fee once more. */
  lemma SharedFeePaidTwice(T: TxTable, a: Turn, b: Turn)
    requires T == SharedTable() && a == SharingTurn(3) && b == SharingTurn(4)
    ensures TurnOk(T, a, {1}) && TurnOk(T, b, {1}) && History(T, {1}) && Total(Denote(T, {1})) == 10
    ensures {1} + Executed(a.txs) == {1, 2, 3} && Total(Denote(T, {1, 2, 3})) == 10
    ensures {1} + Executed(b.txs) == {1, 2, 4} && Total(Denote(T, {1, 2, 4})) == 10
    ensures Total(Denote(T, {1, 2, 3, 4})) == 13
  {
    SharedStart();
    SharingAccepted(3);
    SharingAccepted(4);
    SharingHistory(3);
    SharingHistory(4);
    SharingMerged(T, b);
  }
}
