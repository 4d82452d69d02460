/** An accepted block moves coins around: the total of all unspent outputs stays what it was. */
module Conservation {
  import opened Wrappers
  import opened Collections
  import opened Ledger
  import opened Execution

  ghost function Total(coins: Coins): nat
    decreases |coins|
  {
    if coins == map[] then 0
    else
      var o :| o in coins;
      coins[o].amount + Total(coins - {o})
  }

  lemma {:induction false} TotalRemove(coins: Coins, o: OutPoint)
    requires o in coins
    ensures Total(coins) == coins[o].amount + Total(coins - {o})
    decreases |coins|
  {
    var p :| p in coins && Total(coins) == coins[p].amount + Total(coins - {p});
    if p != o {
      TotalRemove(coins - {p}, o);
      TotalRemove(coins - {o}, p);
      assert coins - {p} - {o} == coins - {o} - {p};
    }
  }

  lemma TotalInsert(coins: Coins, o: OutPoint, c: Coin)
    requires o !in coins
    ensures Total(coins[o := c]) == Total(coins) + c.amount
  {
    TotalRemove(coins[o := c], o);
    assert coins[o := c] - {o} == coins;
  }

  lemma {:induction false} TotalSpend(coins: Coins, inputs: seq<OutPoint>)
    requires Distinct(inputs) && forall o :: o in inputs ==> o in coins
    ensures Total(coins - (set o | o in inputs)) + AmountIn(coins, inputs) == Total(coins)
  {
    if inputs == [] {
      assert coins - (set o | o in inputs) == coins;
    } else {
      var init, last := inputs[..|inputs| - 1], inputs[|inputs| - 1];
      TotalSpend(coins, init);
      var rest := coins - (set o | o in init);
      assert last !in init && last in rest;
      TotalRemove(rest, last);
      assert inputs == init + [last];
      assert coins - (set o | o in inputs) == rest - {last};
    }
  }

  lemma {:induction false} TotalCreate(coins: Coins, h: Hash, outputs: seq<Coin>)
    requires forall i :: OutPoint(h, i) !in coins
    ensures Total(coins + NewCoins(h, outputs)) == Total(coins) + AmountOut(outputs)
  {
    if outputs == [] {
      assert coins + NewCoins(h, outputs) == coins;
    } else {
      var n := |outputs| - 1;
      var init, last := outputs[..n], outputs[n];
      TotalCreate(coins, h, init);
      if last.amount != 0 {
        NewCoinsAt(h, init, h, n);
        assert coins + NewCoins(h, outputs) == (coins + NewCoins(h, init))[OutPoint(h, n) := last];
        TotalInsert(coins + NewCoins(h, init), OutPoint(h, n), last);
      }
    }
  }

  lemma NoneOf(T: TxTable, D: set<Hash>, h: Hash)
    requires D <= T.Keys && h !in D
    ensures forall i :: OutPoint(h, i) !in Denote(T, D)
  {
    forall i
      ensures OutPoint(h, i) !in Denote(T, D)
    {
      DenoteAt(T, D, h, i);
    }
  }

  /** A transfer keeps all but its fee. */
  lemma TransferConserves(T: TxTable, D: set<Hash>, t: Hash, sizeFee: nat)
    requires History(T, D) && t in T && Accepts(Denote(T, D), T[t], sizeFee)
    ensures Total(ApplyTx(Denote(T, D), t, T[t])) + Fee(Denote(T, D), T[t]) == Total(Denote(T, D))
  {
    var coins, tx := Denote(T, D), T[t];
    NoReplay(T, D, t, sizeFee);
    NoneOf(T, D, t);
    TotalSpend(coins, tx.inputs);
    TotalCreate(coins - (set o | o in tx.inputs), t, tx.outputs);
  }

  /** `l` is stuck, or with the fees collected so far makes up `total`. */
  ghost predicate Balanced(l: Option<(Coins, nat)>, total: nat) {
    l.Some? ==> Total(l.value.0) + l.value.1 == total
  }

  lemma NextBalanced(T: TxTable, D: set<Hash>, txs: seq<Hash>, l: Option<(Coins, nat)>, total: nat,
                     t: Hash, cid: nat, sizeFee: nat)
    requires Follows(T, D, txs, l) && Balanced(l, total)
    ensures Balanced(ApplyNext(T, l, t, cid, sizeFee), total)
  {
    if ApplyNext(T, l, t, cid, sizeFee).Some? {
      TransferConserves(T, D, t, sizeFee);
    }
  }

  lemma {:induction false} TransfersBalanced(T: TxTable, D: set<Hash>, txs: seq<Hash>, cid: nat, sizeFee: Hash -> nat)
    requires History(T, D)
    ensures Balanced(ApplyTxs(T, Denote(T, D), txs, cid, sizeFee), Total(Denote(T, D)))
  {
    if txs != [] {
      var init, t := txs[..|txs| - 1], txs[|txs| - 1];
      TransfersBalanced(T, D, init, cid, sizeFee);
      TransfersOnly(T, D, init, cid, sizeFee);
      NextBalanced(T, D + Executed(init), init, ApplyTxs(T, Denote(T, D), init, cid, sizeFee), Total(Denote(T, D)),
                   t, cid, sizeFee(t));
    }
  }

  lemma {:induction false} NothingCreated(h: Hash, outputs: seq<Coin>)
    requires StoredOuts(outputs) == map[]
    ensures NewCoins(h, outputs) == map[] && AmountOut(outputs) == 0
  {
    if outputs != [] {
      var n := |outputs| - 1;
      forall i | i in StoredOuts(outputs[..n])
        ensures i in StoredOuts(outputs)
      {
      }
      NothingCreated(h, outputs[..n]);
      assert n !in StoredOuts(outputs);
    }
  }

  lemma CloseConserves(T: TxTable, D: set<Hash>, txs: seq<Hash>, l: Option<(Coins, nat)>, total: nat, c: Hash)
    requires Follows(T, D, txs, l) && Balanced(l, total) && c in T && FreshOutputs(T, D, c)
    ensures CloseLedger(T, c, l).Some? ==> Total(CloseLedger(T, c, l).value) == total
  {
    if CloseLedger(T, c, l).Some? {
      if c in D {
        NothingCreated(c, T[c].outputs);
        assert l.value.0 + map[] == l.value.0;
      } else {
        NoneOf(T, D, c);
        TotalCreate(l.value.0, c, T[c].outputs);
      }
    }
  }

  /** A block accepted on top of a history, with a coinbase new to it, leaves the total unchanged. */
  lemma BlockConserves(T: TxTable, D: set<Hash>, txs: seq<Hash>, cid: nat, sizeFee: Hash -> nat)
    requires History(T, D) && (txs != [] && txs[0] in T ==> FreshOutputs(T, D, txs[0]))
    ensures var after := ApplyBlock(T, Denote(T, D), txs, cid, sizeFee);
            after.Some? ==> Total(after.value) == Total(Denote(T, D))
    ensures ApplyBlock(T, Denote(T, D), txs, cid, sizeFee).Some? ==>
      |txs| > 0 && txs[0] in T && T[txs[0]].inputs == [OutPoint(0, 0)]
  {
    if txs != [] && txs[0] in T && IsCoinbase(T[txs[0]]) {
      var rest := txs[1..];
      var l := ApplyTxs(T, Denote(T, D), rest, cid, sizeFee);
      TransfersBalanced(T, D, rest, cid, sizeFee);
      TransfersOnly(T, D, rest, cid, sizeFee);
      if l.Some? {
        CloseConserves(T, D + Executed(rest), rest, l, Total(Denote(T, D)), txs[0]);
      }
    }
  }
}
