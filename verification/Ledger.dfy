/**
  The plain ledger: what the coins of a money-only chain are, said without patches.

  A transaction table stands for collision-free hashing: a hash determines its
  transaction. A ledger maps outpoints to coins and transactions are applied to it one
  by one. A history is a set of executed transactions; it denotes the ledger of the
  outputs it created and did not consume, in whatever order it was executed.
 */
module Ledger {
  import opened Wrappers
  import opened Collections

  type Hash = nat
  type Address = nat

  /** The hash of 32 zero bytes, which no transaction has. */
  const ZERO_HASH: Hash := 0

  datatype Coin = Coin(amount: nat, receiver: Address)
  datatype OutPoint = OutPoint(txHash: Hash, idx: nat)

  /** Signatures are represented by the addresses they recover to. */
  datatype Tx = Tx(
    conciliumId: nat,
    inputs: seq<OutPoint>,
    outputs: seq<Coin>,
    claimProofs: seq<Address>,
    txSigner: Option<Address>)

  type Outs = map<nat, Coin>
  type TxTable = map<Hash, Tx>
  type Coins = map<OutPoint, Coin>

  predicate ValidTable(T: TxTable) {
    ZERO_HASH !in T
  }

  predicate IsCoinbase(tx: Tx) {
    tx.inputs == [OutPoint(ZERO_HASH, 0)]
  }

  /** Whether input `i` of `tx` may spend an output paid to `owner`. */
  predicate Claims(tx: Tx, i: nat, owner: Address) {
    if tx.claimProofs != [] then i < |tx.claimProofs| && tx.claimProofs[i] == owner
    else tx.txSigner == Some(owner)
  }

  /** Outputs `[from..to)` that are stored: those with a non-zero amount. */
  function StoredOuts(outputs: seq<Coin>): Outs {
    map i | 0 <= i < |outputs| && outputs[i].amount != 0 :: outputs[i]
  }

  function Outputs(T: TxTable, h: Hash): Outs
    requires h in T
  {
    StoredOuts(T[h].outputs)
  }

  function AmountOut(outputs: seq<Coin>): nat {
    if outputs == [] then 0 else AmountOut(outputs[..|outputs| - 1]) + outputs[|outputs| - 1].amount
  }

  /** ---------- One by one ---------- */

  function AmountIn(coins: Coins, inputs: seq<OutPoint>): nat {
    if inputs == [] then 0
    else
      var last := inputs[|inputs| - 1];
      AmountIn(coins, inputs[..|inputs| - 1]) + if last in coins then coins[last].amount else 0
  }

  /** The inputs of `tx` are unspent, used once and claimed by their owners. */
  predicate InputsOk(coins: Coins, tx: Tx) {
    && Distinct(tx.inputs)
    && forall i :: 0 <= i < |tx.inputs| ==> tx.inputs[i] in coins && Claims(tx, i, coins[tx.inputs[i]].receiver)
  }

  /** A transfer is accepted when it has an output, its inputs are good and its fee exceeds the size fee. */
  predicate Accepts(coins: Coins, tx: Tx, sizeFee: nat) {
    && tx.outputs != []
    && InputsOk(coins, tx)
    && AmountIn(coins, tx.inputs) - AmountOut(tx.outputs) > sizeFee
  }

  function Fee(coins: Coins, tx: Tx): int {
    AmountIn(coins, tx.inputs) - AmountOut(tx.outputs)
  }

  function NewCoins(h: Hash, outputs: seq<Coin>): Coins {
    if outputs == [] then map[]
    else
      var n := |outputs| - 1;
      var created := NewCoins(h, outputs[..n]);
      if outputs[n].amount != 0 then created[OutPoint(h, n) := outputs[n]] else created
  }

  function ApplyTx(coins: Coins, h: Hash, tx: Tx): Coins {
    (coins - (set o | o in tx.inputs)) + NewCoins(h, tx.outputs)
  }

  /** One more transfer of a block of concilium `cid`; `state` is the ledger and the fees so far. */
  function ApplyNext(T: TxTable, state: Option<(Coins, nat)>, h: Hash, cid: nat, sizeFee: nat): Option<(Coins, nat)> {
    match state
    case None => None
    case Some((coins, fees)) =>
      if h in T && T[h].conciliumId == cid && Accepts(coins, T[h], sizeFee) then
        Some((ApplyTx(coins, h, T[h]), fees + Fee(coins, T[h])))
      else None
  }

  /** Apply the transfers `txs` of a block of concilium `cid` in order, summing their fees. */
  function ApplyTxs(T: TxTable, coins: Coins, txs: seq<Hash>, cid: nat, sizeFee: Hash -> nat): Option<(Coins, nat)> {
    if txs == [] then Some((coins, 0))
    else
      var h := txs[|txs| - 1];
      ApplyNext(T, ApplyTxs(T, coins, txs[..|txs| - 1], cid, sizeFee), h, cid, sizeFee(h))
  }

  /** The coinbase of a block pays out exactly the fees of its transfers. */
  function CloseLedger(T: TxTable, c: Hash, state: Option<(Coins, nat)>): Option<Coins>
    requires c in T
  {
    match state
    case None => None
    case Some((coins, fees)) =>
      if IsCoinbase(T[c]) && AmountOut(T[c].outputs) == fees then Some(coins + NewCoins(c, T[c].outputs)) else None
  }

  /** A whole block: its first transaction is the coinbase. */
  function ApplyBlock(T: TxTable, coins: Coins, txs: seq<Hash>, cid: nat, sizeFee: Hash -> nat): Option<Coins> {
    if txs == [] || txs[0] !in T then None
    else CloseLedger(T, txs[0], ApplyTxs(T, coins, txs[1..], cid, sizeFee))
  }

  /** ---------- All at once ---------- */

  predicate Consumes(T: TxTable, t: Hash, h: Hash, i: nat) {
    t in T && !IsCoinbase(T[t]) && OutPoint(h, i) in T[t].inputs
  }

  ghost predicate Consumed(T: TxTable, D: set<Hash>, h: Hash, i: nat) {
    exists t :: t in D && Consumes(T, t, h, i)
  }

  ghost predicate Live(T: TxTable, D: set<Hash>, h: Hash, i: nat) {
    h in D && h in T && i in Outputs(T, h) && !Consumed(T, D, h, i)
  }

  /** Everything consumed was created before. */
  ghost predicate Closed(T: TxTable, D: set<Hash>) {
    forall t, h, i :: t in D && Consumes(T, t, h, i) ==> h in D && h in T && i in Outputs(T, h)
  }

  /** No output is consumed by two transactions. */
  ghost predicate NoDoubleSpend(T: TxTable, D: set<Hash>) {
    forall t, u, h, i :: t in D && u in D && Consumes(T, t, h, i) && Consumes(T, u, h, i) ==> t == u
  }

  ghost predicate History(T: TxTable, D: set<Hash>) {
    ValidTable(T) && D <= T.Keys && Closed(T, D) && NoDoubleSpend(T, D)
  }

  /** The ledger a set of executed transactions leaves behind. */
  ghost function Denote(T: TxTable, D: set<Hash>): Coins
    requires D <= T.Keys
  {
    var created := set h, i | h in D && i in Outputs(T, h) :: OutPoint(h, i);
    map o: OutPoint | o in created && !Consumed(T, D, o.txHash, o.idx) :: Outputs(T, o.txHash)[o.idx]
  }

  lemma DenoteAt(T: TxTable, D: set<Hash>, h: Hash, i: nat)
    requires D <= T.Keys
    ensures OutPoint(h, i) in Denote(T, D) <==> Live(T, D, h, i)
    ensures Live(T, D, h, i) ==> Denote(T, D)[OutPoint(h, i)] == Outputs(T, h)[i]
  {
  }

  /** A transfer executed once is never accepted again: its inputs are gone. */
  lemma NoReplay(T: TxTable, D: set<Hash>, t: Hash, sizeFee: nat)
    requires History(T, D) && t in T
    requires Accepts(Denote(T, D), T[t], sizeFee)
    ensures t !in D && !IsCoinbase(T[t])
  {
    var tx := T[t];
    assert tx.inputs != [];
    var o := tx.inputs[0];
    DenoteAt(T, D, o.txHash, o.idx);
    assert OutPoint(o.txHash, o.idx) == o;
    if t in D {
      assert Consumes(T, t, o.txHash, o.idx);
    }
  }

  lemma SameCoins(a: Coins, b: Coins)
    requires forall h, i :: OutPoint(h, i) in a <==> OutPoint(h, i) in b
    requires forall h, i :: OutPoint(h, i) in a ==> a[OutPoint(h, i)] == b[OutPoint(h, i)]
    ensures a == b
  {
    forall o: OutPoint
      ensures o in a <==> o in b
      ensures o in a ==> a[o] == b[o]
    {
      assert o == OutPoint(o.txHash, o.idx);
    }
  }

  lemma {:induction false} NewCoinsAt(k: Hash, outputs: seq<Coin>, h: Hash, i: nat)
    ensures OutPoint(h, i) in NewCoins(k, outputs) <==> h == k && i in StoredOuts(outputs)
    ensures OutPoint(h, i) in NewCoins(k, outputs) ==> NewCoins(k, outputs)[OutPoint(h, i)] == StoredOuts(outputs)[i]
  {
    if outputs != [] {
      NewCoinsAt(k, outputs[..|outputs| - 1], h, i);
    }
  }

  /** What a further transaction, whose inputs are live, changes in a history. */
  lemma LiveExtends(T: TxTable, D: set<Hash>, t: Hash)
    requires History(T, D) && t in T && t !in D
    requires forall h, i :: Consumes(T, t, h, i) ==> Live(T, D, h, i)
    ensures History(T, D + {t})
    ensures forall h, i :: Live(T, D + {t}, h, i) <==>
      (if h == t then i in Outputs(T, t) else Live(T, D, h, i) && !Consumes(T, t, h, i))
  {
    var D' := D + {t};
    forall h: Hash, i: nat
      ensures Live(T, D', h, i) <==>
        (if h == t then i in Outputs(T, t) else Live(T, D, h, i) && !Consumes(T, t, h, i))
    {
      assert Consumed(T, D', h, i) <==> Consumed(T, D, h, i) || Consumes(T, t, h, i);
    }
  }

  lemma InputsLive(T: TxTable, D: set<Hash>, t: Hash, sizeFee: nat)
    requires History(T, D) && t in T
    requires Accepts(Denote(T, D), T[t], sizeFee)
    ensures forall h, i :: Consumes(T, t, h, i) ==> Live(T, D, h, i)
  {
    forall h, i | Consumes(T, t, h, i)
      ensures Live(T, D, h, i)
    {
      DenoteAt(T, D, h, i);
    }
  }

  /** One transfer applied to the ledger of a history gives the ledger of the longer history. */
  lemma ApplyExtends(T: TxTable, D: set<Hash>, t: Hash, sizeFee: nat)
    requires History(T, D) && t in T
    requires Accepts(Denote(T, D), T[t], sizeFee)
    ensures t !in D
    ensures History(T, D + {t})
    ensures Denote(T, D + {t}) == ApplyTx(Denote(T, D), t, T[t])
  {
    NoReplay(T, D, t, sizeFee);
    InputsLive(T, D, t, sizeFee);
    LiveExtends(T, D, t);
    var before, after := Denote(T, D), ApplyTx(Denote(T, D), t, T[t]);
    forall h, i
      ensures OutPoint(h, i) in Denote(T, D + {t}) <==> OutPoint(h, i) in after
      ensures OutPoint(h, i) in after ==> Denote(T, D + {t})[OutPoint(h, i)] == after[OutPoint(h, i)]
    {
      DenoteAt(T, D + {t}, h, i);
      DenoteAt(T, D, h, i);
      NewCoinsAt(t, T[t].outputs, h, i);
    }
    SameCoins(Denote(T, D + {t}), after);
  }

  /** A coinbase may be known only if it stores no outputs: coinbases that pay nothing hash alike. */
  predicate FreshOutputs(T: TxTable, D: set<Hash>, c: Hash)
    requires c in T
  {
    c !in D || Outputs(T, c) == map[]
  }

  /** A coinbase adds its outputs and consumes nothing. */
  lemma {:induction false} CoinbaseExtends(T: TxTable, D: set<Hash>, c: Hash)
    requires History(T, D) && c in T && FreshOutputs(T, D, c) && IsCoinbase(T[c])
    ensures History(T, D + {c})
    ensures Denote(T, D + {c}) == Denote(T, D) + NewCoins(c, T[c].outputs)
  {
    var after := Denote(T, D) + NewCoins(c, T[c].outputs);
    if c in D {
      assert D + {c} == D;
    } else {
      LiveExtends(T, D, c);
    }
    forall h, i
      ensures OutPoint(h, i) in Denote(T, D + {c}) <==> OutPoint(h, i) in after
      ensures OutPoint(h, i) in after ==> Denote(T, D + {c})[OutPoint(h, i)] == after[OutPoint(h, i)]
    {
      DenoteAt(T, D + {c}, h, i);
      DenoteAt(T, D, h, i);
      NewCoinsAt(c, T[c].outputs, h, i);
    }
    SameCoins(Denote(T, D + {c}), after);
  }
}
