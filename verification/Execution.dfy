/**
  Executing the transfers of a block against a patch and the storage, and the proof that it
  refines the plain ledger: the node accepts a block exactly when the ledger does, and the
  resulting patch, read over the storage, is the resulting ledger.
 */
module Execution {
  import opened Wrappers
  import opened Collections
  import opened Ledger
  import opened Patches
  import opened Refinement

  function InputHashes(inputs: seq<OutPoint>): set<Hash> {
    set o | o in inputs :: o.txHash
  }

  /** What a transaction reads: the stored UTXOs of its inputs, under the patch if that has one of them. */
  function Readable(L: Utxos, p: Patch, tx: Tx): Utxos {
    var hashes := InputHashes(tx.inputs);
    var stored := StoredPatch(L, hashes);
    if p.coins.Keys * hashes != {} then Merge(p, stored).coins else stored.coins
  }

  predicate Unspent(u: Utxos, o: OutPoint) {
    o.txHash in u && o.idx in u[o.txHash]
  }

  predicate InputOk(u: Utxos, tx: Tx, i: nat)
    requires i < |tx.inputs|
  {
    var o := tx.inputs[i];
    Unspent(u, o) && Claims(tx, i, u[o.txHash][o.idx].receiver)
  }

  predicate CanSpend(u: Utxos, tx: Tx) {
    Distinct(tx.inputs) && forall i :: 0 <= i < |tx.inputs| ==> InputOk(u, tx, i)
  }

  function TotalHas(u: Utxos, inputs: seq<OutPoint>): nat {
    if inputs == [] then 0
    else
      var last := inputs[|inputs| - 1];
      TotalHas(u, inputs[..|inputs| - 1]) + if Unspent(u, last) then u[last.txHash][last.idx].amount else 0
  }

  function Remaining(u: Utxos, inputs: seq<OutPoint>, h: Hash): Outs
    requires h in u
  {
    map i | i in u[h] && OutPoint(h, i) !in inputs :: u[h][i]
  }

  function SpentInputs(u: Utxos, t: Hash, inputs: seq<OutPoint>, h: Hash): map<nat, Hash>
    requires h in u
  {
    map i | i in u[h] && OutPoint(h, i) in inputs :: t
  }

  /** The patch of a transaction `t` that spends `inputs`. */
  function SpendAll(u: Utxos, t: Hash, inputs: seq<OutPoint>): Patch {
    var hashes := InputHashes(inputs) * u.Keys;
    Patch(map h | h in hashes :: Remaining(u, inputs, h), map h | h in hashes :: SpentInputs(u, t, inputs, h))
  }

  function OwnOuts(p: Patch, t: Hash): Outs {
    if t in p.coins then p.coins[t] else map[]
  }

  /** Outputs are created once. */
  predicate CanPay(p: Patch, t: Hash, outputs: seq<Coin>) {
    StoredOuts(outputs).Keys !! OwnOuts(p, t).Keys
  }

  function Pay(p: Patch, t: Hash, outputs: seq<Coin>): Patch {
    if StoredOuts(outputs) == map[] then p else p.(coins := p.coins[t := OwnOuts(p, t) + StoredOuts(outputs)])
  }

  /** Patch and fee of transfer `t`, or none if its execution throws. */
  function ExecTx(L: Utxos, p: Patch, t: Hash, tx: Tx, sizeFee: nat): Option<(Patch, nat)> {
    var u := Readable(L, p, tx);
    if tx.outputs == [] || !CanSpend(u, tx) then None
    else
      var q := SpendAll(u, t, tx.inputs);
      var remaining := TotalHas(u, tx.inputs) - AmountOut(tx.outputs);
      if CanPay(q, t, tx.outputs) && remaining > sizeFee then Some((Pay(q, t, tx.outputs), remaining)) else None
  }

  /** One more transfer of a block; `state` is the block's patch and the fees so far. */
  function ExecNext(T: TxTable, L: Utxos, state: Option<(Patch, nat)>, t: Hash, cid: nat,
                    sizeFee: nat): Option<(Patch, nat)>
  {
    match state
    case None => None
    case Some((p, fees)) =>
      if t !in T || T[t].conciliumId != cid then None
      else
        match ExecTx(L, p, t, T[t], sizeFee)
        case None => None
        case Some((q, fee)) => if Conflict(p, q) then None else Some((Merge(p, q), fees + fee))
  }

  function ExecTxs(T: TxTable, L: Utxos, p: Patch, txs: seq<Hash>, cid: nat, sizeFee: Hash -> nat): Option<(Patch, nat)>
  {
    if txs == [] then Some((p, 0))
    else
      var t := txs[|txs| - 1];
      ExecNext(T, L, ExecTxs(T, L, p, txs[..|txs| - 1], cid, sizeFee), t, cid, sizeFee(t))
  }

  /** ---------- refinement ---------- */

  /** A patch only ever loses outputs of a stored UTXO. */
  lemma BelowStored(T: TxTable, S: set<Hash>, L: Utxos, D: set<Hash>, p: Patch, h: Hash)
    requires Stored(T, S, L) && Represents(T, S, D, p)
    requires h in p.coins && h in L
    ensures p.coins[h].Keys <= L[h].Keys
  {
    forall i | i in p.coins[h]
      ensures i in L[h]
    {
      StableMonotone(T, S, D, h, i);
    }
  }

  /** Reading the UTXOs of the inputs alone is reading them through the whole patch. */
  lemma ReadableIsView(L: Utxos, p: Patch, tx: Tx, h: Hash)
    requires h in InputHashes(tx.inputs)
    requires h in p.coins && h in L ==> p.coins[h].Keys <= L[h].Keys
    ensures h in Readable(L, p, tx) <==> h in View(p, L)
    ensures h in Readable(L, p, tx) ==> Readable(L, p, tx)[h] == View(p, L)[h]
  {
    var hashes := InputHashes(tx.inputs);
    if h in p.coins {
      assert h in p.coins.Keys * hashes;
    }
  }

  /** What the inputs' UTXOs look like to a transaction is what is live in the history. */
  lemma ReadableIsLive(T: TxTable, S: set<Hash>, L: Utxos, D: set<Hash>, p: Patch, tx: Tx, h: Hash, i: nat)
    requires Stored(T, S, L) && Represents(T, S, D, p)
    requires h in InputHashes(tx.inputs)
    ensures Unspent(Readable(L, p, tx), OutPoint(h, i)) <==> Live(T, D, h, i)
    ensures Live(T, D, h, i) ==> Readable(L, p, tx)[h][i] == Outputs(T, h)[i]
  {
    if h in p.coins && h in L { BelowStored(T, S, L, D, p, h); }
    ReadableIsView(L, p, tx, h);
    if h !in p.coins {
      Untouched(T, S, D, p, h, i);
    }
  }

  lemma {:induction false} TotalIsAmountIn(u: Utxos, coins: Coins, inputs: seq<OutPoint>)
    requires forall o :: o in inputs ==> (Unspent(u, o) <==> o in coins)
    requires forall o :: o in inputs && Unspent(u, o) ==> u[o.txHash][o.idx] == coins[o]
    ensures TotalHas(u, inputs) == AmountIn(coins, inputs)
  {
    if inputs != [] {
      TotalIsAmountIn(u, coins, inputs[..|inputs| - 1]);
    }
  }

  lemma {:induction false} SameVerdict(u: Utxos, coins: Coins, tx: Tx)
    requires forall o :: o in tx.inputs ==> (Unspent(u, o) <==> o in coins)
    requires forall o :: o in tx.inputs && Unspent(u, o) ==> u[o.txHash][o.idx] == coins[o]
    ensures CanSpend(u, tx) <==> InputsOk(coins, tx)
    ensures TotalHas(u, tx.inputs) == AmountIn(coins, tx.inputs)
  {
    TotalIsAmountIn(u, coins, tx.inputs);
    forall i | 0 <= i < |tx.inputs|
      ensures InputOk(u, tx, i) <==> tx.inputs[i] in coins && Claims(tx, i, coins[tx.inputs[i]].receiver)
    {
      assert tx.inputs[i] in tx.inputs;
    }
  }

  /** The node may spend the inputs of a transaction iff the ledger lets it, and for the same amount. */
  lemma InputsRefine(T: TxTable, S: set<Hash>, L: Utxos, D: set<Hash>, p: Patch, tx: Tx)
    requires Stored(T, S, L) && Represents(T, S, D, p)
    ensures CanSpend(Readable(L, p, tx), tx) <==> InputsOk(Denote(T, D), tx)
    ensures TotalHas(Readable(L, p, tx), tx.inputs) == AmountIn(Denote(T, D), tx.inputs)
  {
    var u, coins := Readable(L, p, tx), Denote(T, D);
    forall o | o in tx.inputs
      ensures Unspent(u, o) <==> o in coins
      ensures Unspent(u, o) ==> u[o.txHash][o.idx] == coins[o]
    {
      assert o == OutPoint(o.txHash, o.idx);
      assert o.txHash in InputHashes(tx.inputs);
      ReadableIsLive(T, S, L, D, p, tx, o.txHash, o.idx);
      DenoteAt(T, D, o.txHash, o.idx);
    }
    SameVerdict(u, coins, tx);
  }

  /** What executing `t` on top of `D` changes, output by output. */
  ghost predicate TxEffectAt(T: TxTable, D: set<Hash>, t: Hash, q: Patch, h: Hash, i: nat)
    requires t in T
  {
    && (h in q.coins ==> h == t || h in D)
    && (h in q.coins ==>
          (i in q.coins[h] <==> if h == t then i in Outputs(T, t) else Live(T, D, h, i) && !Consumes(T, t, h, i)))
    && (h in q.coins && i in q.coins[h] ==> h in T && i in Outputs(T, h) && q.coins[h][i] == Outputs(T, h)[i])
    && (i in SpentAt(q, h) <==> Consumes(T, t, h, i))
    && (i in SpentAt(q, h) ==> h in q.coins && SpentAt(q, h)[i] == t)
  }

  ghost predicate TxEffect(T: TxTable, D: set<Hash>, t: Hash, q: Patch)
    requires t in T
  {
    && Normal(q)
    && (Outputs(T, t) != map[] ==> t in q.coins)
    && (forall h, i :: TxEffectAt(T, D, t, q, h, i))
  }

  /** `u` shows the UTXOs of the inputs of `t` as they are in `D`, and the inputs are there. */
  ghost predicate Reads(T: TxTable, D: set<Hash>, t: Hash, u: Utxos)
    requires t in T
  {
    && (forall h, i :: h in InputHashes(T[t].inputs) ==> (Unspent(u, OutPoint(h, i)) <==> Live(T, D, h, i)))
    && (forall h, i :: h in InputHashes(T[t].inputs) && Live(T, D, h, i) ==> u[h][i] == Outputs(T, h)[i])
    && (forall h, i :: Consumes(T, t, h, i) ==> Live(T, D, h, i))
  }

  lemma InputHash(T: TxTable, t: Hash, h: Hash)
    requires t in T && !IsCoinbase(T[t])
    ensures h in InputHashes(T[t].inputs) <==> exists i :: Consumes(T, t, h, i)
  {
    if h in InputHashes(T[t].inputs) {
      var o :| o in T[t].inputs && o.txHash == h;
      assert o == OutPoint(h, o.idx);
      assert Consumes(T, t, h, o.idx);
    }
    if i :| Consumes(T, t, h, i) {
      assert OutPoint(h, i).txHash == h;
    }
  }

  lemma SpendAllHashes(T: TxTable, D: set<Hash>, t: Hash, u: Utxos, h: Hash)
    requires t in T && !IsCoinbase(T[t]) && Reads(T, D, t, u)
    ensures h in SpendAll(u, t, T[t].inputs).coins <==> h in InputHashes(T[t].inputs)
    ensures h in SpendAll(u, t, T[t].inputs).coins ==> h in D
  {
    InputHash(T, t, h);
  }

  lemma SpendAllAt(T: TxTable, D: set<Hash>, t: Hash, u: Utxos, h: Hash, i: nat)
    requires t in T && !IsCoinbase(T[t]) && Reads(T, D, t, u)
    ensures SpendEffectAt(T, D, t, SpendAll(u, t, T[t].inputs), h, i)
  {
    SpendAllHashes(T, D, t, u, h);
    InputHash(T, t, h);
    assert h in InputHashes(T[t].inputs) ==> (Unspent(u, OutPoint(h, i)) <==> Live(T, D, h, i));
  }

  lemma SpendAllNormal(T: TxTable, D: set<Hash>, t: Hash, u: Utxos)
    requires t in T && !IsCoinbase(T[t]) && Reads(T, D, t, u)
    ensures Normal(SpendAll(u, t, T[t].inputs))
  {
    var q := SpendAll(u, t, T[t].inputs);
    forall h | h in q.spent
      ensures q.spent[h] != map[]
    {
      SpendAllHashes(T, D, t, u, h);
      InputHash(T, t, h);
      var i :| Consumes(T, t, h, i);
      SpendAllAt(T, D, t, u, h, i);
      assert i in q.spent[h];
    }
  }

  /** What spending the inputs of `t` changes, output by output. */
  ghost predicate SpendEffectAt(T: TxTable, D: set<Hash>, t: Hash, q: Patch, h: Hash, i: nat)
    requires t in T
  {
    && (h in q.coins ==> h in D)
    && (h in q.coins ==> (i in q.coins[h] <==> Live(T, D, h, i) && !Consumes(T, t, h, i)))
    && (h in q.coins && i in q.coins[h] ==> h in T && i in Outputs(T, h) && q.coins[h][i] == Outputs(T, h)[i])
    && (i in SpentAt(q, h) <==> Consumes(T, t, h, i))
    && (i in SpentAt(q, h) ==> h in q.coins && SpentAt(q, h)[i] == t)
  }

  lemma PayEffect(T: TxTable, D: set<Hash>, t: Hash, q: Patch)
    requires t in T && t !in D && Normal(q)
    requires forall h, i :: SpendEffectAt(T, D, t, q, h, i)
    ensures t !in q.coins && TxEffect(T, D, t, Pay(q, t, T[t].outputs))
  {
    assert SpendEffectAt(T, D, t, q, t, 0);
    var r := Pay(q, t, T[t].outputs);
    forall h, i
      ensures TxEffectAt(T, D, t, r, h, i)
    {
      assert SpendEffectAt(T, D, t, q, h, i);
    }
  }

  lemma EffectOfTx(T: TxTable, S: set<Hash>, L: Utxos, D: set<Hash>, p: Patch, t: Hash, sizeFee: nat)
    requires Stored(T, S, L) && Represents(T, S, D, p)
    requires t in T && Accepts(Denote(T, D), T[t], sizeFee)
    ensures var q := SpendAll(Readable(L, p, T[t]), t, T[t].inputs);
            t !in q.coins && TxEffect(T, D, t, Pay(q, t, T[t].outputs))
  {
    var u := Readable(L, p, T[t]);
    NoReplay(T, D, t, sizeFee);
    InputsLive(T, D, t, sizeFee);
    assert Reads(T, D, t, u) by {
      forall h, i | h in InputHashes(T[t].inputs)
        ensures Unspent(u, OutPoint(h, i)) <==> Live(T, D, h, i)
        ensures Live(T, D, h, i) ==> u[h][i] == Outputs(T, h)[i]
      {
        ReadableIsLive(T, S, L, D, p, T[t], h, i);
      }
    }
    SpendAllNormal(T, D, t, u);
    forall h, i { SpendAllAt(T, D, t, u, h, i); }
    PayEffect(T, D, t, SpendAll(u, t, T[t].inputs));
  }

  lemma NoClash(T: TxTable, S: set<Hash>, D: set<Hash>, p: Patch, t: Hash, q: Patch, h: Hash, i: nat)
    requires Represents(T, S, D, p) && t in T && TxEffectAt(T, D, t, q, h, i)
    requires Consumes(T, t, h, i) ==> Live(T, D, h, i)
    ensures !Clash(p, q, h, i)
  {
    if i in SpentAt(p, h) {
      assert Consumes(T, SpentAt(p, h)[i], h, i);
    }
  }

  lemma TxMergeCoinsAt(T: TxTable, S: set<Hash>, D: set<Hash>, p: Patch, t: Hash, q: Patch, h: Hash, i: nat)
    requires Represents(T, S, D, p) && t in T && t !in D && TxEffectAt(T, D, t, q, h, i)
    requires h in p.coins || h in q.coins
    ensures i in MergedCoins(p, q, h) <==>
      if h == t then i in Outputs(T, t) else Live(T, D, h, i) && !Consumes(T, t, h, i)
    ensures i in MergedCoins(p, q, h) ==> h in T && i in Outputs(T, h) && MergedCoins(p, q, h)[i] == Outputs(T, h)[i]
  {
  }

  lemma TxMergeSpentAt(T: TxTable, S: set<Hash>, D: set<Hash>, p: Patch, t: Hash, q: Patch, u: Hash, h: Hash, i: nat)
    requires Represents(T, S, D, p) && t in T && t !in D && Normal(q) && TxEffectAt(T, D, t, q, h, i)
    requires !Clash(p, q, h, i)
    requires u in D + {t} && u !in S && Consumes(T, u, h, i)
    ensures SpentBy(Merge(p, q), h, i, u)
  {
    MergedSpentAt(p, q, h);
    if u != t {
      assert SpentBy(p, h, i, u);
    }
  }

  lemma TxMergeTruthfulAt(T: TxTable, S: set<Hash>, D: set<Hash>, p: Patch, t: Hash, q: Patch, h: Hash, i: nat)
    requires Represents(T, S, D, p) && t in T && Normal(q) && TxEffectAt(T, D, t, q, h, i)
    requires i in SpentAt(Merge(p, q), h)
    ensures var u := SpentAt(Merge(p, q), h)[i]; u in D + {t} && Consumes(T, u, h, i)
  {
    MergedSpentAt(p, q, h);
  }

  /** Merging the patch of a transaction into the block's patch represents the longer history. */
  lemma TxMergeRepresents(T: TxTable, S: set<Hash>, D: set<Hash>, p: Patch, t: Hash, q: Patch)
    requires Represents(T, S, D, p) && t in T && t !in D && TxEffect(T, D, t, q)
    requires forall h, i :: Consumes(T, t, h, i) ==> Live(T, D, h, i)
    ensures !Conflict(p, q)
    ensures Represents(T, S, D + {t}, Merge(p, q))
  {
    forall h, i
      ensures !Clash(p, q, h, i)
    {
      assert TxEffectAt(T, D, t, q, h, i);
      NoClash(T, S, D, p, t, q, h, i);
    }
    LiveExtends(T, D, t);
    MergeNormal(p, q);
    TxMergeCoins(T, S, D, p, t, q, Merge(p, q));
    TxMergeRecorded(T, S, D, p, t, q, Merge(p, q));
    TxMergeTruthful(T, S, D, p, t, q, Merge(p, q));
  }

  lemma TxMergeCoins(T: TxTable, S: set<Hash>, D: set<Hash>, p: Patch, t: Hash, q: Patch, m: Patch)
    requires Represents(T, S, D, p) && t in T && t !in D && TxEffect(T, D, t, q) && m == Merge(p, q)
    requires forall h, i :: Consumes(T, t, h, i) ==> Live(T, D, h, i)
    ensures CoinsMatch(T, D + {t}, m.coins)
  {
    LiveExtends(T, D, t);
    forall h | h in m.coins
      ensures h in D + {t}
    {
      assert TxEffectAt(T, D, t, q, h, 0);
    }
    forall h, i | h in m.coins
      ensures i in m.coins[h] <==> Live(T, D + {t}, h, i)
      ensures i in m.coins[h] ==> m.coins[h][i] == Outputs(T, h)[i]
    {
      assert TxEffectAt(T, D, t, q, h, i);
      TxMergeCoinsAt(T, S, D, p, t, q, h, i);
    }
  }

  lemma TxMergeRecorded(T: TxTable, S: set<Hash>, D: set<Hash>, p: Patch, t: Hash, q: Patch, m: Patch)
    requires Represents(T, S, D, p) && t in T && t !in D && TxEffect(T, D, t, q) && m == Merge(p, q)
    requires forall h, i :: !Clash(p, q, h, i)
    ensures Recorded(T, S, D + {t}, m)
  {
    forall h | h in D + {t} && h !in m.coins
      ensures h in S || Outputs(T, h) == map[]
    {
      assert TxEffectAt(T, D, t, q, h, 0);
    }
    forall u, h, i | u in D + {t} && u !in S && Consumes(T, u, h, i)
      ensures SpentBy(m, h, i, u)
    {
      assert TxEffectAt(T, D, t, q, h, i);
      TxMergeSpentAt(T, S, D, p, t, q, u, h, i);
    }
  }

  lemma TxMergeTruthful(T: TxTable, S: set<Hash>, D: set<Hash>, p: Patch, t: Hash, q: Patch, m: Patch)
    requires Represents(T, S, D, p) && t in T && t !in D && TxEffect(T, D, t, q) && m == Merge(p, q)
    ensures Truthful(T, D + {t}, m)
  {
    forall h, i | i in SpentAt(m, h)
      ensures SpentAt(m, h)[i] in D + {t} && Consumes(T, SpentAt(m, h)[i], h, i)
    {
      assert TxEffectAt(T, D, t, q, h, i);
      TxMergeTruthfulAt(T, S, D, p, t, q, h, i);
    }
  }

  /** ---------- one transfer ---------- */

  /** The outcome `r` of executing `t` on `D` agrees with the ledger. */
  ghost predicate TxRefines(T: TxTable, S: set<Hash>, D: set<Hash>, p: Patch, t: Hash, sizeFee: nat,
                            r: Option<(Patch, nat)>)
    requires D <= T.Keys && t in T
  {
    && (r.Some? <==> Accepts(Denote(T, D), T[t], sizeFee))
    && (r.Some? ==>
          && r.value.1 == Fee(Denote(T, D), T[t])
          && !Conflict(p, r.value.0)
          && Represents(T, S, D + {t}, Merge(p, r.value.0))
          && Denote(T, D + {t}) == ApplyTx(Denote(T, D), t, T[t]))
  }

  lemma AcceptedRefines(T: TxTable, S: set<Hash>, L: Utxos, D: set<Hash>, p: Patch, t: Hash, sizeFee: nat, q: Patch)
    requires Stored(T, S, L) && Represents(T, S, D, p) && t in T
    requires Accepts(Denote(T, D), T[t], sizeFee)
    requires q == Pay(SpendAll(Readable(L, p, T[t]), t, T[t].inputs), t, T[t].outputs)
    ensures CanPay(SpendAll(Readable(L, p, T[t]), t, T[t].inputs), t, T[t].outputs)
    ensures !Conflict(p, q) && Represents(T, S, D + {t}, Merge(p, q))
    ensures Denote(T, D + {t}) == ApplyTx(Denote(T, D), t, T[t])
  {
    EffectOfTx(T, S, L, D, p, t, sizeFee);
    ApplyExtends(T, D, t, sizeFee);
    InputsLive(T, D, t, sizeFee);
    TxMergeRepresents(T, S, D, p, t, q);
  }

  /** The node executes a transfer iff the ledger accepts it, for the same fee and with the same effect. */
  lemma ExecTxRefines(T: TxTable, S: set<Hash>, L: Utxos, D: set<Hash>, p: Patch, t: Hash, sizeFee: nat)
    requires Stored(T, S, L) && Represents(T, S, D, p) && t in T
    ensures TxRefines(T, S, D, p, t, sizeFee, ExecTx(L, p, t, T[t], sizeFee))
  {
    InputsRefine(T, S, L, D, p, T[t]);
    if Accepts(Denote(T, D), T[t], sizeFee) {
      var q := Pay(SpendAll(Readable(L, p, T[t]), t, T[t].inputs), t, T[t].outputs);
      AcceptedRefines(T, S, L, D, p, t, sizeFee, q);
    }
  }

  /** ---------- one block ---------- */

  function Executed(txs: seq<Hash>): set<Hash> {
    set t | t in txs
  }

  /** The block's patch and the ledger are both stuck, or both represent `D` with the same fees. */
  ghost predicate Agree(T: TxTable, S: set<Hash>, D: set<Hash>, r: Option<(Patch, nat)>, l: Option<(Coins, nat)>) {
    && (r.Some? <==> l.Some?)
    && (r.Some? ==> Represents(T, S, D, r.value.0) && l.value.0 == Denote(T, D) && r.value.1 == l.value.1)
  }

  lemma NextAgrees(T: TxTable, S: set<Hash>, L: Utxos, D: set<Hash>, r: Option<(Patch, nat)>, l: Option<(Coins, nat)>,
                   t: Hash, cid: nat, sizeFee: nat)
    requires Stored(T, S, L) && Agree(T, S, D, r, l)
    ensures Agree(T, S, D + {t}, ExecNext(T, L, r, t, cid, sizeFee), ApplyNext(T, l, t, cid, sizeFee))
  {
    if r.Some? && t in T {
      ExecTxRefines(T, S, L, D, r.value.0, t, sizeFee);
    }
  }

  /** Transfers one after the other: same verdict as the ledger, same fees, and the patch is the ledger. */
  lemma {:induction false} ExecTxsAgree(T: TxTable, S: set<Hash>, L: Utxos, D: set<Hash>, p: Patch,
                                        txs: seq<Hash>, cid: nat, sizeFee: Hash -> nat)
    requires Stored(T, S, L) && Represents(T, S, D, p)
    ensures Agree(T, S, D + Executed(txs), ExecTxs(T, L, p, txs, cid, sizeFee),
                  ApplyTxs(T, Denote(T, D), txs, cid, sizeFee))
  {
    if txs == [] {
      assert D + Executed(txs) == D;
    } else {
      var init, t := txs[..|txs| - 1], txs[|txs| - 1];
      ExecTxsAgree(T, S, L, D, p, init, cid, sizeFee);
      assert D + Executed(txs) == D + Executed(init) + {t};
      NextAgrees(T, S, L, D + Executed(init), ExecTxs(T, L, p, init, cid, sizeFee),
                 ApplyTxs(T, Denote(T, D), init, cid, sizeFee), t, cid, sizeFee(t));
    }
  }

  lemma CoinbaseCoins(T: TxTable, D: set<Hash>, u: Utxos, c: Hash)
    requires History(T, D) && CoinsMatch(T, D, u) && c in T && c !in D && IsCoinbase(T[c])
    ensures Outputs(T, c) == map[] ==> CoinsMatch(T, D + {c}, u)
    ensures Outputs(T, c) != map[] ==> CoinsMatch(T, D + {c}, u[c := Outputs(T, c)])
  {
    LiveExtends(T, D, c);
  }

  lemma NewCoinbaseRepresents(T: TxTable, S: set<Hash>, D: set<Hash>, p: Patch, c: Hash)
    requires Represents(T, S, D, p) && c in T && c !in D && IsCoinbase(T[c])
    ensures CanPay(p, c, T[c].outputs)
    ensures Represents(T, S, D + {c}, Pay(p, c, T[c].outputs))
  {
    LiveExtends(T, D, c);
    CoinbaseCoins(T, D, p.coins, c);
    var r, D' := Pay(p, c, T[c].outputs), D + {c};
    assert OwnOuts(p, c) + Outputs(T, c) == Outputs(T, c);
    assert r.spent == p.spent && forall h :: SpentAt(r, h) == SpentAt(p, h);
    assert Recorded(T, S, D', r) by {
      forall t, h, i | t in D' && t !in S && Consumes(T, t, h, i)
        ensures SpentBy(r, h, i, t)
      {
        assert SpentBy(p, h, i, t);
      }
    }
  }

  lemma CoinbaseRepresents(T: TxTable, S: set<Hash>, D: set<Hash>, p: Patch, c: Hash)
    requires Represents(T, S, D, p) && c in T && FreshOutputs(T, D, c) && IsCoinbase(T[c])
    ensures CanPay(p, c, T[c].outputs)
    ensures Represents(T, S, D + {c}, Pay(p, c, T[c].outputs))
  {
    if c in D {
      assert D + {c} == D;
    } else {
      NewCoinbaseRepresents(T, S, D, p, c);
    }
  }

  /** `l` is stuck, or the ledger of `D` after transfers only. */
  ghost predicate Follows(T: TxTable, D: set<Hash>, txs: seq<Hash>, l: Option<(Coins, nat)>) {
    l.Some? ==>
      && History(T, D) && l.value.0 == Denote(T, D)
      && forall t :: t in txs ==> t in T && !IsCoinbase(T[t])
  }

  lemma NextFollows(T: TxTable, D: set<Hash>, txs: seq<Hash>, l: Option<(Coins, nat)>, t: Hash, cid: nat, sizeFee: nat)
    requires Follows(T, D, txs, l)
    ensures Follows(T, D + {t}, txs + [t], ApplyNext(T, l, t, cid, sizeFee))
  {
    if ApplyNext(T, l, t, cid, sizeFee).Some? {
      NoReplay(T, D, t, sizeFee);
      ApplyExtends(T, D, t, sizeFee);
    }
  }

  /** A coinbase is never accepted as a transfer. */
  lemma {:induction false} TransfersOnly(T: TxTable, D: set<Hash>, txs: seq<Hash>, cid: nat, sizeFee: Hash -> nat)
    requires History(T, D)
    ensures Follows(T, D + Executed(txs), txs, ApplyTxs(T, Denote(T, D), txs, cid, sizeFee))
  {
    if txs == [] {
      assert D + Executed(txs) == D;
    } else {
      var init, t := txs[..|txs| - 1], txs[|txs| - 1];
      TransfersOnly(T, D, init, cid, sizeFee);
      assert D + Executed(txs) == D + Executed(init) + {t};
      assert txs == init + [t];
      NextFollows(T, D + Executed(init), init, ApplyTxs(T, Denote(T, D), init, cid, sizeFee), t, cid, sizeFee(t));
    }
  }

  /** The coinbase closes the block. */
  function CloseBlock(T: TxTable, c: Hash, state: Option<(Patch, nat)>): Option<Patch>
    requires c in T
  {
    match state
    case None => None
    case Some((p, fees)) =>
      if IsCoinbase(T[c]) && AmountOut(T[c].outputs) == fees && CanPay(p, c, T[c].outputs) then
        Some(Pay(p, c, T[c].outputs))
      else None
  }

  /** Patch of a block on top of the merged patches `p` of its parents, or none if its execution throws. */
  function ExecBlock(T: TxTable, L: Utxos, p: Patch, txs: seq<Hash>, cid: nat, sizeFee: Hash -> nat): Option<Patch> {
    if txs == [] || txs[0] !in T then None
    else CloseBlock(T, txs[0], ExecTxs(T, L, p, txs[1..], cid, sizeFee))
  }

  lemma CloseAgrees(T: TxTable, S: set<Hash>, D: set<Hash>, c: Hash, r: Option<(Patch, nat)>, l: Option<(Coins, nat)>)
    requires c in T && FreshOutputs(T, D, c) && Agree(T, S, D, r, l)
    ensures CloseBlock(T, c, r).Some? <==> CloseLedger(T, c, l).Some?
    ensures CloseBlock(T, c, r).Some? ==>
      && Represents(T, S, D + {c}, CloseBlock(T, c, r).value)
      && CloseLedger(T, c, l).value == Denote(T, D + {c})
  {
    if r.Some? && IsCoinbase(T[c]) {
      CoinbaseRepresents(T, S, D, r.value.0, c);
      CoinbaseExtends(T, D, c);
    }
  }

  /**
    A block whose coinbase is new executes iff the plain ledger accepts it, and the resulting
    patch, read over the storage, is the ledger after the block.
   */
  lemma ExecBlockRefines(T: TxTable, S: set<Hash>, L: Utxos, D: set<Hash>, p: Patch,
                         txs: seq<Hash>, cid: nat, sizeFee: Hash -> nat)
    requires Stored(T, S, L) && Represents(T, S, D, p)
    requires txs != [] && txs[0] in T ==> FreshOutputs(T, D, txs[0])
    ensures ExecBlock(T, L, p, txs, cid, sizeFee).Some? <==> ApplyBlock(T, Denote(T, D), txs, cid, sizeFee).Some?
    ensures ExecBlock(T, L, p, txs, cid, sizeFee).Some? ==>
      var r := ExecBlock(T, L, p, txs, cid, sizeFee).value;
      && Represents(T, S, D + Executed(txs), r)
      && Flatten(View(r, L)) == Denote(T, D + Executed(txs)) == ApplyBlock(T, Denote(T, D), txs, cid, sizeFee).value
  {
    if txs != [] && txs[0] in T {
      var c, rest := txs[0], txs[1..];
      var r, l := ExecTxs(T, L, p, rest, cid, sizeFee), ApplyTxs(T, Denote(T, D), rest, cid, sizeFee);
      ExecTxsAgree(T, S, L, D, p, rest, cid, sizeFee);
      if l.Some? && IsCoinbase(T[c]) {
        TransfersOnly(T, D, rest, cid, sizeFee);
        CloseAgrees(T, S, D + Executed(rest), c, r, l);
        assert D + Executed(txs) == D + Executed(rest) + {c};
        if CloseBlock(T, c, r).Some? {
          ViewIsLedger(T, S, L, D + Executed(txs), CloseBlock(T, c, r).value);
        }
      }
    }
  }
}
