/** Spending inputs and creating outputs of one transaction, step by step, and the stored table. */
module App {
  import opened Wrappers
  import opened Collections
  import opened Ledger
  import opened Patches
  import opened Execution
  import opened PatchDb

  lemma SpendAllNormalised(u: Utxos, t: Hash, inputs: seq<OutPoint>)
    requires forall o :: o in inputs ==> Unspent(u, o)
    ensures Normal(SpendAll(u, t, inputs))
  {
    var q := SpendAll(u, t, inputs);
    forall h | h in q.spent
      ensures q.spent[h] != map[]
    {
      var o :| o in inputs && o.txHash == h;
      assert OutPoint(h, o.idx) == o;
      assert o.idx in q.spent[h];
    }
  }

  lemma InInputs(inputs: seq<OutPoint>, h: Hash)
    ensures h in InputHashes(inputs) <==> exists i :: OutPoint(h, i) in inputs
  {
    if h in InputHashes(inputs) {
      var o :| o in inputs && o.txHash == h;
      assert OutPoint(h, o.idx) in inputs;
    }
    if i :| OutPoint(h, i) in inputs {
      assert OutPoint(h, i).txHash == h;
    }
  }

  lemma SpendElsewhere(u: Utxos, t: Hash, inputs: seq<OutPoint>, o: OutPoint, k: Hash)
    requires k != o.txHash
    ensures VersionAt(SpendAll(u, t, inputs + [o]), k) == VersionAt(SpendAll(u, t, inputs), k)
  {
    InInputs(inputs, k);
    InInputs(inputs + [o], k);
    assert forall i :: OutPoint(k, i) in inputs + [o] <==> OutPoint(k, i) in inputs;
    if k in u {
      assert Remaining(u, inputs + [o], k) == Remaining(u, inputs, k);
      assert SpentInputs(u, t, inputs + [o], k) == SpentInputs(u, t, inputs, k);
    }
  }

  function OwnVersion(u: Utxos, p: Patch, h: Hash): Outs
    requires h in u
  {
    if h in p.coins then p.coins[h] else u[h]
  }

  /** Before its first spend a UTXO is as it was read. */
  lemma OwnIsRemaining(u: Utxos, t: Hash, inputs: seq<OutPoint>, h: Hash)
    requires h in u
    ensures OwnVersion(u, SpendAll(u, t, inputs), h) == Remaining(u, inputs, h)
    ensures SpentAt(SpendAll(u, t, inputs), h) == SpentInputs(u, t, inputs, h)
  {
    InInputs(inputs, h);
  }

  lemma SpendHere(u: Utxos, t: Hash, inputs: seq<OutPoint>, o: OutPoint)
    requires Unspent(u, o) && o !in inputs
    ensures o.idx in Remaining(u, inputs, o.txHash)
    ensures VersionAt(SpendAll(u, t, inputs + [o]), o.txHash) ==
      Version(Some(Remaining(u, inputs, o.txHash) - {o.idx}), SpentInputs(u, t, inputs, o.txHash)[o.idx := t])
  {
    var h := o.txHash;
    assert o == OutPoint(h, o.idx) && o in inputs + [o];
    InInputs(inputs + [o], h);
    assert forall i :: OutPoint(h, i) in inputs + [o] <==> OutPoint(h, i) in inputs || i == o.idx;
    assert Remaining(u, inputs + [o], h) == Remaining(u, inputs, h) - {o.idx};
    assert SpentInputs(u, t, inputs + [o], h) == SpentInputs(u, t, inputs, h)[o.idx := t];
  }

  /** Spending one more input; an input is spent once. */
  lemma SpendStep(u: Utxos, t: Hash, inputs: seq<OutPoint>, o: OutPoint)
    requires Unspent(u, o) && forall x :: x in inputs ==> Unspent(u, x)
    ensures o in inputs ==> Spend(SpendAll(u, t, inputs), o.txHash, u[o.txHash], o.idx, t).Failure?
    ensures o !in inputs ==>
      Spend(SpendAll(u, t, inputs), o.txHash, u[o.txHash], o.idx, t) == Success(SpendAll(u, t, inputs + [o]))
  {
    OwnIsRemaining(u, t, inputs, o.txHash);
    assert o == OutPoint(o.txHash, o.idx);
    if o !in inputs {
      SpendHere(u, t, inputs, o);
      SpendOne(u, t, inputs, o, Spend(SpendAll(u, t, inputs), o.txHash, u[o.txHash], o.idx, t).value);
    }
  }

  lemma SpendOne(u: Utxos, t: Hash, inputs: seq<OutPoint>, o: OutPoint, q: Patch)
    requires Unspent(u, o) && o !in inputs && forall x :: x in inputs ==> Unspent(u, x)
    requires Spend(SpendAll(u, t, inputs), o.txHash, u[o.txHash], o.idx, t) == Success(q)
    ensures q == SpendAll(u, t, inputs + [o])
  {
    var p, r := SpendAll(u, t, inputs), SpendAll(u, t, inputs + [o]);
    var h := o.txHash;
    OwnIsRemaining(u, t, inputs, h);
    SpendHere(u, t, inputs, o);
    SpendAllNormalised(u, t, inputs);
    SpendAllNormalised(u, t, inputs + [o]);
    forall k | k != h
      ensures VersionAt(r, k) == VersionAt(p, k)
    {
      SpendElsewhere(u, t, inputs, o, k);
    }
    var m := SpentInputs(u, t, inputs, h)[o.idx := t];
    assert o.idx in m;
    UpdatedVersion(p, r, h, Remaining(u, inputs, h) - {o.idx}, m);
  }

  lemma StoredOutsGrow(outputs: seq<Coin>, c: Coin)
    ensures StoredOuts(outputs + [c]) ==
      if c.amount != 0 then StoredOuts(outputs)[|outputs| := c] else StoredOuts(outputs)
  {
  }

  /** Creating one more output on top of those already created. */
  lemma PayStep(p: Patch, t: Hash, outputs: seq<Coin>, c: Coin)
    requires CanPay(p, t, outputs)
    ensures c.amount == 0 ==> CanPay(p, t, outputs + [c]) && Pay(p, t, outputs + [c]) == Pay(p, t, outputs)
    ensures c.amount != 0 ==>
      && (CanPay(p, t, outputs + [c]) <==> Create(Pay(p, t, outputs), t, |outputs|, c).Success?)
      && (CanPay(p, t, outputs + [c]) ==>
            Create(Pay(p, t, outputs), t, |outputs|, c) == Success(Pay(p, t, outputs + [c])))
  {
    StoredOutsGrow(outputs, c);
    if c.amount != 0 {
      var paid := Pay(p, t, outputs);
      var own := OwnOuts(p, t) + StoredOuts(outputs);
      assert (if t in paid.coins then paid.coins[t] else map[]) == own;
      assert own[|outputs| := c] == OwnOuts(p, t) + StoredOuts(outputs + [c]);
      assert StoredOuts(outputs + [c]) != map[] by { assert |outputs| in StoredOuts(outputs + [c]); }
      if CanPay(p, t, outputs + [c]) {
        assert |outputs| !in own;
        assert paid.coins[t := own[|outputs| := c]] == p.coins[t := own[|outputs| := c]];
      } else {
        assert |outputs| in OwnOuts(p, t);
      }
    }
  }

  lemma {:induction false} CannotPayMore(p: Patch, t: Hash, outputs: seq<Coin>, k: nat)
    requires k <= |outputs| && !CanPay(p, t, outputs[..k])
    ensures !CanPay(p, t, outputs)
  {
    forall i | i in StoredOuts(outputs[..k])
      ensures i in StoredOuts(outputs)
    {
    }
  }

  lemma AmountOutPrefix(outputs: seq<Coin>, k: nat)
    requires k < |outputs|
    ensures AmountOut(outputs[..k + 1]) == AmountOut(outputs[..k]) + outputs[k].amount
  {
    assert outputs[..k + 1][..k] == outputs[..k];
  }

  lemma {:induction false} TotalHasPrefix(u: Utxos, inputs: seq<OutPoint>, k: nat)
    requires k < |inputs| && Unspent(u, inputs[k])
    ensures TotalHas(u, inputs[..k + 1]) == TotalHas(u, inputs[..k]) + u[inputs[k].txHash][inputs[k].idx].amount
  {
    assert inputs[..k + 1][..k] == inputs[..k];
  }

  /** The first `k` inputs can be spent. */
  predicate SpendableSoFar(u: Utxos, tx: Tx, k: nat)
    requires k <= |tx.inputs|
  {
    Distinct(tx.inputs[..k]) && forall i :: 0 <= i < k ==> InputOk(u, tx, i)
  }

  lemma SpendableInputs(u: Utxos, tx: Tx, k: nat)
    requires k <= |tx.inputs| && SpendableSoFar(u, tx, k)
    ensures forall x :: x in tx.inputs[..k] ==> Unspent(u, x)
  {
    forall x | x in tx.inputs[..k]
      ensures Unspent(u, x)
    {
      var i :| 0 <= i < k && tx.inputs[..k][i] == x;
      assert InputOk(u, tx, i);
    }
  }

  lemma SpendableNext(u: Utxos, tx: Tx, k: nat)
    requires k < |tx.inputs| && SpendableSoFar(u, tx, k)
    ensures InputOk(u, tx, k) && tx.inputs[k] !in tx.inputs[..k] ==> SpendableSoFar(u, tx, k + 1)
    ensures !(InputOk(u, tx, k) && tx.inputs[k] !in tx.inputs[..k]) ==> !CanSpend(u, tx)
  {
    assert tx.inputs[..k + 1] == tx.inputs[..k] + [tx.inputs[k]];
    if tx.inputs[k] in tx.inputs[..k] {
      var j :| 0 <= j < k && tx.inputs[..k][j] == tx.inputs[k];
      assert tx.inputs[j] == tx.inputs[k];
    }
  }

  /** Spending input `k`, unspent before the transaction, after those before it. */
  lemma InputStep(u: Utxos, t: Hash, inputs: seq<OutPoint>, k: nat)
    requires k < |inputs| && Unspent(u, inputs[k]) && forall x :: x in inputs[..k] ==> Unspent(u, x)
    ensures var o := inputs[k];
      var spent := Spend(SpendAll(u, t, inputs[..k]), o.txHash, u[o.txHash], o.idx, t);
      && (o in inputs[..k] ==> spent.Failure?)
      && (o !in inputs[..k] ==> spent == Success(SpendAll(u, t, inputs[..k + 1])))
  {
    SpendStep(u, t, inputs[..k], inputs[k]);
    assert inputs[..k + 1] == inputs[..k] + [inputs[k]];
  }

  class Application {
    constructor () {
    }

    /** Spend input `k`, claimed by its owner, in `patch`; the coins it held. */
    method ProcessInput(t: Hash, tx: Tx, k: nat, patchForBlock: PatchDB, patch: PatchDB) returns (r: Result<nat>)
      requires patch != patchForBlock && k < |tx.inputs| && SpendableSoFar(patchForBlock.coins, tx, k)
      requires patch.Value() == SpendAll(patchForBlock.coins, t, tx.inputs[..k])
      modifies patch`coins, patch`spent
      ensures r.Success? <==> InputOk(patchForBlock.coins, tx, k) && tx.inputs[k] !in tx.inputs[..k]
      ensures r.Success? ==>
        && patch.Value() == SpendAll(patchForBlock.coins, t, tx.inputs[..k + 1])
        && TotalHas(patchForBlock.coins, tx.inputs[..k + 1]) == TotalHas(patchForBlock.coins, tx.inputs[..k]) + r.value
    {
      var input := tx.inputs[k];
      if input.txHash !in patchForBlock.coins { return Failure(UtxoNotFound); }
      var utxo := patchForBlock.coins[input.txHash];
      if input.idx !in utxo { return Failure(IndexAlreadySpent); }
      var coins := utxo[input.idx];
      if !Claims(tx, k, coins.receiver) { return Failure(ClaimFailed); }
      SpendableInputs(patchForBlock.coins, tx, k);
      InputStep(patchForBlock.coins, t, tx.inputs, k);
      TotalHasPrefix(patchForBlock.coins, tx.inputs, k);
      var spent := patch.SpendCoins(input.txHash, utxo, input.idx, t);
      return if spent.Failure? then Failure(spent.error) else Success(coins.amount);
    }

    /** The patch and the coins gathered by spending all inputs; `patchForBlock` is only read. */
    method ProcessTxInputs(t: Hash, tx: Tx, patchForBlock: PatchDB) returns (r: Result<(PatchDB, nat)>)
      ensures r.Success? <==> CanSpend(patchForBlock.Value().coins, tx)
      ensures r.Success? ==>
        && fresh(r.value.0) && r.value.0.Valid() && r.value.0.conciliumId == None
        && r.value.0.Value() == SpendAll(patchForBlock.Value().coins, t, tx.inputs)
        && r.value.1 == TotalHas(patchForBlock.Value().coins, tx.inputs)
    {
      var totalHas := 0;
      var patch := new PatchDB(None);
      for k := 0 to |tx.inputs|
        invariant fresh(patch) && patch.conciliumId == None
        invariant SpendableSoFar(patchForBlock.coins, tx, k)
        invariant patch.Value() == SpendAll(patchForBlock.coins, t, tx.inputs[..k])
        invariant totalHas == TotalHas(patchForBlock.coins, tx.inputs[..k])
      {
        SpendableNext(patchForBlock.coins, tx, k);
        var coins := ProcessInput(t, tx, k, patchForBlock, patch);
        if coins.Failure? { return Failure(coins.error); }
        totalHas := totalHas + coins.value;
      }
      assert tx.inputs[..|tx.inputs|] == tx.inputs;
      SpendableInputs(patchForBlock.coins, tx, |tx.inputs|);
      SpendAllNormalised(patchForBlock.coins, t, tx.inputs);
      return Success((patch, totalHas));
    }

    /** Create output `k` in `patch`, unless it is empty. */
    method ProcessOutput(t: Hash, tx: Tx, k: nat, patch: PatchDB, ghost p: Patch) returns (r: Result<()>)
      requires k < |tx.outputs| && CanPay(p, t, tx.outputs[..k]) && patch.Value() == Pay(p, t, tx.outputs[..k])
      modifies patch`coins
      ensures r.Success? <==> CanPay(p, t, tx.outputs[..k + 1])
      ensures r.Success? ==> patch.Value() == Pay(p, t, tx.outputs[..k + 1])
    {
      var coins := tx.outputs[k];
      PayStep(p, t, tx.outputs[..k], coins);
      assert tx.outputs[..k + 1] == tx.outputs[..k] + [coins];
      if coins.amount == 0 { return Success(()); }
      r := patch.CreateCoins(t, k, coins);
    }

    /** Create the non-zero outputs in `patch` and sum all of them. */
    method ProcessPayments(t: Hash, tx: Tx, patch: PatchDB) returns (r: Result<nat>)
      modifies patch`coins
      ensures r.Success? <==> CanPay(old(patch.Value()), t, tx.outputs)
      ensures r.Success? ==> patch.Value() == Pay(old(patch.Value()), t, tx.outputs) && r.value == AmountOut(tx.outputs)
      ensures r.Success? && old(patch.Valid()) ==> patch.Valid()
    {
      ghost var p := patch.Value();
      var totalSent := 0;
      for k := 0 to |tx.outputs|
        invariant CanPay(p, t, tx.outputs[..k]) && patch.Value() == Pay(p, t, tx.outputs[..k])
        invariant totalSent == AmountOut(tx.outputs[..k])
      {
        AmountOutPrefix(tx.outputs, k);
        var created := ProcessOutput(t, tx, k, patch, p);
        if created.Failure? {
          CannotPayMore(p, t, tx.outputs, k + 1);
          return Failure(created.error);
        }
        totalSent := totalSent + tx.outputs[k].amount;
      }
      assert tx.outputs[..|tx.outputs|] == tx.outputs;
      return Success(totalSent);
    }
  }

  /** Of the UTXOs `done`, those that are emptied and the versions of the others. */
  function Emptied(coins: Utxos, done: set<Hash>): set<Hash> {
    set h | h in done && h in coins && coins[h] == map[]
  }

  function Overwritten(coins: Utxos, done: set<Hash>): Utxos {
    map h | h in done && h in coins && coins[h] != map[] :: coins[h]
  }

  lemma OneMoreWritten(coins: Utxos, done: set<Hash>, h: Hash)
    requires h in coins
    ensures Emptied(coins, done + {h}) == Emptied(coins, done) + if coins[h] == map[] then {h} else {}
    ensures Overwritten(coins, done + {h}) ==
      if coins[h] == map[] then Overwritten(coins, done) else Overwritten(coins, done)[h := coins[h]]
  {
  }

  lemma AppliedAll(utxos: Utxos, s: Patch, puts: Utxos, dels: set<Hash>)
    requires puts == Overwritten(s.coins, s.coins.Keys) && dels == Emptied(s.coins, s.coins.Keys)
    ensures utxos + puts - dels == Apply(utxos, s)
  {
  }

  class Storage {
    var utxos: Utxos

    constructor (stored: Utxos)
      ensures utxos == stored
    {
      utxos := stored;
    }

    /** The stored UTXOs the inputs refer to. */
    method GetUtxosPatch(inputs: seq<OutPoint>) returns (patch: PatchDB)
      ensures fresh(patch) && patch.Valid() && patch.conciliumId == None
      ensures patch.Value() == StoredPatch(utxos, InputHashes(inputs))
    {
      patch := new PatchDB(None);
      for k := 0 to |inputs|
        invariant fresh(patch) && patch.conciliumId == None
        invariant patch.Value() == StoredPatch(utxos, InputHashes(inputs[..k]))
      {
        assert inputs[..k + 1] == inputs[..k] + [inputs[k]];
        assert InputHashes(inputs[..k + 1]) == InputHashes(inputs[..k]) + {inputs[k].txHash};
        if inputs[k].txHash in utxos {
          patch.SetUtxo(inputs[k].txHash, utxos[inputs[k].txHash]);
        }
      }
      assert inputs[..|inputs|] == inputs;
    }

    /** Overwrite what the patch has a version of; emptied UTXOs are deleted. */
    method ApplyPatch(patch: PatchDB)
      modifies this`utxos
      ensures utxos == Apply(old(utxos), patch.Value())
    {
      var puts: Utxos, dels: set<Hash> := map[], {};
      var todo := patch.coins.Keys;
      ghost var done: set<Hash> := {};
      while todo != {}
        invariant utxos == old(utxos) && todo <= patch.coins.Keys && done == patch.coins.Keys - todo
        invariant dels == Emptied(patch.coins, done) && puts == Overwritten(patch.coins, done)
        decreases todo
      {
        var h :| h in todo;
        OneMoreWritten(patch.coins, done, h);
        if patch.coins[h] == map[] {
          dels := dels + {h};
        } else {
          puts := puts[h := patch.coins[h]];
        }
        todo, done := todo - {h}, done + {h};
      }
      ghost var s := patch.Value();
      assert done == s.coins.Keys && puts == Overwritten(s.coins, done) && dels == Emptied(s.coins, done);
      AppliedAll(utxos, s, puts, dels);
      utxos := utxos + puts - dels;
    }
  }
}
