/** The unspent outputs of one transaction, kept in two parallel lists, against a map of outputs. */
module Utxo {
  import opened Wrappers
  import opened Collections
  import opened Ledger

  /** The map two parallel lists stand for. */
  function Paired(indexes: seq<nat>, outputs: seq<Coin>): Outs
    requires |indexes| == |outputs| && Distinct(indexes)
  {
    map k | 0 <= k < |indexes| :: indexes[k] := outputs[k]
  }

  lemma PairedAt(indexes: seq<nat>, outputs: seq<Coin>, k: nat)
    requires |indexes| == |outputs| && Distinct(indexes) && k < |indexes|
    ensures indexes[k] in Paired(indexes, outputs) && Paired(indexes, outputs)[indexes[k]] == outputs[k]
  {
  }

  lemma PairedKeys(indexes: seq<nat>, outputs: seq<Coin>)
    requires |indexes| == |outputs| && Distinct(indexes)
    ensures Paired(indexes, outputs).Keys == Indexes(indexes)
  {
  }

  lemma PairedPush(indexes: seq<nat>, outputs: seq<Coin>, i: nat, c: Coin)
    requires |indexes| == |outputs| && Distinct(indexes) && i !in indexes
    ensures Distinct(indexes + [i])
    ensures Paired(indexes + [i], outputs + [c]) == Paired(indexes, outputs)[i := c]
  {
    var was, now := Paired(indexes, outputs), Paired(indexes + [i], outputs + [c]);
    PairedAt(indexes + [i], outputs + [c], |indexes|);
    forall k | 0 <= k < |indexes|
      ensures indexes[k] in now && now[indexes[k]] == was[indexes[k]]
    {
      PairedAt(indexes, outputs, k);
      PairedAt(indexes + [i], outputs + [c], k);
    }
  }

  function Cut<X>(s: seq<X>, k: nat): seq<X>
    requires k < |s|
  {
    s[..k] + s[k + 1..]
  }

  lemma CutAt(indexes: seq<nat>, outputs: seq<Coin>, k: nat, j: nat)
    requires |indexes| == |outputs| && k < |indexes| && j < |indexes| - 1
    ensures var m := if j < k then j else j + 1;
      Cut(indexes, k)[j] == indexes[m] && Cut(outputs, k)[j] == outputs[m]
  {
  }

  lemma PairedCut(indexes: seq<nat>, outputs: seq<Coin>, k: nat)
    requires |indexes| == |outputs| && Distinct(indexes) && k < |indexes|
    ensures Distinct(Cut(indexes, k))
    ensures Paired(Cut(indexes, k), Cut(outputs, k)) == Paired(indexes, outputs) - {indexes[k]}
  {
    var rest, others := Cut(indexes, k), Cut(outputs, k);
    forall a, b | 0 <= a < b < |rest|
      ensures rest[a] != rest[b]
    {
      CutAt(indexes, outputs, k, a);
      CutAt(indexes, outputs, k, b);
    }
    var was, now := Paired(indexes, outputs), Paired(rest, others);
    forall j | 0 <= j < |rest|
      ensures rest[j] != indexes[k] && rest[j] in was && now[rest[j]] == was[rest[j]]
    {
      CutAt(indexes, outputs, k, j);
      PairedAt(rest, others, j);
      PairedAt(indexes, outputs, if j < k then j else j + 1);
    }
    forall m | 0 <= m < |indexes| && m != k
      ensures indexes[m] in now
    {
      var j := if m < k then m else m - 1;
      CutAt(indexes, outputs, k, j);
      PairedAt(rest, others, j);
    }
  }

  function Paying(u: Outs, address: Address): Outs {
    map i | i in u && u[i].receiver == address :: u[i]
  }

  predicate AgreeAt(u: Outs, w: Outs, i: nat) {
    i in u && i in w && u[i] == w[i]
  }

  lemma AgreeEverywhere(u: Outs, w: Outs, indexes: seq<nat>)
    requires u.Keys == w.Keys == Indexes(indexes)
    requires forall j :: 0 <= j < |indexes| ==> AgreeAt(u, w, indexes[j])
    ensures u == w
  {
    forall i | i in u
      ensures u[i] == w[i]
    {
      assert i in Indexes(indexes);
      var j :| 0 <= j < |indexes| && indexes[j] == i;
      assert AgreeAt(u, w, indexes[j]);
    }
  }

  function Indexes(s: seq<nat>): set<nat> {
    set i | i in s
  }

  lemma {:induction false} DistinctSize(s: seq<nat>)
    requires Distinct(s)
    ensures |Indexes(s)| == |s|
  {
    if s != [] {
      var init, last := s[..|s| - 1], s[|s| - 1];
      DistinctSize(init);
      assert last !in Indexes(init);
      assert s == init + [last];
      assert Indexes(s) == Indexes(init) + {last};
    }
  }

  /** The second list has as many elements, and all of them are in the first one. */
  predicate LooksEqual(a: seq<nat>, b: seq<nat>) {
    |a| == |b| && forall k :: 0 <= k < |b| ==> b[k] in a
  }

  /** Of two lists without repetition that tells whether they have the same elements. */
  lemma SameElements(a: seq<nat>, b: seq<nat>)
    requires Distinct(a) && Distinct(b)
    ensures LooksEqual(a, b) <==> Indexes(a) == Indexes(b)
  {
    DistinctSize(a);
    DistinctSize(b);
    if LooksEqual(a, b) {
      assert Indexes(b) <= Indexes(a);
      SubsetSize(Indexes(b), Indexes(a));
    }
    if Indexes(a) == Indexes(b) {
      forall k | 0 <= k < |b|
        ensures b[k] in a
      {
        assert b[k] in Indexes(b);
      }
    }
  }

  /** With a repetition it does not. */
  lemma RepetitionLooksEqual()
    ensures LooksEqual([1, 2], [1, 1]) && Indexes([1, 2]) != Indexes([1, 1])
  {
    assert 2 in Indexes([1, 2]);
  }

  /** As many elements, and all of the second among the first. */
  method ArrayEquals(a: seq<nat>, b: seq<nat>) returns (same: bool)
    ensures same <==> LooksEqual(a, b)
    ensures Distinct(a) && Distinct(b) ==> (same <==> Indexes(a) == Indexes(b))
  {
    var common := 0;
    for k := 0 to |b|
      invariant common <= k && (common == k <==> forall j :: 0 <= j < k ==> b[j] in a)
    {
      if b[k] in a { common := common + 1; }
    }
    if Distinct(a) && Distinct(b) { SameElements(a, b); }
    return |a| == |b| && common == |a|;
  }

  /** Of the outputs at `indexes`, those that pay `address`. */
  function PayingOf(u: Outs, indexes: seq<nat>, address: Address): Outs {
    map i | i in indexes && i in u && u[i].receiver == address :: u[i]
  }

  lemma PayingOneMore(u: Outs, indexes: seq<nat>, k: nat, address: Address)
    requires Distinct(indexes) && k < |indexes| && indexes[k] in u
    ensures indexes[k] !in PayingOf(u, indexes[..k], address)
    ensures PayingOf(u, indexes[..k + 1], address) ==
      if u[indexes[k]].receiver == address
      then PayingOf(u, indexes[..k], address)[indexes[k] := u[indexes[k]]]
      else PayingOf(u, indexes[..k], address)
  {
    assert indexes[..k + 1] == indexes[..k] + [indexes[k]];
  }

  lemma PayingAll(u: Outs, indexes: seq<nat>, address: Address)
    requires u.Keys == Indexes(indexes)
    ensures PayingOf(u, indexes[..|indexes|], address) == Paying(u, address)
  {
    assert indexes[..|indexes|] == indexes;
    assert forall i :: i in u <==> i in Indexes(indexes);
  }

  class UTXO {
    const txHash: Hash
    var arrIndexes: seq<nat>
    var arrOutputs: seq<Coin>

    predicate Valid()
      reads this
    {
      |arrIndexes| == |arrOutputs| && Distinct(arrIndexes)
    }

    function Value(): Outs
      requires Valid()
      reads this
    {
      Paired(arrIndexes, arrOutputs)
    }

    constructor (hash: Hash)
      ensures Valid() && Value() == map[] && txHash == hash
    {
      txHash := hash;
      arrIndexes, arrOutputs := [], [];
    }

    /** All outputs are spent; throws when the lists do not match. */
    method IsEmpty() returns (r: Result<bool>)
      ensures r.Success? <==> |arrIndexes| == |arrOutputs|
      ensures Valid() ==> r == Success(Value() == map[])
    {
      if |arrIndexes| != |arrOutputs| { return Failure(Malformed); }
      if |arrIndexes| > 0 { assert Valid() ==> arrIndexes[0] in Value(); }
      return Success(|arrIndexes| == 0);
    }

    method FindIndex(i: nat) returns (k: int)
      ensures -1 <= k < |arrIndexes|
      ensures k == -1 <==> i !in arrIndexes
      ensures k >= 0 ==> arrIndexes[k] == i
    {
      for j := 0 to |arrIndexes|
        invariant i !in arrIndexes[..j]
      {
        if arrIndexes[j] == i { return j; }
      }
      return -1;
    }

    method AddCoins(i: nat, c: Coin) returns (r: Result<()>)
      requires Valid()
      modifies this
      ensures Valid()
      ensures r.Success? <==> i !in old(Value())
      ensures Value() == if i in old(Value()) then old(Value()) else old(Value())[i := c]
    {
      var k := FindIndex(i);
      if k >= 0 { return Failure(IndexAlreadyAdded); }
      PairedPush(arrIndexes, arrOutputs, i, c);
      arrOutputs := arrOutputs + [c];
      arrIndexes := arrIndexes + [i];
      return Success(());
    }

    method SpendCoins(i: nat) returns (r: Result<()>)
      requires Valid()
      modifies this
      ensures Valid()
      ensures r.Success? <==> i in old(Value())
      ensures Value() == old(Value()) - {i}
    {
      var k := FindIndex(i);
      if k < 0 {
        assert i !in Value() && Value() - {i} == Value();
        return Failure(IndexAlreadySpent);
      }
      PairedCut(arrIndexes, arrOutputs, k);
      arrIndexes := Cut(arrIndexes, k);
      arrOutputs := Cut(arrOutputs, k);
      return Success(());
    }

    method CoinsAtIndex(i: nat) returns (r: Result<Coin>)
      requires Valid()
      ensures r == if i in Value() then Success(Value()[i]) else Failure(IndexAlreadySpent)
    {
      var k := FindIndex(i);
      if k < 0 { return Failure(IndexAlreadySpent); }
      PairedAt(arrIndexes, arrOutputs, k);
      return Success(arrOutputs[k]);
    }

    /** Same indexes, counted and looked up rather than compared in order, and the same coins at each. */
    method Equals(utxo: UTXO) returns (b: bool)
      requires Valid() && utxo.Valid()
      ensures b <==> Value() == utxo.Value()
    {
      var same := ArrayEquals(arrIndexes, utxo.arrIndexes);
      PairedKeys(arrIndexes, arrOutputs);
      PairedKeys(utxo.arrIndexes, utxo.arrOutputs);
      if !same { return false; }
      for k := 0 to |arrIndexes|
        invariant forall j :: 0 <= j < k ==> AgreeAt(Value(), utxo.Value(), arrIndexes[j])
      {
        var mine := CoinsAtIndex(arrIndexes[k]);
        var his := utxo.CoinsAtIndex(arrIndexes[k]);
        assert arrIndexes[k] in Indexes(arrIndexes);
        if mine != his { return false; }
      }
      AgreeEverywhere(Value(), utxo.Value(), arrIndexes);
      return true;
    }

    method AmountOut() returns (total: nat)
      requires Valid()
      ensures total == Ledger.AmountOut(arrOutputs)
    {
      total := 0;
      for k := 0 to |arrIndexes|
        invariant total == Ledger.AmountOut(arrOutputs[..k])
      {
        var c := CoinsAtIndex(arrIndexes[k]);
        PairedAt(arrIndexes, arrOutputs, k);
        assert arrOutputs[..k + 1][..k] == arrOutputs[..k];
        total := total + c.value.amount;
      }
      assert arrOutputs[..|arrIndexes|] == arrOutputs;
    }

    /** A new UTXO with the outputs that pay `address`. */
    method FilterOutputsForAddress(address: Address) returns (filtered: UTXO)
      requires Valid()
      ensures fresh(filtered) && filtered.Valid() && filtered.txHash == txHash
      ensures filtered.Value() == Paying(Value(), address)
    {
      filtered := new UTXO(txHash);
      for k := 0 to |arrIndexes|
        invariant fresh(filtered) && filtered.Valid() && filtered.txHash == txHash
        invariant filtered.Value() == PayingOf(Value(), arrIndexes[..k], address)
      {
        var c := CoinsAtIndex(arrIndexes[k]);
        PayingOneMore(Value(), arrIndexes, k, address);
        if c.value.receiver == address {
          var added := filtered.AddCoins(arrIndexes[k], c.value);
        }
      }
      PairedKeys(arrIndexes, arrOutputs);
      PayingAll(Value(), arrIndexes, address);
    }
  }
}
