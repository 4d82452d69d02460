/** Closing a block: the coinbase that pays the fees to the foundation and the creator. */
module BlockBuilding {
  import opened Wrappers
  import opened Ledger
  import opened Patches
  import opened Refinement
  import opened Execution

  /** The foundation's share is one part in ten, rounded down. */
  const DEV_FOUNDATION_PARTS: nat := 10
  const DEV_FOUNDATION_ADDRESS: Address := 0x961d7815df8cc96d27aa2c483f55c6c163682775

  /** What the foundation gets: its share, unless that is less than twice the least useful amount. */
  function DevFee(fees: nat, minUseful: nat): (dev: nat)
    ensures dev * 10 <= fees
    ensures dev == 0 || (dev >= minUseful * 2 && fees < (dev + 1) * 10)
    ensures dev == 0 ==> fees < 10 || fees < minUseful * 20
  {
    var share := fees / DEV_FOUNDATION_PARTS;
    if share >= minUseful * 2 then share else 0
  }

  /** Pay `amount` to `a`; `creator` is only who the contract accounts for. */
  method AddReceiver(outputs: seq<Coin>, amount: nat, a: Address, ghost creator: Address) returns (more: seq<Coin>)
    ensures more == outputs + [Coin(amount, a)]
    ensures AmountOut(more) == AmountOut(outputs) + amount
    ensures PaidTo(more, creator) == PaidTo(outputs, creator) + if a == creator then amount else 0
    ensures PaidTo(more, DEV_FOUNDATION_ADDRESS) ==
      PaidTo(outputs, DEV_FOUNDATION_ADDRESS) + if a == DEV_FOUNDATION_ADDRESS then amount else 0
  {
    more := outputs + [Coin(amount, a)];
    assert more[..|outputs|] == outputs;
  }

  function PaidTo(outputs: seq<Coin>, a: Address): nat {
    if outputs == [] then 0
    else
      var last := outputs[|outputs| - 1];
      PaidTo(outputs[..|outputs| - 1], a) + if last.receiver == a then last.amount else 0
  }

  /** A coinbase that pays the fees out, no more and no less, and only to the foundation and the creator. */
  ghost predicate IsClosing(tx: Tx, cid: nat, fees: nat, creator: Address, minUseful: nat) {
    && tx.conciliumId == cid && IsCoinbase(tx)
    && AmountOut(tx.outputs) == fees
    && (fees == 0 ==> tx.outputs == [])
    && PaidTo(tx.outputs, DEV_FOUNDATION_ADDRESS) >= DevFee(fees, minUseful)
    && PaidTo(tx.outputs, creator) >= fees - DevFee(fees, minUseful)
    && (creator != DEV_FOUNDATION_ADDRESS ==>
          && PaidTo(tx.outputs, DEV_FOUNDATION_ADDRESS) == DevFee(fees, minUseful)
          && PaidTo(tx.outputs, creator) == fees - DevFee(fees, minUseful))
  }

  class Block {
    const conciliumId: nat
    var txns: seq<Tx>
    var building: bool
    var final: bool

    constructor (id: nat)
      ensures conciliumId == id && txns == [] && building && !final
    {
      conciliumId := id;
      txns, building, final := [], true, false;
    }

    method AddTx(tx: Tx) returns (ok: bool)
      modifies this`txns
      ensures ok <==> !final
      ensures txns == if final then old(txns) else old(txns) + [tx]
    {
      ok := !final;
      if ok { txns := txns + [tx]; }
    }

    predicate IsEmpty()
      reads this
    {
      |txns| == 1 && IsCoinbase(txns[0])
    }

    /** Prepend the coinbase; `salt` is the random receiver that makes its hash unique. */
    method Finish(fees: int, creator: Address, minUseful: nat, salt: Address) returns (ok: bool)
      modifies this
      ensures ok <==> fees >= 0
      ensures !ok ==> txns == old(txns) && final == old(final)
      ensures ok ==> final && |txns| > 0 && txns[1..] == old(txns)
      ensures ok ==> IsClosing(txns[0], conciliumId, fees, creator, minUseful)
    {
      building := false;
      if fees < 0 { return false; }
      var outputs: seq<Coin> := [];
      if fees > 0 {
        var dev := fees / DEV_FOUNDATION_PARTS;
        if dev >= minUseful * 2 {
          outputs := AddReceiver(outputs, dev, DEV_FOUNDATION_ADDRESS, creator);
        } else {
          dev := 0;
        }
        outputs := AddReceiver(outputs, fees - dev, creator, creator);
        outputs := AddReceiver(outputs, 0, salt, creator);
        assert dev == DevFee(fees, minUseful);
      }
      var coinbase := Tx(conciliumId, [OutPoint(ZERO_HASH, 0)], outputs, [], None);
      txns := [coinbase] + txns;
      final := true;
      return true;
    }
  }

  /** A block whose transfers execute, closed with the fees they paid, executes. */
  lemma {:induction false} FinishedBlockExecutes(T: TxTable, S: set<Hash>, L: Utxos, D: set<Hash>, p: Patch, c: Hash,
                                                 rest: seq<Hash>,
                                                 cid: nat, sizeFee: Hash -> nat, creator: Address, minUseful: nat)
    requires Stored(T, S, L) && Represents(T, S, D, p)
    requires c in T && FreshOutputs(T, D, c)
    requires ExecTxs(T, L, p, rest, cid, sizeFee).Some?
    requires IsClosing(T[c], cid, ExecTxs(T, L, p, rest, cid, sizeFee).value.1, creator, minUseful)
    ensures ExecBlock(T, L, p, [c] + rest, cid, sizeFee).Some?
  {
    var r, l := ExecTxs(T, L, p, rest, cid, sizeFee), ApplyTxs(T, Denote(T, D), rest, cid, sizeFee);
    assert ([c] + rest)[1..] == rest;
    ExecTxsAgree(T, S, L, D, p, rest, cid, sizeFee);
    TransfersOnly(T, D, rest, cid, sizeFee);
    CloseAgrees(T, S, D + Executed(rest), c, r, l);
  }
}
