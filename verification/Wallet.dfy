/** The wallet's index of UTXOs by address, against a scan of the whole table. */
module Wallet {
  import opened Wrappers
  import opened Ledger
  import opened Patches
  import opened PatchDb
  import opened App
  import opened Utxo

  /** Index records are keyed by address and a number that is never used twice. */
  datatype Key = Key(addr: Address, n: nat)

  ghost predicate Indexed(records: map<Key, Hash>, a: Address, h: Hash) {
    exists n :: Key(a, n) in records && records[Key(a, n)] == h
  }

  /** What a scan of the table finds for an address. */
  function FullScan(utxos: Utxos, a: Address): map<Hash, Outs> {
    map h | h in utxos && Paying(utxos[h], a) != map[] :: Paying(utxos[h], a)
  }

  /** The address is paid somewhere in the table only where the index says so. */
  ghost predicate Covers(records: map<Key, Hash>, utxos: Utxos, a: Address) {
    forall h :: h in FullScan(utxos, a) ==> Indexed(records, a, h)
  }

  /** `listed` is the finding `scan`, each UTXO once. */
  ghost predicate Lists(listed: seq<(Hash, Outs)>, scan: map<Hash, Outs>) {
    && (forall j, k :: 0 <= j < k < |listed| ==> listed[j].0 != listed[k].0)
    && (forall k :: 0 <= k < |listed| ==> listed[k].0 in scan && listed[k].1 == scan[listed[k].0])
    && (forall h :: h in scan ==> (h, scan[h]) in listed)
  }

  lemma AppliedScan(utxos: Utxos, s: Patch, a: Address, h: Hash)
    requires h in FullScan(Apply(utxos, s), a)
    ensures if h in s.coins then h in FullScan(s.coins, a) else h in FullScan(utxos, a)
  {
  }

  /** Old records and those of a patch together cover the table the patch is written to. */
  lemma StaysCovered(was: map<Key, Hash>, records: map<Key, Hash>, utxos: Utxos, s: Patch, a: Address)
    requires Covers(was, utxos, a) && Covers(records, s.coins, a)
    requires forall k :: k in was ==> k in records && records[k] == was[k]
    ensures Covers(records, Apply(utxos, s), a)
  {
    forall h | h in FullScan(Apply(utxos, s), a)
      ensures Indexed(records, a, h)
    {
      AppliedScan(utxos, s, a, h);
      if h !in s.coins { StaysIndexed(was, records, a, h); }
    }
  }

  function Known(scan: map<Hash, Outs>, hashes: set<Hash>): map<Hash, Outs> {
    map h | h in scan && h in hashes :: scan[h]
  }

  /** `listed` is what the records `done` lead to, and `bad` are those among them that are not needed. */
  ghost predicate Searched(records: map<Key, Hash>, scan: map<Hash, Outs>, done: set<Key>, hashes: set<Hash>,
                           listed: seq<(Hash, Outs)>, bad: set<Key>)
    requires done <= records.Keys
  {
    && bad <= done
    && (forall h :: h in hashes <==> exists k :: k in done && records[k] == h)
    && Lists(listed, Known(scan, hashes))
    && (forall h :: h in hashes && h in scan ==> exists k :: k in done && k !in bad && records[k] == h)
    && (forall k :: k in done - bad ==> records[k] in scan)
    && (forall k, l :: k in done - bad && l in done - bad && records[k] == records[l] ==> k == l)
  }

  /** A record that leads to a UTXO of the address for the first time. */
  lemma SearchedLive(records: map<Key, Hash>, scan: map<Hash, Outs>, done: set<Key>, hashes: set<Hash>,
                     listed: seq<(Hash, Outs)>, bad: set<Key>, key: Key)
    requires done <= records.Keys && key in records && key !in done
    requires Searched(records, scan, done, hashes, listed, bad)
    requires records[key] !in hashes && records[key] in scan
    ensures Searched(records, scan, done + {key}, hashes + {records[key]},
                     listed + [(records[key], scan[records[key]])], bad)
  {
    var h := records[key];
    assert key in done + {key} && key !in bad;
    assert Lists(listed + [(h, scan[h])], Known(scan, hashes + {h})) by {
      assert (h, scan[h]) in listed + [(h, scan[h])];
      assert Known(scan, hashes + {h}) == Known(scan, hashes)[h := scan[h]];
    }
  }

  /** A record that leads to a known UTXO, or to none of the address. */
  lemma SearchedBad(records: map<Key, Hash>, scan: map<Hash, Outs>, done: set<Key>, hashes: set<Hash>,
                    listed: seq<(Hash, Outs)>, bad: set<Key>, key: Key)
    requires done <= records.Keys && key in records && key !in done
    requires Searched(records, scan, done, hashes, listed, bad)
    requires records[key] in hashes || records[key] !in scan
    ensures Searched(records, scan, done + {key}, hashes + {records[key]}, listed, bad + {key})
  {
    assert Known(scan, hashes + {records[key]}) == Known(scan, hashes);
    forall h | h in hashes && h in scan
      ensures exists k :: k in done + {key} && k !in bad + {key} && records[k] == h
    {
      var k :| k in done && k !in bad && records[k] == h;
      assert k in done + {key};
    }
  }

  /** Cleaning up after one address keeps what covers it and every other. */
  lemma StaysClean(was: map<Key, Hash>, records: map<Key, Hash>, scan: map<Hash, Outs>, a: Address, hashes: set<Hash>,
                   bad: set<Key>, b: Address, h: Hash)
    requires records == was - bad && forall k :: k in bad ==> k.addr == a
    requires Indexed(was, b, h)
    requires b == a ==> h in scan
    requires forall g :: g in hashes <==> Indexed(was, a, g)
    requires forall g :: g in hashes && g in scan ==> Indexed(records, a, g)
    ensures Indexed(records, b, h)
  {
    if b != a {
      var n :| Key(b, n) in was && was[Key(b, n)] == h;
      assert Key(b, n) in records && records[Key(b, n)] == h;
    }
  }

  lemma StaysIndexed(a: map<Key, Hash>, b: map<Key, Hash>, addr: Address, h: Hash)
    requires Indexed(a, addr, h) && forall k :: k in a ==> k in b && b[k] == a[k]
    ensures Indexed(b, addr, h)
  {
    var n :| Key(addr, n) in a && a[Key(addr, n)] == h;
    assert b[Key(addr, n)] == h;
  }

  /** The records of an address lead to UTXOs of the scan, each to its own. */
  ghost predicate Clean(records: map<Key, Hash>, scan: map<Hash, Outs>, a: Address) {
    && (forall k :: k in records && k.addr == a ==> records[k] in scan)
    && (forall k, l :: k in records && l in records && k.addr == l.addr == a && records[k] == records[l] ==> k == l)
  }

  /** All records of an address have been followed. */
  lemma SearchEnds(records: map<Key, Hash>, scan: map<Hash, Outs>, a: Address, all: set<Key>, hashes: set<Hash>,
                   listed: seq<(Hash, Outs)>, bad: set<Key>)
    requires all <= records.Keys && Searched(records, scan, all, hashes, listed, bad)
    requires forall k :: k in all <==> k in records && k.addr == a
    ensures forall h :: h in hashes <==> Indexed(records, a, h)
    ensures forall h :: h in hashes && h in scan ==> Indexed(records - bad, a, h)
    ensures Clean(records - bad, scan, a)
  {
    forall h
      ensures h in hashes <==> Indexed(records, a, h)
    {
      if Indexed(records, a, h) {
        var n :| Key(a, n) in records && records[Key(a, n)] == h;
        assert Key(a, n) in all;
      }
      if h in hashes {
        var k :| k in all && records[k] == h;
        assert k == Key(a, k.n);
      }
    }
    forall h | h in hashes && h in scan
      ensures Indexed(records - bad, a, h)
    {
      var k :| k in all && k !in bad && records[k] == h;
      assert k == Key(a, k.n) && k in records - bad;
    }
  }

  class WalletIndex {
    const storage: Storage
    var records: map<Key, Hash>
    var autoincrement: nat
    var addresses: seq<Address>
    var walletSupport: bool
    /** Addresses indexed by the last reindexing. */
    ghost var covered: set<Address>

    ghost predicate Valid()
      reads this, storage
    {
      && (forall k :: k in records ==> k.n <= autoincrement)
      && (covered != {} ==> walletSupport)
      && (forall a :: a in covered ==> a in addresses && Covers(records, storage.utxos, a))
    }

    constructor (s: Storage, watched: seq<Address>, support: bool)
      ensures Valid() && storage == s && addresses == watched && covered == {}
    {
      storage, records, autoincrement, addresses, walletSupport, covered := s, map[], 0, watched, support, {};
    }

    /** Add a record for each pair of a hash and an address. */
    method WalletWriteNewUtxosBatch(pairs: seq<(Hash, Address)>)
      requires forall k :: k in records ==> k.n <= autoincrement
      modifies this`records, this`autoincrement
      ensures forall k :: k in records ==> k.n <= autoincrement
      ensures forall k :: k in old(records) ==> k in records && records[k] == old(records)[k]
      ensures forall p :: p in pairs ==> Indexed(records, p.1, p.0)
    {
      for i := 0 to |pairs|
        invariant forall k :: k in records ==> k.n <= autoincrement
        invariant forall k :: k in old(records) ==> k in records && records[k] == old(records)[k]
        invariant forall j :: 0 <= j < i ==> Indexed(records, pairs[j].1, pairs[j].0)
      {
        ghost var was := records;
        var (hash, addr) := pairs[i];
        autoincrement := autoincrement + 1;
        records := records[Key(addr, autoincrement) := hash];
        assert Indexed(records, addr, hash) by { assert records[Key(addr, autoincrement)] == hash; }
        forall j | 0 <= j < i
          ensures Indexed(records, pairs[j].1, pairs[j].0)
        {
          StaysIndexed(was, records, pairs[j].1, pairs[j].0);
        }
      }
    }

    /** The addresses of the wallet that a UTXO pays, each with its hash. */
    method WalletPairs(h: Hash, utxo: Outs) returns (pairs: seq<(Hash, Address)>)
      ensures forall a :: (h, a) in pairs <==> a in addresses && Paying(utxo, a) != map[]
      ensures forall p :: p in pairs ==> p.0 == h
    {
      pairs := [];
      for i := 0 to |addresses|
        invariant forall a :: (h, a) in pairs <==> a in addresses[..i] && Paying(utxo, a) != map[]
        invariant forall p :: p in pairs ==> p.0 == h
      {
        assert addresses[..i + 1] == addresses[..i] + [addresses[i]];
        if Paying(utxo, addresses[i]) != map[] {
          pairs := pairs + [(h, addresses[i])];
        }
      }
      assert addresses[..|addresses|] == addresses;
    }

    /** Index the UTXOs of `coins`. */
    method WalletCheckUtxos(coins: Utxos)
      requires forall k :: k in records ==> k.n <= autoincrement
      modifies this`records, this`autoincrement
      ensures forall k :: k in records ==> k.n <= autoincrement
      ensures forall k :: k in old(records) ==> k in records && records[k] == old(records)[k]
      ensures forall a :: a in addresses ==> Covers(records, coins, a)
    {
      var pairs: seq<(Hash, Address)> := [];
      var todo := coins.Keys;
      while todo != {}
        invariant todo <= coins.Keys && records == old(records) && autoincrement == old(autoincrement)
        invariant forall h, a :: h in coins && h !in todo && a in addresses && Paying(coins[h], a) != map[] ==>
          (h, a) in pairs
        decreases todo
      {
        var h :| h in todo;
        if coins[h] != map[] {
          var more := WalletPairs(h, coins[h]);
          pairs := pairs + more;
        }
        todo := todo - {h};
      }
      WalletWriteNewUtxosBatch(pairs);
      forall a, h | a in addresses && h in FullScan(coins, a)
        ensures Indexed(records, a, h)
      {
        assert (h, a) in pairs;
      }
    }

    method ApplyPatch(patch: PatchDB)
      requires Valid()
      modifies this`records, this`autoincrement, storage
      ensures Valid() && storage.utxos == Apply(old(storage.utxos), patch.Value())
    {
      ghost var was, utxos, s := records, storage.utxos, patch.Value();
      if walletSupport { WalletCheckUtxos(patch.coins); }
      assert forall a :: a in covered ==> Covers(was, utxos, a) && Covers(records, s.coins, a);
      storage.ApplyPatch(patch);
      forall a | a in covered
        ensures Covers(records, storage.utxos, a)
      {
        StaysCovered(was, records, utxos, s, a);
      }
    }

    /**
      The UTXOs of an address as the index knows them, and a clean index: one record for each
      of them. For an address that is covered this is what a scan of the table finds.
     */
    method WalletListUnspent(a: Address) returns (r: Result<seq<(Hash, Outs)>>)
      requires Valid()
      modifies this`records
      ensures Valid() && (r.Success? <==> a in addresses)
      ensures r.Failure? ==> records == old(records)
      ensures r.Success? && a in covered ==> Lists(r.value, FullScan(storage.utxos, a))
      ensures r.Success? ==> exists hashes ::
        && (forall h :: h in hashes <==> Indexed(old(records), a, h))
        && Lists(r.value, Known(FullScan(storage.utxos, a), hashes))
      ensures forall k :: k in records ==> k in old(records) && records[k] == old(records)[k]
      ensures forall k :: k in old(records) && k.addr != a ==> k in records
      ensures r.Success? ==> Clean(records, FullScan(storage.utxos, a), a)
    {
      if a !in addresses { return Failure(WrongAddress); }
      var listed, bad, hashes := SearchRecords(a);
      ghost var was := records;
      records := records - bad;
      forall b, h | b in covered && h in FullScan(storage.utxos, b)
        ensures Indexed(records, b, h)
      {
        StaysClean(was, records, FullScan(storage.utxos, a), a, hashes, bad, b, h);
      }
      if a in covered {
        assert Known(FullScan(storage.utxos, a), hashes) == FullScan(storage.utxos, a);
      }
      return Success(listed);
    }

    /** Follow the records of an address. */
    method SearchRecords(a: Address) returns (listed: seq<(Hash, Outs)>, bad: set<Key>, ghost hashes: set<Hash>)
      ensures bad <= records.Keys && forall k :: k in bad ==> k.addr == a
      ensures forall h :: h in hashes <==> Indexed(records, a, h)
      ensures Lists(listed, Known(FullScan(storage.utxos, a), hashes))
      ensures forall h :: h in hashes && h in FullScan(storage.utxos, a) ==> Indexed(records - bad, a, h)
      ensures Clean(records - bad, FullScan(storage.utxos, a), a)
    {
      ghost var scan := FullScan(storage.utxos, a);
      listed, bad := [], {};
      var setHashes: set<Hash> := {};
      var keys := set k | k in records && k.addr == a;
      ghost var all, done := keys, {};
      while keys != {}
        invariant done + keys == all && done !! keys && done <= records.Keys
        invariant Searched(records, scan, done, setHashes, listed, bad)
        decreases keys
      {
        var key :| key in keys;
        var hash := records[key];
        if hash !in setHashes && hash in storage.utxos && Paying(storage.utxos[hash], a) != map[] {
          SearchedLive(records, scan, done, setHashes, listed, bad, key);
          listed := listed + [(hash, Paying(storage.utxos[hash], a))];
        } else {
          SearchedBad(records, scan, done, setHashes, listed, bad, key);
          bad := bad + {key};
        }
        setHashes := setHashes + {hash};
        keys, done := keys - {key}, done + {key};
      }
      hashes := setHashes;
      assert done == all;
      SearchEnds(records, scan, a, all, hashes, listed, bad);
    }

    method WalletWatchAddress(a: Address) returns (ok: bool)
      requires Valid()
      modifies this`addresses
      ensures Valid() && (ok <==> a !in old(addresses))
      ensures addresses == if ok then old(addresses) + [a] else old(addresses)
    {
      ok := a !in addresses;
      if ok { addresses := addresses + [a]; }
    }

    /** Forget the index and build it from the table: all addresses of the wallet are covered. */
    method WalletReIndex()
      requires Valid()
      modifies this`records, this`autoincrement, this`walletSupport, this`covered
      ensures Valid() && walletSupport && covered == set a | a in addresses
    {
      walletSupport := true;
      records := map[];
      WalletCheckUtxos(storage.utxos);
      covered := set a | a in addresses;
    }
  }
}
