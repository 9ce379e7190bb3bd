/** Decryption keys arriving from the keypers. */
module KeyMessages {
  import opened Types
  import opened Hex
  import opened StoreModel
  import opened TxStore

  datatype Key = Key(identityPreimage: Bytes, key: Bytes)

  datatype Message = DecryptionKeys(eon: uint64, keys: seq<Key>) | OtherMessage

  datatype Validation = Accept | RejectUnknownType | RejectEonOverflow | RejectNoKeys

  function ValidateMessage(msg: Message): (v: Validation)
    ensures v.Accept? <==> msg.DecryptionKeys? && ToInt64(msg.eon) == msg.eon && msg.keys != []
    ensures v.RejectUnknownType? <==> msg.OtherMessage?
    ensures v.RejectEonOverflow? <==> msg.DecryptionKeys? && msg.eon >= TWO_TO_THE_63
  {
    if msg.OtherMessage? then RejectUnknownType
    else if msg.eon > TWO_TO_THE_63 - 1 then RejectEonOverflow
    else if |msg.keys| == 0 then RejectNoKeys
    else Accept
  }

  /** What the lookup for a key may find: some record with its identity, if there is any. */
  ghost predicate IsPick(m: Store, k: Key, pick: Option<Hash>) {
    var matching := WithIdentity(m, Encode(k.identityPreimage));
    match pick
    case None => matching == {}
    case Some(h) => h in matching
  }

  ghost predicate IsPicks(m: Store, keys: seq<Key>, picks: seq<Option<Hash>>) {
    |picks| == |keys| && forall i :: 0 <= i < |keys| ==> IsPick(m, keys[i], picks[i])
  }

  function KeyOps(m: Store, keys: seq<Key>, picks: seq<Option<Hash>>): seq<Op>
    requires |picks| == |keys| && forall i :: 0 <= i < |picks| && picks[i].Some? ==> picks[i].value in m
  {
    if keys == [] then [] else
    var last := |keys| - 1;
    KeyOps(m, keys[..last], picks[..last])
    + match picks[last]
      case None => []
      case Some(h) => [SetKey(h, keys[last].key), SetStatus(Target(m, h), Decrypted)]
  }

  /** The key that stands at the end of a message for an identity. */
  function LastKeyFor(keys: seq<Key>, identity: string): Option<Bytes> {
    if keys == [] then None else
    var k := keys[|keys| - 1];
    if Encode(k.identityPreimage) == identity then Some(k.key) else LastKeyFor(keys[..|keys| - 1], identity)
  }

  function AfterKey(r: Record, key: Option<Bytes>): Record {
    match key
    case None => r
    case Some(k) => r.(tx := r.tx.(decryptionKey := k), status := Decrypted)
  }

  function HandleKeys(m: Store, keys: seq<Key>): Store {
    map h | h in m :: AfterKey(m[h], LastKeyFor(keys, m[h].tx.identity))
  }

  lemma LastKeyStep(keys: seq<Key>, k: Key, identity: string)
    ensures LastKeyFor(keys + [k], identity) ==
            if Encode(k.identityPreimage) == identity then Some(k.key) else LastKeyFor(keys, identity)
  {
    assert (keys + [k])[..|keys|] == keys;
  }

  /** The two writes for a key, on the record they reach and on the others. */
  function DeliverTo(m: Store, h: Hash, key: Bytes): Store
    requires h in m
  {
    m[h := AfterKey(m[h], Some(key))]
  }

  lemma TwoWritesDeliver(m: Store, h: Hash, key: Bytes)
    requires h in m
    ensures Apply(Apply(m, SetKey(h, key)), SetStatus(h, Decrypted)) == DeliverTo(m, h, key)
  {
  }

  lemma OneKey(m: Store, keys: seq<Key>, pick: Option<Hash>, k: Key)
    requires DistinctIdentities(m) && IsPick(m, k, pick)
    ensures HandleKeys(m, keys + [k]) ==
            match pick
            case None => HandleKeys(m, keys)
            case Some(h) => DeliverTo(HandleKeys(m, keys), h, k.key)
  {
    forall h | h in m
      ensures LastKeyFor(keys + [k], m[h].tx.identity) ==
              if h in WithIdentity(m, Encode(k.identityPreimage)) then Some(k.key)
              else LastKeyFor(keys, m[h].tx.identity)
    {
      LastKeyStep(keys, k, m[h].tx.identity);
    }
  }

  /**
   With distinct identities every iteration order gives the same store: each record takes the last
   key of the message for its identity and becomes `Decrypted`, and all others stay as they were.
   */
  lemma {:induction false} PicksDoNotMatter(m: Store, keys: seq<Key>, picks: seq<Option<Hash>>)
    requires KeysMatch(m) && DistinctIdentities(m) && IsPicks(m, keys, picks)
    ensures ApplyAll(m, KeyOps(m, keys, picks)) == HandleKeys(m, keys)
  {
    if keys != [] {
      var last := |keys| - 1;
      PicksDoNotMatter(m, keys[..last], picks[..last]);
      assert keys == keys[..last] + [keys[last]];
      OneKey(m, keys[..last], picks[last], keys[last]);
      var before := KeyOps(m, keys[..last], picks[..last]);
      match picks[last] {
        case None =>
          assert KeyOps(m, keys, picks) == before;
        case Some(h) =>
          var ops := [SetKey(h, keys[last].key), SetStatus(h, Decrypted)];
          ApplyAllConcat(m, before, ops);
          ApplyTwo(HandleKeys(m, keys[..last]), ops[0], ops[1]);
          TwoWritesDeliver(HandleKeys(m, keys[..last]), h, keys[last].key);
      }
    }
  }

  lemma ApplyTwo(m: Store, a: Op, b: Op)
    ensures ApplyAll(m, [a, b]) == Apply(Apply(m, a), b)
  {
    assert [a, b][..1] == [a] && [a][..0] == [];
    assert ApplyAll(m, [a]) == Apply(ApplyAll(m, []), a);
  }

  /** Position `i` holds the key for the identity, and no later position holds another. */
  ghost predicate IsLastFor(keys: seq<Key>, identity: string, key: Bytes, i: nat) {
    && i < |keys| && keys[i].key == key && Encode(keys[i].identityPreimage) == identity
    && forall j :: i < j < |keys| ==> Encode(keys[j].identityPreimage) != identity
  }

  lemma IsLastForPrefix(keys: seq<Key>, identity: string, key: Bytes, i: nat)
    requires keys != [] && Encode(keys[|keys| - 1].identityPreimage) != identity
    ensures IsLastFor(keys, identity, key, i) <==> IsLastFor(keys[..|keys| - 1], identity, key, i)
  {
  }

  /** A key counts exactly if it matches and no later key of the message does. */
  lemma {:induction false} LastKeyWins(keys: seq<Key>, identity: string, key: Bytes)
    ensures LastKeyFor(keys, identity) == Some(key) <==> exists i: nat :: IsLastFor(keys, identity, key, i)
  {
    if keys != [] {
      var last := |keys| - 1;
      if Encode(keys[last].identityPreimage) == identity {
        assert keys[last].key == key ==> IsLastFor(keys, identity, key, last);
      } else {
        LastKeyWins(keys[..last], identity, key);
        forall i: nat ensures IsLastFor(keys, identity, key, i) <==> IsLastFor(keys[..last], identity, key, i) {
          IsLastForPrefix(keys, identity, key, i);
        }
      }
    }
  }

  /** What a whole message makes of one record: the last key for its identity, or nothing. */
  lemma MessageOnFields(m: Store, keys: seq<Key>, picks: seq<Option<Hash>>, h: Hash, key: Bytes, i: nat)
    requires KeysMatch(m) && DistinctIdentities(m) && IsPicks(m, keys, picks) && h in m
    ensures var n := ApplyAll(m, KeyOps(m, keys, picks));
            && n.Keys == m.Keys
            && (IsLastFor(keys, m[h].tx.identity, key, i) ==>
                  && n[h].status == Decrypted && n[h].tx == m[h].tx.(decryptionKey := key)
                  && n[h].commitedBlock == m[h].commitedBlock && n[h].retries == m[h].retries)
            && ((forall j :: 0 <= j < |keys| ==> Encode(keys[j].identityPreimage) != m[h].tx.identity) ==> n[h] == m[h])
  {
    PicksDoNotMatter(m, keys, picks);
    LastKeyWins(keys, m[h].tx.identity, key);
    if LastKeyFor(keys, m[h].tx.identity).Some? {
      LastKeyWins(keys, m[h].tx.identity, LastKeyFor(keys, m[h].tx.identity).value);
    }
  }

  ghost predicate DistinctPreimages(keys: seq<Key>) {
    forall i, j :: 0 <= i < j < |keys| ==> keys[i].identityPreimage != keys[j].identityPreimage
  }

  /** Where no identity repeats, a key is found by membership alone. */
  lemma {:induction false} DistinctKeyIsFound(keys: seq<Key>, identity: string)
    requires DistinctPreimages(keys)
    ensures forall k :: k in keys && Encode(k.identityPreimage) == identity ==>
              LastKeyFor(keys, identity) == Some(k.key)
    ensures (forall k :: k in keys ==> Encode(k.identityPreimage) != identity) ==>
              LastKeyFor(keys, identity) == None
  {
    if keys != [] {
      var last := |keys| - 1;
      DistinctKeyIsFound(keys[..last], identity);
      forall k | k in keys && Encode(k.identityPreimage) == identity
        ensures LastKeyFor(keys, identity) == Some(k.key)
      {
        if Encode(keys[last].identityPreimage) == identity {
          EncodeInjective(k.identityPreimage, keys[last].identityPreimage);
        }
      }
    }
  }

  /** Permuting a message without repeated identities leaves its effect on any store unchanged. */
  lemma KeyOrderIsIrrelevant(m: Store, a: seq<Key>, b: seq<Key>)
    requires multiset(a) == multiset(b) && DistinctPreimages(a) && DistinctPreimages(b)
    ensures HandleKeys(m, a) == HandleKeys(m, b)
  {
    forall h | h in m ensures LastKeyFor(a, m[h].tx.identity) == LastKeyFor(b, m[h].tx.identity) {
      var identity := m[h].tx.identity;
      DistinctKeyIsFound(a, identity);
      DistinctKeyIsFound(b, identity);
      if k :| k in a && Encode(k.identityPreimage) == identity {
        assert k in multiset(a);
        assert k in b;
      } else {
        forall k | k in b ensures Encode(k.identityPreimage) != identity {
          assert k in multiset(b);
          assert k in a;
        }
      }
    }
  }

  class DecryptionKeysMsgHandler {
    const txStore: TransactionStore

    constructor (txStore: TransactionStore)
      ensures this.txStore == txStore
    {
      this.txStore := txStore;
    }

    /** `picks` are the records the lookups happened to find. */
    method HandleMessage(msg: Message) returns (ok: bool, ghost picks: seq<Option<Hash>>)
      requires txStore.Valid()
      modifies txStore.Repr
      ensures txStore.Valid() && txStore.Repr == old(txStore.Repr)
      ensures ok == msg.DecryptionKeys?
      ensures !ok ==> txStore.View() == old(txStore.View())
      ensures ok ==> HandledSoFar(old(txStore.View()), msg.keys, picks, txStore.View())
    {
      picks := [];
      if msg.OtherMessage? {
        return false, picks;
      }
      ghost var m := txStore.View();
      for i := 0 to |msg.keys|
        invariant txStore.Valid() && txStore.Repr == old(txStore.Repr)
        invariant HandledSoFar(m, msg.keys[..i], picks, txStore.View())
      {
        ghost var n := txStore.View();
        ghost var pick := HandleKey(msg.keys[i]);
        HandlesNext(m, msg.keys, i, picks, n, pick, txStore.View());
        picks := picks + [pick];
      }
      assert msg.keys[..|msg.keys|] == msg.keys;
      return true, picks;
    }

    method HandleKey(key: Key) returns (ghost pick: Option<Hash>)
      requires txStore.Valid()
      modifies txStore.Repr
      ensures txStore.Valid() && txStore.Repr == old(txStore.Repr)
      ensures HandlesOne(old(txStore.View()), key, pick, txStore.View())
    {
      var tx;
      tx, pick := txStore.GetTransactionsByIdentity(Encode(key.identityPreimage));
      if tx == null {
        return;
      }
      ghost var n := txStore.View();
      WriteKey(tx, key.key, pick.value);
      MarkDecrypted(tx, pick.value);
      TwoWritesHandle(n, key, pick.value);
    }

    /** The hash is read through the pointer, too. */
    method MarkDecrypted(tx: StoredTransaction, ghost h: Hash)
      requires txStore.Valid() && h in txStore.transactions && txStore.transactions[h] == tx
      modifies txStore.Repr
      ensures txStore.Valid() && txStore.Repr == old(txStore.Repr)
      ensures txStore.View() == Apply(old(txStore.View()), SetStatus(Target(old(txStore.View()), h), Decrypted))
    {
      assert txStore.View()[h] == tx.Value();
      var _ := txStore.UpdateTransactionStatus(BytesToHash(tx.encryptedTx.txHash), Decrypted);
    }

    /** The key is written through the pointer, outside the lock of the store. */
    method WriteKey(tx: StoredTransaction, key: Bytes, ghost h: Hash)
      requires txStore.Valid() && h in txStore.transactions && txStore.transactions[h] == tx
      modifies tx.encryptedTx
      ensures txStore.Valid()
      ensures txStore.View() == Apply(old(txStore.View()), SetKey(h, key))
    {
      tx.encryptedTx.decryptionKey := key;
    }
  }

  /** Key handling keeps what the lookups and the hashes of later keys depend on. */
  ghost predicate SameTransactions(m: Store, n: Store) {
    && m.Keys == n.Keys
    && forall h :: h in m ==> m[h].tx.Frozen() == n[h].tx.Frozen()
  }

  /** `n` is what the first keys of a message have made of `m`. */
  ghost predicate HandledSoFar(m: Store, keys: seq<Key>, picks: seq<Option<Hash>>, n: Store) {
    IsPicks(m, keys, picks) && SameTransactions(m, n) && n == ApplyAll(m, KeyOps(m, keys, picks))
  }

  /** What the lookup and the two writes for one key make of `n`. */
  ghost predicate HandlesOne(n: Store, k: Key, pick: Option<Hash>, after: Store) {
    && IsPick(n, k, pick)
    && match pick
       case None => after == n
       case Some(h) => after == Apply(Apply(n, SetKey(h, k.key)), SetStatus(Target(n, h), Decrypted))
  }

  lemma TwoWritesHandle(n: Store, k: Key, h: Hash)
    requires IsPick(n, k, Some(h))
    ensures var written := Apply(n, SetKey(h, k.key));
            h in written && HandlesOne(n, k, Some(h), Apply(written, SetStatus(Target(written, h), Decrypted)))
  {
  }

  lemma SameLookups(m: Store, n: Store, identity: string)
    requires SameTransactions(m, n)
    ensures WithIdentity(n, identity) == WithIdentity(m, identity)
    ensures forall h :: h in m ==> Target(n, h) == Target(m, h)
  {
    forall h | h in m ensures m[h].tx.identity == n[h].tx.identity && m[h].tx.txHash == n[h].tx.txHash {
      assert m[h].tx.identity == m[h].tx.Frozen().identity && m[h].tx.txHash == m[h].tx.Frozen().txHash;
    }
  }

  lemma OneMorePick(m: Store, keys: seq<Key>, picks: seq<Option<Hash>>, k: Key, pick: Option<Hash>)
    requires IsPicks(m, keys, picks)
    requires IsPick(m, k, pick)
    ensures IsPicks(m, keys + [k], picks + [pick])
    ensures KeyOps(m, keys + [k], picks + [pick]) ==
            KeyOps(m, keys, picks) +
            match pick
            case None => []
            case Some(h) => [SetKey(h, k.key), SetStatus(Target(m, h), Decrypted)]
  {
    var longer, found := keys + [k], picks + [pick];
    assert longer[..|keys|] == keys && found[..|keys|] == picks;
  }

  lemma TwoWritesKeepTransactions(m: Store, n: Store, h: Hash, key: Bytes)
    requires SameTransactions(m, n) && h in n
    ensures SameTransactions(m, Apply(Apply(n, SetKey(h, key)), SetStatus(Target(n, h), Decrypted)))
  {
  }

  lemma HandlesOneMore(m: Store, keys: seq<Key>, picks: seq<Option<Hash>>, n: Store,
                       k: Key, pick: Option<Hash>, after: Store)
    requires HandledSoFar(m, keys, picks, n) && HandlesOne(n, k, pick, after)
    ensures HandledSoFar(m, keys + [k], picks + [pick], after)
  {
    SameLookups(m, n, Encode(k.identityPreimage));
    OneMorePick(m, keys, picks, k, pick);
    match pick {
      case None =>
        assert KeyOps(m, keys + [k], picks + [pick]) == KeyOps(m, keys, picks);
      case Some(h) =>
        var ops := [SetKey(h, k.key), SetStatus(Target(m, h), Decrypted)];
        ApplyAllConcat(m, KeyOps(m, keys, picks), ops);
        ApplyTwo(n, ops[0], ops[1]);
        TwoWritesKeepTransactions(m, n, h, k.key);
    }
  }

  lemma HandlesNext(m: Store, keys: seq<Key>, i: nat, picks: seq<Option<Hash>>, n: Store,
                    pick: Option<Hash>, after: Store)
    requires i < |keys| && HandledSoFar(m, keys[..i], picks, n) && HandlesOne(n, keys[i], pick, after)
    ensures HandledSoFar(m, keys[..i + 1], picks + [pick], after)
  {
    assert keys[..i + 1] == keys[..i] + [keys[i]];
    HandlesOneMore(m, keys[..i], picks, n, keys[i], pick, after);
  }
}
