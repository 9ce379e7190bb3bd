/** The transaction store: a map from hashes to shared, mutable records. */
module TxStore {
  import opened Types
  import opened StoreModel
  import opened StoreLaws

  class EncryptedTransaction {
    var eon: uint64
    var maxInclusionWindow: uint64
    var encryptedTx: Bytes
    var txHash: Bytes
    var identity: string
    var identityPrefix: string
    var decryptionKey: Bytes
    var rawTx: string

    constructor (tx: Encrypted)
      ensures Value() == tx
    {
      eon := tx.eon;
      maxInclusionWindow := tx.maxInclusionWindow;
      encryptedTx := tx.encryptedTx;
      txHash := tx.txHash;
      identity := tx.identity;
      identityPrefix := tx.identityPrefix;
      decryptionKey := tx.decryptionKey;
      rawTx := tx.rawTx;
    }

    function Value(): Encrypted
      reads this
    {
      Encrypted(eon, maxInclusionWindow, encryptedTx, txHash, identity, identityPrefix, decryptionKey, rawTx)
    }
  }

  class StoredTransaction {
    const encryptedTx: EncryptedTransaction
    var status: Status
    var commitedBlock: uint64
    var retries: nat

    constructor (tx: EncryptedTransaction)
      ensures encryptedTx == tx
      ensures Value() == Record(tx.Value(), Init, 0, 0)
    {
      encryptedTx := tx;
      status := Init;
      commitedBlock := 0;
      retries := 0;
    }

    function Value(): Record
      reads this, encryptedTx
    {
      Record(encryptedTx.Value(), status, commitedBlock, retries)
    }

    /** The record's part of a retry: new ciphertext and identity, one more attempt counted. */
    method TakeRetry(tx: EncryptedTransaction)
      requires tx != encryptedTx
      modifies this, encryptedTx
      ensures Value() == Retried(old(Value()), tx.Value())
    {
      encryptedTx.encryptedTx := tx.encryptedTx;
      encryptedTx.identity := tx.identity;
      encryptedTx.identityPrefix := tx.identityPrefix;
      retries := retries + 1;
      if retries >= MAX_RETRIES {
        status := Blocked;
      } else {
        status := Init;
      }
    }
  }

  class TransactionStore {
    var transactions: map<Hash, StoredTransaction>
    ghost var Repr: set<object>
    ghost var owners: map<object, Hash>

    /** Each record, and the encrypted transaction it points to, belongs to one hash only. */
    ghost predicate Valid()
      reads this, Repr
      ensures Valid() ==> this in Repr
    {
      && this in Repr && owners.Keys <= Repr
      && forall h :: h in transactions ==>
           && transactions[h] in Repr && Owns(h, transactions[h])
           && transactions[h].encryptedTx in Repr && Owns(h, transactions[h].encryptedTx)
    }

    ghost predicate Owns(h: Hash, o: object)
      reads this
    {
      o in owners && owners[o] == h
    }

    /** The contents as a value. */
    ghost function View(): (m: Store)
      reads this, Repr
      requires Valid()
      ensures m.Keys == transactions.Keys
    {
      map h | h in transactions :: transactions[h].Value()
    }

    /** `result` holds the very records of the hashes in `order`. */
    ghost predicate Lists(result: seq<StoredTransaction>, order: seq<Hash>)
      reads this
    {
      && |result| == |order|
      && forall i :: 0 <= i < |order| ==> order[i] in transactions && result[i] == transactions[order[i]]
    }

    constructor ()
      ensures Valid() && fresh(Repr)
      ensures View() == EMPTY
    {
      transactions := map[];
      Repr := {this};
      owners := map[];
    }

    method StoreTransaction(hash: Hash, tx: EncryptedTransaction) returns (ok: bool)
      requires Valid() && tx !in Repr
      modifies this
      ensures Valid() && fresh(Repr - old(Repr) - {tx})
      ensures ok == Lands(old(View()), Insert(hash, tx.Value()))
      ensures ok <==> hash !in old(transactions)
      ensures ok ==> hash in View() && View()[hash] == Record(tx.Value(), Init, 0, 0)
      ensures View() == Apply(old(View()), Insert(hash, tx.Value()))
      ensures ok ==> fresh(transactions[hash]) && transactions == old(transactions)[hash := transactions[hash]]
      ensures ok ==> transactions[hash].encryptedTx == tx
    {
      if hash in transactions {
        return false;
      }
      var transaction := new StoredTransaction(tx);
      Add(hash, transaction);
      return true;
    }

    method Add(hash: Hash, transaction: StoredTransaction)
      requires Valid() && hash !in transactions
      requires transaction !in Repr && transaction.encryptedTx !in Repr
      modifies this
      ensures Valid() && Repr == old(Repr) + {transaction, transaction.encryptedTx}
      ensures transactions == old(transactions)[hash := transaction]
      ensures View() == old(View())[hash := transaction.Value()]
    {
      ghost var encryptedTx := transaction.encryptedTx;
      Repr := Repr + {transaction, encryptedTx};
      owners := owners[transaction := hash][encryptedTx := hash];
      transactions := transactions[hash := transaction];
    }

    method UpdateRetriedTx(hash: Hash, tx: EncryptedTransaction) returns (ok: bool)
      requires Valid() && tx !in Repr
      modifies Repr
      ensures Valid() && Repr == old(Repr) && transactions == old(transactions)
      ensures ok == Lands(old(View()), Retry(hash, tx.Value()))
      ensures ok <==> hash in transactions
      ensures View() == Apply(old(View()), Retry(hash, tx.Value()))
    {
      if hash !in transactions {
        return false;
      }
      ghost var m, r := View(), Retried(transactions[hash].Value(), tx.Value());
      assert Apply(m, Retry(hash, tx.Value())) == m[hash := r];
      transactions[hash].TakeRetry(tx);
      assert View() == m[hash := r];
      return true;
    }

    method UpdateTransactionStatus(hash: Hash, status: Status) returns (ok: bool)
      requires Valid()
      modifies Repr
      ensures Valid() && Repr == old(Repr) && transactions == old(transactions)
      ensures ok == Lands(old(View()), SetStatus(hash, status))
      ensures ok <==> hash in transactions
      ensures ok ==> View()[hash] == old(View()[hash]).(status := status)
      ensures View() == Apply(old(View()), SetStatus(hash, status))
    {
      if hash !in transactions {
        return false;
      }
      transactions[hash].status := status;
      return true;
    }

    method UpdateCommittedTransaction(hash: Hash, commitedBlock: uint64) returns (ok: bool)
      requires Valid()
      modifies Repr
      ensures Valid() && Repr == old(Repr) && transactions == old(transactions)
      ensures ok == Lands(old(View()), Commit(hash, commitedBlock))
      ensures ok <==> hash in transactions
      ensures ok ==> View()[hash] == old(View()[hash]).(status := Committed, commitedBlock := commitedBlock)
      ensures View() == Apply(old(View()), Commit(hash, commitedBlock))
    {
      if hash !in transactions {
        return false;
      }
      var transaction := transactions[hash];
      transaction.status := Committed;
      transaction.commitedBlock := commitedBlock;
      return true;
    }

    /** The answer is the shared record itself, not a copy. */
    method GetTransaction(hash: Hash) returns (transaction: Option<StoredTransaction>)
      requires Valid()
      ensures transaction == if hash in View() then Some(transactions[hash]) else None
      ensures transaction.Some? ==> transaction.value.Value() == View()[hash]
    {
      if hash in transactions {
        return Some(transactions[hash]);
      }
      return None;
    }

    /** Map iteration has no fixed order: `order` is the one this call happened to take. */
    method GetTransactionsByStatus(status: Status)
      returns (result: seq<StoredTransaction>, ghost order: seq<Hash>)
      requires Valid()
      ensures IsOrderOf(order, WithStatus(View(), status))
      ensures Lists(result, order)
      ensures forall h :: h in transactions ==> (transactions[h] in result <==> transactions[h].status == status)
    {
      result, order := [], [];
      var todo := transactions.Keys;
      while todo != {}
        invariant todo <= transactions.Keys
        invariant IsOrderOf(order, WithStatus(View(), status) - todo)
        invariant Lists(result, order)
        decreases todo
      {
        var hash :| hash in todo;
        todo := todo - {hash};
        if transactions[hash].status == status {
          result := result + [transactions[hash]];
          order := order + [hash];
        }
      }
      ListsExactly(this, result, order, WithStatus(View(), status));
    }

    method GetTransactionsByCommitedBlock(commitedBlock: uint64)
      returns (result: seq<StoredTransaction>, ghost order: seq<Hash>)
      requires Valid()
      ensures IsOrderOf(order, Verifiable(View(), commitedBlock))
      ensures Lists(result, order)
      ensures forall h :: h in transactions ==>
                (transactions[h] in result <==>
                 && transactions[h].status == Decrypted
                 && 0 < transactions[h].commitedBlock && transactions[h].commitedBlock <= commitedBlock)
    {
      result, order := [], [];
      var todo := transactions.Keys;
      while todo != {}
        invariant todo <= transactions.Keys
        invariant IsOrderOf(order, Verifiable(View(), commitedBlock) - todo)
        invariant Lists(result, order)
        decreases todo
      {
        var hash :| hash in todo;
        todo := todo - {hash};
        var transaction := transactions[hash];
        if transaction.commitedBlock != 0 && transaction.commitedBlock <= commitedBlock &&
           transaction.status == Decrypted {
          result := result + [transaction];
          order := order + [hash];
        }
      }
      ListsExactly(this, result, order, Verifiable(View(), commitedBlock));
    }

    /** Some record with the identity: which one depends on the iteration order. */
    method GetTransactionsByIdentity(identity: string)
      returns (transaction: StoredTransaction?, ghost pick: Option<Hash>)
      requires Valid()
      ensures transaction == null <==> WithIdentity(View(), identity) == {}
      ensures transaction == null <==> pick.None?
      ensures transaction == null <==> forall h :: h in transactions ==> transactions[h].encryptedTx.identity != identity
      ensures pick.Some? ==> pick.value in WithIdentity(View(), identity)
      ensures pick.Some? ==> transaction == transactions[pick.value]
      ensures transaction != null ==> transaction.Value().tx.identity == identity
    {
      var todo := transactions.Keys;
      while todo != {}
        invariant todo <= transactions.Keys
        invariant WithIdentity(View(), identity) <= todo
        decreases todo
      {
        var hash :| hash in todo;
        if transactions[hash].encryptedTx.identity == identity {
          assert hash in WithIdentity(View(), identity);
          return transactions[hash], Some(hash);
        }
        todo := todo - {hash};
      }
      forall h | h in transactions ensures transactions[h].encryptedTx.identity != identity {
        assert h !in WithIdentity(View(), identity);
      }
      return null, None;
    }

    method GetTransactionCount() returns (count: nat)
      requires Valid()
      ensures count == |View()|
    {
      assert View().Keys == transactions.Keys;
      return |transactions|;
    }

    method GetStatusCounts() returns (counts: map<Status, nat>)
      requires Valid()
      ensures CountsFor(counts, View())
    {
      counts := map[];
      var todo := transactions.Keys;
      ghost var seen: Store := EMPTY;
      while todo != {}
        invariant todo <= transactions.Keys
        invariant seen.Keys == transactions.Keys - todo
        invariant forall h :: h in seen ==> seen[h] == View()[h]
        invariant CountsFor(counts, seen)
        decreases todo
      {
        var hash :| hash in todo;
        var status := transactions[hash].status;
        CountsGrow(counts, seen, hash, View()[hash]);
        seen := seen[hash := View()[hash]];
        counts := counts[status := (if status in counts then counts[status] else 0) + 1];
        todo := todo - {hash};
      }
      assert seen == View();
    }
  }

  /** A list of records by hash holds no others, as each record belongs to one hash. */
  lemma ListsExactly(store: TransactionStore, result: seq<StoredTransaction>, order: seq<Hash>, hashes: set<Hash>)
    requires store.Valid() && store.Lists(result, order) && IsOrderOf(order, hashes)
    ensures forall h :: h in store.transactions ==> (store.transactions[h] in result <==> h in hashes)
  {
    forall h | h in store.transactions ensures store.transactions[h] in result <==> h in hashes {
      if h in hashes {
        assert h in order;
        var i :| 0 <= i < |order| && order[i] == h;
        assert result[i] == store.transactions[h];
      }
      if store.transactions[h] in result {
        var i :| 0 <= i < |result| && result[i] == store.transactions[h];
        assert store.Owns(order[i], store.transactions[order[i]]) && store.Owns(h, store.transactions[h]);
        assert h in order;
      }
    }
  }

  /** A status nobody has is missing from the counts; every other one has its exact count. */
  ghost predicate CountsFor(counts: map<Status, nat>, m: Store) {
    && (forall status :: status in counts <==> CountOf(m, status) != 0)
    && (forall status :: status in counts ==> counts[status] == CountOf(m, status))
  }

  lemma CountOfAdded(m: Store, h: Hash, r: Record, status: Status)
    requires h !in m
    ensures CountOf(m[h := r], status) == CountOf(m, status) + Indicator(r.status == status)
  {
    WithStatusMoves(m, m[h := r], h, status);
    SetSizes(h, WithStatus(m, status));
  }

  lemma CountsGrow(counts: map<Status, nat>, m: Store, h: Hash, r: Record)
    requires h !in m && CountsFor(counts, m)
    ensures CountsFor(
              counts[r.status := (if r.status in counts then counts[r.status] else 0) + 1],
              m[h := r])
  {
    var n := m[h := r];
    forall status ensures CountOf(n, status) == CountOf(m, status) + Indicator(r.status == status) {
      CountOfAdded(m, h, r, status);
    }
  }
}
