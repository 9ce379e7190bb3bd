/** The verifier: finalise decrypted transactions that have a receipt. */
module Verifier {
  import opened Types
  import opened Hex
  import opened StoreModel
  import opened TxStore

  datatype Receipt = OnChain | NotFound | QueryFailed

  /** The hashes, in order, for which the chain returns a receipt. */
  function FoundOnChain(hashes: seq<Hash>, receipts: Hash -> Receipt): (found: seq<Hash>)
    ensures forall h :: h in found <==> h in hashes && receipts(h) == OnChain
  {
    if hashes == [] then [] else
    var last := hashes[|hashes| - 1];
    assert hashes == hashes[..|hashes| - 1] + [last];
    FoundOnChain(hashes[..|hashes| - 1], receipts) + if receipts(last) == OnChain then [last] else []
  }

  function AfterVerification(m: Store, head: uint64, receipts: Hash -> Receipt): Store {
    map h | h in m ::
      if h in Verifiable(m, head) && receipts(h) == OnChain then m[h].(status := Finalised) else m[h]
  }

  class TransactionVerifier {
    const txStore: TransactionStore

    constructor (txStore: TransactionStore)
      ensures this.txStore == txStore
    {
      this.txStore := txStore;
    }

    /** One round, undisturbed: exactly the decrypted transactions that are due and on chain become final. */
    method VerifyDecryptedTransactions(head: Option<uint64>, receipts: Hash -> Receipt)
      requires txStore.Valid()
      modifies txStore.Repr
      ensures txStore.Valid() && txStore.Repr == old(txStore.Repr)
      ensures head.None? ==> txStore.View() == old(txStore.View())
      ensures head.Some? && KeysMatch(old(txStore.View())) ==>
                txStore.View() == AfterVerification(old(txStore.View()), head.value, receipts)
      ensures head.Some? && KeysMatch(old(txStore.View())) ==>
                Finalises(old(txStore.View()), head.value, receipts, txStore.View())
    {
      if head.None? {
        return;
      }
      ghost var m := txStore.View();
      var decryptedTxs;
      ghost var order;
      decryptedTxs, order := txStore.GetTransactionsByCommitedBlock(head.value);
      FinaliseFound(decryptedTxs, receipts, order);
      if KeysMatch(m) {
        VerificationEffect(m, head.value, order, receipts);
        VerificationOnFields(m, head.value, receipts);
      }
    }

    method FinaliseFound(decryptedTxs: seq<StoredTransaction>, receipts: Hash -> Receipt, ghost order: seq<Hash>)
      requires txStore.Valid() && txStore.Lists(decryptedTxs, order)
      modifies txStore.Repr
      ensures txStore.Valid() && txStore.Repr == old(txStore.Repr)
      ensures var m := old(txStore.View());
              txStore.View() == ApplyAll(m, StatusOps(FoundOnChain(Targets(m, order), receipts), Finalised))
    {
      ghost var m := txStore.View();
      ghost var targets := Targets(m, order);
      for i := 0 to |decryptedTxs|
        invariant txStore.Valid() && txStore.Repr == old(txStore.Repr)
        invariant txStore.transactions == old(txStore.transactions)
        invariant txStore.View() == ApplyAll(m, StatusOps(FoundOnChain(targets[..i], receipts), Finalised))
      {
        FoundStep(m, targets, i, receipts);
        CheckOne(decryptedTxs[i], receipts, m, order[i], FoundOnChain(targets[..i], receipts));
      }
      assert targets[..|targets|] == targets;
    }

    /** One turn of the loop, after those that have finalised the transactions in `done`. */
    method CheckOne(tx: StoredTransaction, receipts: Hash -> Receipt, ghost m: Store, ghost k: Hash, ghost done: seq<Hash>)
      requires txStore.Valid() && k in m
      requires k in txStore.transactions && txStore.transactions[k] == tx
      requires txStore.View() == ApplyAll(m, StatusOps(done, Finalised))
      modifies txStore.Repr
      ensures txStore.Valid() && txStore.Repr == old(txStore.Repr)
      ensures txStore.transactions == old(txStore.transactions)
      ensures txStore.View() ==
              if receipts(Target(m, k)) == OnChain then Apply(old(txStore.View()), SetStatus(Target(m, k), Finalised))
              else old(txStore.View())
    {
      var txHash := HashOf(tx, m, k, done);
      TakeReceipt(txHash, receipts(txHash));
    }

    /** A failed query and a missing receipt are passed over; the next round asks again. */
    method TakeReceipt(txHash: Hash, receipt: Receipt)
      requires txStore.Valid()
      modifies txStore.Repr
      ensures txStore.Valid() && txStore.Repr == old(txStore.Repr)
      ensures txStore.transactions == old(txStore.transactions)
      ensures txStore.View() == if receipt == OnChain then Apply(old(txStore.View()), SetStatus(txHash, Finalised))
                                else old(txStore.View())
    {
      match receipt {
        case QueryFailed =>
        case NotFound =>
        case OnChain =>
          var _ := txStore.UpdateTransactionStatus(txHash, Finalised);
      }
    }

    /** The hash is read through the pointer, after other records may already have been finalised. */
    method HashOf(tx: StoredTransaction, ghost m: Store, ghost k: Hash, ghost done: seq<Hash>) returns (h: Hash)
      requires txStore.Valid() && k in m
      requires k in txStore.transactions && txStore.transactions[k] == tx
      requires txStore.View() == ApplyAll(m, StatusOps(done, Finalised))
      ensures h == Target(m, k)
    {
      StatusOpsEffect(m, done, Finalised);
      assert txStore.View()[k] == tx.Value();
      return BytesToHash(tx.encryptedTx.txHash);
    }
  }

  /**
   The result of a round, on the fields: final are exactly the decrypted records committed for a
   block between 1 and the head that have a receipt; every other record is as it was.
   */
  ghost predicate Finalises(m: Store, head: uint64, receipts: Hash -> Receipt, n: Store) {
    && n.Keys == m.Keys
    && forall h :: h in m ==>
         n[h] == if m[h].status == Decrypted && 0 < m[h].commitedBlock <= head && receipts(h) == OnChain
                 then m[h].(status := Finalised) else m[h]
  }

  lemma VerificationOnFields(m: Store, head: uint64, receipts: Hash -> Receipt)
    ensures Finalises(m, head, receipts, AfterVerification(m, head, receipts))
  {
  }

  lemma VerificationEffect(m: Store, head: uint64, order: seq<Hash>, receipts: Hash -> Receipt)
    requires KeysMatch(m) && IsOrderOf(order, Verifiable(m, head))
    ensures ApplyAll(m, StatusOps(FoundOnChain(Targets(m, order), receipts), Finalised)) ==
            AfterVerification(m, head, receipts)
  {
    StatusOpsEffect(m, FoundOnChain(order, receipts), Finalised);
  }

  lemma FoundStep(m: Store, targets: seq<Hash>, i: nat, receipts: Hash -> Receipt)
    requires i < |targets|
    ensures var before := ApplyAll(m, StatusOps(FoundOnChain(targets[..i], receipts), Finalised));
            ApplyAll(m, StatusOps(FoundOnChain(targets[..i + 1], receipts), Finalised)) ==
            if receipts(targets[i]) == OnChain then Apply(before, SetStatus(targets[i], Finalised)) else before
  {
    var found := FoundOnChain(targets[..i], receipts);
    assert targets[..i + 1][..i] == targets[..i];
    if receipts(targets[i]) == OnChain {
      var longer := found + [targets[i]];
      assert FoundOnChain(targets[..i + 1], receipts) == longer;
      assert StatusOps(longer, Finalised)[..|found|] == StatusOps(found, Finalised);
    } else {
      assert FoundOnChain(targets[..i + 1], receipts) == found;
    }
  }
}
