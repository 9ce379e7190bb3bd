/** The bid manager: creating a bid from the store and submitting it. */
module Bidder {
  import opened Types
  import opened Hex
  import opened StoreModel
  import opened TxStore
  import opened Bids

  class BidManager {
    const txStore: TransactionStore
    const slashAmount: string

    constructor (txStore: TransactionStore, slashAmount: string := DEFAULT_SLASH_AMOUNT)
      ensures this.txStore == txStore && this.slashAmount == slashAmount
    {
      this.txStore := txStore;
      this.slashAmount := slashAmount;
    }

    /** `order` is the iteration order of the one scan this call makes. */
    method CreateBidFromInitTransactions(blockNumber: uint64) returns (result: Creation, ghost order: seq<Hash>)
      requires txStore.Valid()
      modifies txStore.Repr
      ensures txStore.Valid() && txStore.Repr == old(txStore.Repr)
      ensures IsOrderOf(order, WithStatus(old(txStore.View()), Init))
      ensures Creates(slashAmount, old(txStore.View()), order, blockNumber, result, txStore.View())
    {
      var initTransactions;
      initTransactions, order := txStore.GetTransactionsByStatus(Init);
      if |initTransactions| == 0 {
        assert order == [];
        NothingScanned(slashAmount, txStore.View(), blockNumber);
        result := NothingToBid;
      } else {
        result := BidForScan(blockNumber, initTransactions, order);
      }
    }

    /** The part of a bid creation after a scan that found something. */
    method BidForScan(blockNumber: uint64, initTransactions: seq<StoredTransaction>, ghost order: seq<Hash>)
      returns (result: Creation)
      requires txStore.Valid() && txStore.Lists(initTransactions, order) && order != []
      modifies txStore.Repr
      ensures txStore.Valid() && txStore.Repr == old(txStore.Repr)
      ensures Creates(slashAmount, old(txStore.View()), order, blockNumber, result, txStore.View())
    {
      ghost var m := txStore.View();
      ghost var keys: seq<Hash>;
      var transactionsForBid, hashesForBid, blockedTransactions;
      transactionsForBid, hashesForBid, blockedTransactions, keys :=
        SplitByDeadline(initTransactions, blockNumber, order);
      CreationInTwoParts(slashAmount, m, order, blockNumber, keys, hashesForBid, blockedTransactions);
      result := BlockAndBid(blockNumber, transactionsForBid, hashesForBid, blockedTransactions, keys);
    }

    /** The second half of a bid creation: block the expired, build the bid, mark its transactions. */
    method BlockAndBid(blockNumber: uint64, transactionsForBid: seq<StoredTransaction>, hashesForBid: seq<Hash>,
                       blockedTransactions: seq<Hash>, ghost keys: seq<Hash>)
      returns (result: Creation)
      requires txStore.Valid() && txStore.Lists(transactionsForBid, keys) && |hashesForBid| == |keys|
      requires forall k :: k in keys ==> k in txStore.View()
      modifies txStore.Repr
      ensures txStore.Valid() && txStore.Repr == old(txStore.Repr)
      ensures var txs := Transactions(old(txStore.View()), keys);
              result == if hashesForBid == [] then NoneEligible
                        else Created(MakeBid(slashAmount, blockNumber, txs), hashesForBid)
      ensures txStore.View() ==
              ApplyAll(ApplyAll(old(txStore.View()), StatusOps(blockedTransactions, Blocked)),
                       StatusOps(hashesForBid, BidSubmitted))
    {
      var bid := BlockAndMake(blockNumber, transactionsForBid, hashesForBid, blockedTransactions, keys);
      if bid.None? {
        return NoneEligible;
      }
      var _ := UpdateTransactionStatuses(hashesForBid, BidSubmitted);
      return Created(bid.value, hashesForBid);
    }

    method BlockAndMake(blockNumber: uint64, transactionsForBid: seq<StoredTransaction>, hashesForBid: seq<Hash>,
                        blockedTransactions: seq<Hash>, ghost keys: seq<Hash>)
      returns (bid: Option<Bid>)
      requires txStore.Valid() && txStore.Lists(transactionsForBid, keys) && |hashesForBid| == |keys|
      requires forall k :: k in keys ==> k in txStore.View()
      modifies txStore.Repr
      ensures txStore.Valid() && txStore.Repr == old(txStore.Repr)
      ensures txStore.View() == ApplyAll(old(txStore.View()), StatusOps(blockedTransactions, Blocked))
      ensures bid == if hashesForBid == [] then None
                     else Some(MakeBid(slashAmount, blockNumber, Transactions(old(txStore.View()), keys)))
    {
      ghost var m := txStore.View();
      var _ := UpdateTransactionStatuses(blockedTransactions, Blocked);
      ListedTransactions(txStore, m, transactionsForBid, keys, blockedTransactions);
      bid := CreateBidForBlock(blockNumber, transactionsForBid, hashesForBid, Transactions(m, keys));
    }

    method SplitByDeadline(initTransactions: seq<StoredTransaction>, blockNumber: uint64, ghost order: seq<Hash>)
      returns (transactionsForBid: seq<StoredTransaction>, hashesForBid: seq<Hash>, blockedTransactions: seq<Hash>,
               ghost keys: seq<Hash>)
      requires txStore.Valid() && txStore.Lists(initTransactions, order)
      ensures txStore.Lists(transactionsForBid, keys)
      ensures IsSplit(txStore.View(), order, blockNumber, keys, hashesForBid, blockedTransactions)
    {
      ghost var m := txStore.View();
      transactionsForBid, hashesForBid, blockedTransactions, keys := [], [], [], [];
      for i := 0 to |initTransactions|
        invariant txStore.Lists(transactionsForBid, keys)
        invariant IsSplit(m, order[..i], blockNumber, keys, hashesForBid, blockedTransactions)
      {
        var tx := initTransactions[i];
        assert tx.Value() == m[order[i]];
        var hash := BytesToHash(tx.encryptedTx.txHash);
        SplitStep(m, order, i, blockNumber, keys, hashesForBid, blockedTransactions);
        keys := if tx.encryptedTx.maxInclusionWindow >= blockNumber then keys + [order[i]] else keys;
        if tx.encryptedTx.maxInclusionWindow >= blockNumber {
          transactionsForBid, hashesForBid := transactionsForBid + [tx], hashesForBid + [hash];
        } else {
          blockedTransactions := blockedTransactions + [hash];
        }
      }
      assert order[..|order|] == order;
    }

    /** No bid without transactions, nor when the two lists disagree in length. */
    method CreateBidForBlock(blockNumber: uint64, transactions: seq<StoredTransaction>, hashes: seq<Hash>,
                             ghost txs: seq<Encrypted>) returns (bid: Option<Bid>)
      requires |txs| == |transactions|
      requires forall i :: 0 <= i < |txs| ==> transactions[i].encryptedTx.Value() == txs[i]
      ensures bid == if |transactions| == 0 || |transactions| != |hashes| then None
                     else Some(MakeBid(slashAmount, blockNumber, txs))
      ensures bid.Some? ==>
                && |bid.value.options| == |transactions|
                && forall i :: 0 <= i < |transactions| ==> Carries(bid.value.options[i], transactions[i].encryptedTx.Value())
    {
      if |transactions| == 0 {
        return None;
      }
      if |transactions| != |hashes| {
        return None;
      }
      var txHashes: seq<string>, bidOptions: seq<BidOption> := [], [];
      for i := 0 to |transactions|
        invariant txHashes == MakeBid(slashAmount, blockNumber, txs[..i]).txHashes
        invariant bidOptions == MakeBid(slashAmount, blockNumber, txs[..i]).options
      {
        var tx := transactions[i].encryptedTx;
        assert tx.Value() == txs[i];
        txHashes := txHashes + [Encode(tx.txHash)];
        bidOptions := bidOptions + [Shutterised(tx.identityPrefix, Encode(tx.encryptedTx), ToInt64(tx.eon))];
      }
      assert txs[..|txs|] == txs;
      forall i | 0 <= i < |txs| ensures Carries(OptionFor(txs[i]), txs[i]) {
        OptionCarries(txs[i]);
      }
      return Some(Bid(txHashes, BID_AMOUNT, ToInt64(blockNumber), slashAmount, [], [], bidOptions));
    }

    /** A hash the store does not know is skipped; the first such hash is reported. */
    method UpdateTransactionStatuses(hashes: seq<Hash>, newStatus: Status) returns (firstMissing: Option<Hash>)
      requires txStore.Valid()
      modifies txStore.Repr
      ensures txStore.Valid() && txStore.Repr == old(txStore.Repr)
      ensures txStore.transactions == old(txStore.transactions)
      ensures txStore.View() == ApplyAll(old(txStore.View()), StatusOps(hashes, newStatus))
      ensures firstMissing == FirstMissing(old(txStore.View()), hashes)
    {
      ghost var m := txStore.View();
      firstMissing := None;
      for i := 0 to |hashes|
        invariant txStore.Valid() && txStore.Repr == old(txStore.Repr)
        invariant txStore.transactions == old(txStore.transactions)
        invariant txStore.View() == ApplyAll(m, StatusOps(hashes[..i], newStatus))
        invariant firstMissing == FirstMissing(m, hashes[..i])
      {
        UpdateStep(m, hashes, i, newStatus);
        var ok := txStore.UpdateTransactionStatus(hashes[i], newStatus);
        if !ok && firstMissing.None? {
          firstMissing := Some(hashes[i]);
        }
      }
      assert hashes[..|hashes|] == hashes;
    }

    /** The loop that collects commitments; `session` is what the network and the select made of it. */
    method SubmitBidGRPC(bid: Bid, session: Session)
      returns (commitments: seq<Commitment>, err: Option<SubmitError>)
      requires txStore.Valid()
      modifies txStore.Repr
      ensures txStore.Valid() && txStore.Repr == old(txStore.Repr)
      ensures txStore.transactions == old(txStore.transactions)
      ensures txStore.View() == ApplyAll(old(txStore.View()), SessionOps(bid, session))
      ensures commitments == SessionReceived(session) && err == SessionError(session)
    {
      ghost var m := txStore.View();
      if session.NotConnected? {
        return [], Some(ConnectFailed);
      }
      if session.NotSent? {
        return [], Some(SendFailed);
      }
      commitments := Collect(session.received);
      match session.exit {
        case CtxDone =>
          assert SessionOps(bid, session) == ReceivedOps(session.received);
          err := Some(ContextError);
        case StreamError(eof) =>
          if eof {
            assert SessionOps(bid, session) == ReceivedOps(session.received);
            err := None;
          } else {
            var _ := UpdateTransactionStatuses(HashesOf(bid.txHashes), Init);
            ApplyAllConcat(m, ReceivedOps(session.received), StatusOps(HashesOf(bid.txHashes), Init));
            err := Some(StreamBroken);
          }
        case ChannelClosed =>
          assert SessionOps(bid, session) == ReceivedOps(session.received);
          err := None;
      }
    }

    /** One turn of the select loop for each commitment that comes through the channel. */
    method Collect(received: seq<Commitment>) returns (commitments: seq<Commitment>)
      requires txStore.Valid()
      modifies txStore.Repr
      ensures txStore.Valid() && txStore.Repr == old(txStore.Repr)
      ensures txStore.transactions == old(txStore.transactions)
      ensures txStore.View() == ApplyAll(old(txStore.View()), ReceivedOps(received))
      ensures commitments == received
    {
      ghost var m := txStore.View();
      commitments := [];
      for i := 0 to |received|
        invariant txStore.Valid() && txStore.Repr == old(txStore.Repr)
        invariant txStore.transactions == old(txStore.transactions)
        invariant commitments == received[..i]
        invariant txStore.View() == ApplyAll(m, ReceivedOps(received[..i]))
      {
        commitments := commitments + [received[i]];
        MarkCommitted(received[i]);
        assert received[..i + 1][..i] == received[..i];
        ApplyAllConcat(m, ReceivedOps(received[..i]), CommitmentOps(received[i]));
      }
      assert received[..|received|] == received;
    }

    method MarkCommitted(commitment: Commitment)
      requires txStore.Valid()
      modifies txStore.Repr
      ensures txStore.Valid() && txStore.Repr == old(txStore.Repr)
      ensures txStore.transactions == old(txStore.transactions)
      ensures txStore.View() == ApplyAll(old(txStore.View()), CommitmentOps(commitment))
    {
      ghost var m := txStore.View();
      var hashes, block := commitment.txHashes, ToUint64(commitment.blockNumber);
      for i := 0 to |hashes|
        invariant txStore.Valid() && txStore.Repr == old(txStore.Repr)
        invariant txStore.transactions == old(txStore.transactions)
        invariant txStore.View() == ApplyAll(m, CommitOps(HashesOf(hashes[..i]), block))
      {
        var hash := HexToHash(hashes[i]);
        assert CommitOps(HashesOf(hashes[..i + 1]), block)[..i] == CommitOps(HashesOf(hashes[..i]), block);
        var _ := txStore.UpdateCommittedTransaction(hash, block);
      }
      assert hashes[..|hashes|] == hashes;
    }
  }

  /** The records a bid creation takes, and the two hash lists it makes of the scan. */
  ghost predicate IsSplit(m: Store, order: seq<Hash>, block: uint64,
                          keys: seq<Hash>, hashes: seq<Hash>, blocked: seq<Hash>) {
    && (forall k :: k in order ==> k in m)
    && keys == EligibleKeys(m, order, block) && hashes == Targets(m, keys)
    && blocked == Targets(m, ExpiredKeys(m, order, block))
  }

  lemma SplitStep(m: Store, order: seq<Hash>, i: nat, block: uint64,
                  keys: seq<Hash>, hashes: seq<Hash>, blocked: seq<Hash>)
    requires i < |order| && order[i] in m && IsSplit(m, order[..i], block, keys, hashes, blocked)
    ensures var k := order[i];
            if m[k].tx.maxInclusionWindow >= block
            then IsSplit(m, order[..i + 1], block, keys + [k], hashes + [Target(m, k)], blocked)
            else IsSplit(m, order[..i + 1], block, keys, hashes, blocked + [Target(m, k)])
  {
    assert order[..i + 1] == order[..i] + [order[i]];
    assert order[..i + 1][..i] == order[..i];
  }

  lemma UpdateStep(m: Store, hashes: seq<Hash>, i: nat, status: Status)
    requires i < |hashes|
    ensures var n := ApplyAll(m, StatusOps(hashes[..i], status));
            && ApplyAll(m, StatusOps(hashes[..i + 1], status)) == Apply(n, SetStatus(hashes[i], status))
            && FirstMissing(m, hashes[..i + 1]) ==
               if FirstMissing(m, hashes[..i]).None? && !Lands(n, SetStatus(hashes[i], status)) then Some(hashes[i])
               else FirstMissing(m, hashes[..i])
  {
    assert StatusOps(hashes[..i + 1], status)[..i] == StatusOps(hashes[..i], status);
    assert hashes[..i + 1][..i] == hashes[..i];
    StatusOpsEffect(m, hashes[..i], status);
  }

  /** The result is the one for the scan order, and the store `n` is what its operations make of `m`. */
  ghost predicate Creates(slash: string, m: Store, order: seq<Hash>, block: uint64, result: Creation, n: Store) {
    && (forall k :: k in order ==> k in m)
    && result == CreationResult(slash, m, order, block)
    && n == ApplyAll(m, CreationOps(m, order, block))
  }

  lemma NothingScanned(slash: string, m: Store, block: uint64)
    ensures Creates(slash, m, [], block, NothingToBid, m)
  {
    assert CreationOps(m, [], block) == [];
  }

  lemma CreationInTwoParts(slash: string, m: Store, order: seq<Hash>, block: uint64,
                           keys: seq<Hash>, hashes: seq<Hash>, blocked: seq<Hash>)
    requires order != [] && IsSplit(m, order, block, keys, hashes, blocked)
    ensures ApplyAll(m, CreationOps(m, order, block)) ==
            ApplyAll(ApplyAll(m, StatusOps(blocked, Blocked)), StatusOps(hashes, BidSubmitted))
    ensures CreationResult(slash, m, order, block) ==
            if hashes == [] then NoneEligible
            else Created(MakeBid(slash, block, Transactions(m, keys)), hashes)
  {
    ApplyAllConcat(m, StatusOps(blocked, Blocked), StatusOps(hashes, BidSubmitted));
  }

  /** Status updates leave the transactions of the records one holds pointers to as they were. */
  lemma ListedTransactions(store: TransactionStore, m: Store, txs: seq<StoredTransaction>, keys: seq<Hash>,
                           hashes: seq<Hash>)
    requires store.Valid() && store.Lists(txs, keys)
    requires forall k :: k in keys ==> k in m
    requires store.View() == ApplyAll(m, StatusOps(hashes, Blocked))
    ensures forall i :: 0 <= i < |keys| ==> txs[i].encryptedTx.Value() == m[keys[i]].tx
  {
    StatusOpsEffect(m, hashes, Blocked);
    forall i | 0 <= i < |keys| ensures txs[i].encryptedTx.Value() == m[keys[i]].tx {
      assert store.View()[keys[i]] == txs[i].Value();
    }
  }

  function FirstMissing(m: Store, hashes: seq<Hash>): Option<Hash> {
    if hashes == [] then None else
    var last := hashes[|hashes| - 1];
    match FirstMissing(m, hashes[..|hashes| - 1])
    case Some(h) => Some(h)
    case None => if last in m then None else Some(last)
  }

  ghost predicate IsFirstMissing(m: Store, hashes: seq<Hash>, i: nat) {
    i < |hashes| && hashes[i] !in m && forall j :: 0 <= j < i ==> hashes[j] in m
  }

  lemma FirstMissingStep(m: Store, hashes: seq<Hash>, i: nat)
    requires hashes != [] && IsFirstMissing(m, hashes[..|hashes| - 1], i)
    ensures IsFirstMissing(m, hashes, i) && hashes[..|hashes| - 1][i] == hashes[i]
  {
  }

  /** What is reported is the first unknown hash, and nothing exactly if all are known. */
  lemma {:induction false} FirstMissingIff(m: Store, hashes: seq<Hash>) returns (i: nat)
    ensures FirstMissing(m, hashes).None? <==> forall j :: 0 <= j < |hashes| ==> hashes[j] in m
    ensures FirstMissing(m, hashes).Some? ==>
              IsFirstMissing(m, hashes, i) && FirstMissing(m, hashes) == Some(hashes[i])
  {
    i := 0;
    if hashes != [] {
      var last := |hashes| - 1;
      i := FirstMissingIff(m, hashes[..last]);
      if FirstMissing(m, hashes[..last]).Some? {
        FirstMissingStep(m, hashes, i);
      } else {
        i := last;
      }
    }
  }
}
