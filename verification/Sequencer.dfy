/** The bid ticker: read the head, create a bid, submit it, then reset or publish. */
module Sequencer {
  import opened Types
  import opened Hex
  import opened StoreModel
  import opened Bids
  import opened Bidder

  /** Published prefixes of one commitment; one foreign option spoils them all. */
  method GetIdentityPrefixes(options: seq<BidOption>) returns (identities: Option<seq<string>>)
    ensures identities == IdentityPrefixes(options)
    ensures identities.None? <==> exists i :: 0 <= i < |options| && options[i].OtherOption?
  {
    var found: seq<string> := [];
    for i := 0 to |options|
      invariant forall j :: 0 <= j < i ==> options[j].Shutterised?
      invariant found == IdentityPrefixes(options[..i]).value
    {
      if options[i].OtherOption? {
        return None;
      }
      found := found + [TrimPrefix(options[i].identityPrefix, "0x")];
    }
    assert options[..|options|] == options;
    return Some(found);
  }

  method Publish(commitments: seq<Commitment>) returns (messages: seq<KeyperMessage>)
    ensures messages == Messages(commitments)
  {
    messages := [];
    for i := 0 to |commitments|
      invariant messages == Messages(commitments[..i])
    {
      var c := commitments[i];
      var identities := GetIdentityPrefixes(c.options);
      assert commitments[..i + 1][..i] == commitments[..i];
      if identities.None? {
        continue;
      }
      messages := messages + [KeyperMessage(c.txHashes, c.blockNumber, identities.value)];
    }
    assert commitments[..|commitments|] == commitments;
  }

  /**
   One tick with nobody else at the store. Without a head nothing happens. Otherwise the store is
   the result of the tick's operations, and only a successful submission sends messages.
   */
  method BidTick(bm: BidManager, head: Option<uint64>, session: Session)
    returns (messages: seq<KeyperMessage>, ghost order: seq<Hash>)
    requires bm.txStore.Valid()
    modifies bm.txStore.Repr
    ensures bm.txStore.Valid() && bm.txStore.Repr == old(bm.txStore.Repr)
    ensures head.None? ==> messages == [] && bm.txStore.View() == old(bm.txStore.View())
    ensures head.Some? ==>
              var m, block := old(bm.txStore.View()), Add64(head.value, INCLUSION_WINDOW);
              && IsOrderOf(order, WithStatus(m, Init))
              && bm.txStore.View() == ApplyAll(m, TickOps(bm.slashAmount, m, order, block, session))
              && messages == (if CreationResult(bm.slashAmount, m, order, block).Created? && !Fails(session)
                              then Messages(SessionReceived(session)) else [])
    ensures head.Some? && KeysMatch(old(bm.txStore.View())) ==>
              TickAnswers(old(bm.txStore.View()), head.value, session, bm.txStore.View(), messages)
  {
    messages, order := [], [];
    if head.None? {
      return;
    }
    ghost var m := bm.txStore.View();
    var inclusionBlock := Add64(head.value, INCLUSION_WINDOW);
    var creation;
    creation, order := bm.CreateBidFromInitTransactions(inclusionBlock);
    if creation.Created? {
      messages := SubmitAndSettle(bm, creation.bid, creation.hashes, session);
      ApplyAllConcat(m, CreationOps(m, order, inclusionBlock), SettleOps(creation.bid, creation.hashes, session));
    } else if creation.NothingToBid? {
      NothingScanned(bm.slashAmount, m, inclusionBlock);
    }
    if KeysMatch(m) {
      TickOnFields(bm.slashAmount, m, order, head.value, session);
    }
  }

  method SubmitAndSettle(bm: BidManager, bid: Bid, txHashes: seq<Hash>, session: Session)
    returns (messages: seq<KeyperMessage>)
    requires bm.txStore.Valid()
    modifies bm.txStore.Repr
    ensures bm.txStore.Valid() && bm.txStore.Repr == old(bm.txStore.Repr)
    ensures bm.txStore.View() == ApplyAll(old(bm.txStore.View()), SettleOps(bid, txHashes, session))
    ensures messages == if Fails(session) then [] else Messages(SessionReceived(session))
  {
    ghost var m := bm.txStore.View();
    var commitments, err := bm.SubmitBidGRPC(bid, session);
    if err.Some? || |commitments| == 0 {
      var _ := bm.UpdateTransactionStatuses(txHashes, Init);
      ApplyAllConcat(m, SessionOps(bid, session), StatusOps(txHashes, Init));
      return [];
    }
    assert SettleOps(bid, txHashes, session) == SessionOps(bid, session);
    messages := Publish(commitments);
  }

  /** An `Init` record that a bid for the block after `head` can take. */
  ghost predicate IsDue(m: Store, head: uint64, h: Hash) {
    h in m && m[h].status == Init && m[h].tx.maxInclusionWindow >= Add64(head, 1)
  }

  /**
   What a tick at `head` owes its caller. If the bid could not be sent, timed out, broke off or
   brought no commitment, nothing is sent and all its transactions are `Init` again. Otherwise the
   messages are those of its commitments, and its transactions are committed where named and
   submitted where not. Without a transaction to bid for nothing is sent.
   */
  ghost predicate TickAnswers(m: Store, head: uint64, session: Session, n: Store, messages: seq<KeyperMessage>) {
    && ((forall h :: !IsDue(m, head, h)) ==> messages == [])
    && if session.Streamed? && session.received != [] &&
          (session.exit == ChannelClosed || session.exit == StreamError(true))
       then && ((exists h :: IsDue(m, head, h)) ==> messages == Messages(session.received))
            && (forall h :: IsDue(m, head, h) ==>
                  && h in n
                  && n[h].status == if exists i :: 0 <= i < |session.received| && Names(session.received[i], h)
                                    then Committed else BidSubmitted)
       else messages == [] && forall h :: IsDue(m, head, h) ==> h in n && n[h].status == Init
  }

  lemma CreatedIff(slash: string, m: Store, order: seq<Hash>, head: uint64)
    requires KeysMatch(m) && IsOrderOf(order, WithStatus(m, Init))
    ensures CreationResult(slash, m, order, Add64(head, INCLUSION_WINDOW)).Created? <==> exists h :: IsDue(m, head, h)
  {
    var block := Add64(head, INCLUSION_WINDOW);
    if h :| IsDue(m, head, h) {
      BidContains(slash, m, order, block, h);
    }
    if CreationResult(slash, m, order, block).Created? {
      Partition(m, order, block);
      var h :| h in Eligible(m, block);
      assert IsDue(m, head, h);
    }
  }

  lemma TickOnFields(slash: string, m: Store, order: seq<Hash>, head: uint64, session: Session)
    requires KeysMatch(m) && IsOrderOf(order, WithStatus(m, Init))
    ensures var block := Add64(head, INCLUSION_WINDOW);
            TickAnswers(m, head, session, ApplyAll(m, TickOps(slash, m, order, block, session)),
                        if CreationResult(slash, m, order, block).Created? && !Fails(session)
                        then Messages(SessionReceived(session)) else [])
  {
    var block := Add64(head, INCLUSION_WINDOW);
    CreatedIff(slash, m, order, head);
    ErrorIff(session);
    var n := ApplyAll(m, TickOps(slash, m, order, block, session));
    if session.Streamed? && session.received != [] && (session.exit == ChannelClosed || session.exit == StreamError(true)) {
      forall h | IsDue(m, head, h)
        ensures h in n
        ensures n[h].status == if exists i :: 0 <= i < |session.received| && Names(session.received[i], h)
                               then Committed else BidSubmitted
      {
        SuccessfulTickKeeps(slash, m, order, block, session, h);
      }
    } else {
      forall h | IsDue(m, head, h) ensures h in n && n[h].status == Init {
        FailedTickResets(slash, m, order, block, session, h);
      }
    }
  }
}
