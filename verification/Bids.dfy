/** Bids, commitments and the store operations of one tick of the bid loop, as values. */
module Bids {
  import opened Types
  import opened Hex
  import opened StoreModel

  datatype BidOption = Shutterised(identityPrefix: string, encryptedTx: string, eonId: int64) | OtherOption

  datatype Bid = Bid(
    txHashes: seq<string>,
    amount: string,
    blockNumber: int64,
    slashAmount: string,
    revertingTxHashes: seq<string>,
    rawTransactions: seq<string>,
    options: seq<BidOption>)

  datatype Commitment = Commitment(txHashes: seq<string>, blockNumber: int64, options: seq<BidOption>)

  const BID_AMOUNT := "30000000000"
  const DEFAULT_SLASH_AMOUNT := "0"
  const INCLUSION_WINDOW: uint64 := 1
  const MAX_INCLUSION_WINDOW: uint64 := 30

  // ---------------------------------------------------------------- creating a bid

  function OptionFor(tx: Encrypted): BidOption {
    Shutterised(tx.identityPrefix, Encode(tx.encryptedTx), ToInt64(tx.eon))
  }

  function MakeBid(slash: string, block: uint64, txs: seq<Encrypted>): Bid {
    Bid(
      seq(|txs|, i requires 0 <= i < |txs| => Encode(txs[i].txHash)),
      BID_AMOUNT,
      ToInt64(block),
      slash,
      [],
      [],
      seq(|txs|, i requires 0 <= i < |txs| => OptionFor(txs[i])))
  }

  function Transactions(m: Store, keys: seq<Hash>): seq<Encrypted>
    requires forall k :: k in keys ==> k in m
  {
    seq(|keys|, i requires 0 <= i < |keys| => m[keys[i]].tx)
  }

  /** The scanned records whose deadline the block still meets, in scan order. */
  function EligibleKeys(m: Store, order: seq<Hash>, block: uint64): (keys: seq<Hash>)
    requires forall k :: k in order ==> k in m
    ensures forall k :: k in keys <==> k in order && m[k].tx.maxInclusionWindow >= block
  {
    if order == [] then [] else
    var last := order[|order| - 1];
    var keys := EligibleKeys(m, order[..|order| - 1], block);
    assert order == order[..|order| - 1] + [last];
    if m[last].tx.maxInclusionWindow >= block then keys + [last] else keys
  }

  function ExpiredKeys(m: Store, order: seq<Hash>, block: uint64): (keys: seq<Hash>)
    requires forall k :: k in order ==> k in m
    ensures forall k :: k in keys <==> k in order && m[k].tx.maxInclusionWindow < block
  {
    if order == [] then [] else
    var last := order[|order| - 1];
    var keys := ExpiredKeys(m, order[..|order| - 1], block);
    assert order == order[..|order| - 1] + [last];
    if m[last].tx.maxInclusionWindow < block then keys + [last] else keys
  }

  lemma {:induction false} FiltersKeepOrder(m: Store, order: seq<Hash>, block: uint64)
    requires forall k :: k in order ==> k in m
    requires NoDuplicates(order)
    ensures NoDuplicates(EligibleKeys(m, order, block))
    ensures NoDuplicates(ExpiredKeys(m, order, block))
  {
    if order != [] {
      FiltersKeepOrder(m, order[..|order| - 1], block);
    }
  }

  datatype Creation = NothingToBid | NoneEligible | Created(bid: Bid, hashes: seq<Hash>)

  function CreationResult(slash: string, m: Store, order: seq<Hash>, block: uint64): Creation
    requires forall k :: k in order ==> k in m
  {
    if order == [] then NothingToBid else
    var keys := EligibleKeys(m, order, block);
    if keys == [] then NoneEligible else Created(MakeBid(slash, block, Transactions(m, keys)), Targets(m, keys))
  }

  function CreationOps(m: Store, order: seq<Hash>, block: uint64): seq<Op>
    requires forall k :: k in order ==> k in m
  {
    StatusOps(Targets(m, ExpiredKeys(m, order, block)), Blocked)
    + StatusOps(Targets(m, EligibleKeys(m, order, block)), BidSubmitted)
  }

  /** Every position of a bid speaks of one and the same record. */
  ghost predicate Aligned(m: Store, bid: Bid, hashes: seq<Hash>) {
    && |bid.txHashes| == |bid.options| == |hashes|
    && forall i :: 0 <= i < |hashes| ==>
         hashes[i] in m && bid.txHashes[i] == Encode(hashes[i]) && bid.options[i] == OptionFor(m[hashes[i]].tx)
  }

  lemma MakeBidIsAligned(slash: string, m: Store, keys: seq<Hash>, block: uint64)
    requires KeysMatch(m) && forall k :: k in keys ==> k in m
    ensures Aligned(m, MakeBid(slash, block, Transactions(m, keys)), keys)
  {
  }

  /** Parsing the text of an aligned bid gives the hashes back. */
  lemma BidHashesParse(m: Store, bid: Bid, hashes: seq<Hash>)
    requires Aligned(m, bid, hashes)
    ensures HashesOf(bid.txHashes) == hashes
  {
    forall i | 0 <= i < |hashes| ensures HexToHash(bid.txHashes[i]) == hashes[i] {
      HashRoundTrip(hashes[i]);
    }
  }

  /** What a bid creation does to one record. */
  function AfterCreation(r: Record, block: uint64): Record {
    if r.status != Init then r
    else if r.tx.maxInclusionWindow >= block then r.(status := BidSubmitted)
    else r.(status := Blocked)
  }

  function CreateAll(m: Store, block: uint64): Store {
    map h | h in m :: AfterCreation(m[h], block)
  }

  lemma MarkTwice(m: Store, expired: seq<Hash>, eligible: seq<Hash>, block: uint64)
    requires forall h :: h in expired <==> h in Expired(m, block)
    requires forall h :: h in eligible <==> h in Eligible(m, block)
    ensures MarkAll(MarkAll(m, expired, Blocked), eligible, BidSubmitted) == CreateAll(m, block)
  {
  }

  lemma CreationEffect(m: Store, order: seq<Hash>, block: uint64)
    requires KeysMatch(m) && IsOrderOf(order, WithStatus(m, Init))
    ensures ApplyAll(m, CreationOps(m, order, block)) == CreateAll(m, block)
  {
    var expired, eligible := ExpiredKeys(m, order, block), EligibleKeys(m, order, block);
    Partition(m, order, block);
    ApplyAllConcat(m, StatusOps(expired, Blocked), StatusOps(eligible, BidSubmitted));
    StatusOpsEffect(m, expired, Blocked);
    StatusOpsEffect(MarkAll(m, expired, Blocked), eligible, BidSubmitted);
    MarkTwice(m, expired, eligible, block);
  }

  function Eligible(m: Store, block: uint64): set<Hash> {
    set h | h in m && m[h].status == Init && m[h].tx.maxInclusionWindow >= block
  }

  function Expired(m: Store, block: uint64): set<Hash> {
    set h | h in m && m[h].status == Init && m[h].tx.maxInclusionWindow < block
  }

  lemma Partition(m: Store, order: seq<Hash>, block: uint64)
    requires IsOrderOf(order, WithStatus(m, Init))
    ensures IsOrderOf(EligibleKeys(m, order, block), Eligible(m, block))
    ensures IsOrderOf(ExpiredKeys(m, order, block), Expired(m, block))
    ensures order == [] <==> WithStatus(m, Init) == {}
    ensures EligibleKeys(m, order, block) == [] <==> Eligible(m, block) == {}
  {
    FiltersKeepOrder(m, order, block);
    if order != [] {
      assert order[0] in WithStatus(m, Init);
    }
    if EligibleKeys(m, order, block) != [] {
      assert EligibleKeys(m, order, block)[0] in Eligible(m, block);
    }
  }

  /** The right answer of a bid creation: which of the three, and a bid that says what it should. */
  ghost predicate IsCreationFor(c: Creation, m: Store, block: uint64) {
    && (c.NothingToBid? <==> WithStatus(m, Init) == {})
    && (c.NoneEligible? <==> WithStatus(m, Init) != {} && Eligible(m, block) == {})
    && (c.Created? ==>
          && IsOrderOf(c.hashes, Eligible(m, block))
          && Aligned(m, c.bid, c.hashes)
          && HashesOf(c.bid.txHashes) == c.hashes
          && ToUint64(c.bid.blockNumber) == block)
  }

  lemma CreationStatuses(m: Store, block: uint64)
    ensures WithStatus(CreateAll(m, block), Init) == {}
    ensures WithStatus(CreateAll(m, block), Blocked) == WithStatus(m, Blocked) + Expired(m, block)
    ensures WithStatus(CreateAll(m, block), BidSubmitted) == WithStatus(m, BidSubmitted) + Eligible(m, block)
  {
  }

  lemma CreatedBid(slash: string, m: Store, order: seq<Hash>, block: uint64)
    requires KeysMatch(m) && IsOrderOf(order, WithStatus(m, Init))
    ensures IsCreationFor(CreationResult(slash, m, order, block), m, block)
  {
    Partition(m, order, block);
    var keys := EligibleKeys(m, order, block);
    var bid := MakeBid(slash, block, Transactions(m, keys));
    MakeBidIsAligned(slash, m, keys, block);
    BidHashesParse(m, bid, keys);
  }

  /**
   Bid construction, for every store and every iteration order: the transactions found in `Init`
   split exactly into the bid and the blocked ones, none stays `Init`, and the bid's arrays and
   the returned hashes line up without repetition.
   */
  lemma BidConstruction(slash: string, m: Store, order: seq<Hash>, block: uint64)
    requires KeysMatch(m) && IsOrderOf(order, WithStatus(m, Init))
    ensures var n := ApplyAll(m, CreationOps(m, order, block));
            && n.Keys == m.Keys
            && WithStatus(n, Init) == {}
            && WithStatus(n, Blocked) == WithStatus(m, Blocked) + Expired(m, block)
            && WithStatus(n, BidSubmitted) == WithStatus(m, BidSubmitted) + Eligible(m, block)
    ensures IsCreationFor(CreationResult(slash, m, order, block), m, block)
  {
    CreationEffect(m, order, block);
    CreationStatuses(m, block);
    CreatedBid(slash, m, order, block);
  }

  /** Another iteration order permutes the bid and changes nothing else. */
  lemma IterationOrderOnlyPermutes(m: Store, a: seq<Hash>, b: seq<Hash>, block: uint64)
    requires KeysMatch(m) && IsOrderOf(a, WithStatus(m, Init)) && IsOrderOf(b, WithStatus(m, Init))
    ensures multiset(EligibleKeys(m, a, block)) == multiset(EligibleKeys(m, b, block))
    ensures multiset(ExpiredKeys(m, a, block)) == multiset(ExpiredKeys(m, b, block))
    ensures ApplyAll(m, CreationOps(m, a, block)) == ApplyAll(m, CreationOps(m, b, block))
  {
    Partition(m, a, block);
    Partition(m, b, block);
    OrdersArePermutations(EligibleKeys(m, a, block), EligibleKeys(m, b, block), Eligible(m, block));
    OrdersArePermutations(ExpiredKeys(m, a, block), ExpiredKeys(m, b, block), Expired(m, block));
    CreationEffect(m, a, block);
    CreationEffect(m, b, block);
  }

  // ---------------------------------------------------------------- submitting it

  /** How the loop that collects commitments was left. */
  datatype Exit = CtxDone | StreamError(eof: bool) | ChannelClosed

  /** What the network did to one submission: the commitments it yielded and the exit taken. */
  datatype Session = NotConnected | NotSent | Streamed(received: seq<Commitment>, exit: Exit)

  datatype SubmitError = ConnectFailed | SendFailed | ContextError | StreamBroken

  function HashesOf(txHashes: seq<string>): seq<Hash> {
    seq(|txHashes|, i requires 0 <= i < |txHashes| => HexToHash(txHashes[i]))
  }

  function CommitmentOps(c: Commitment): seq<Op> {
    CommitOps(HashesOf(c.txHashes), ToUint64(c.blockNumber))
  }

  function ReceivedOps(received: seq<Commitment>): seq<Op> {
    if received == [] then []
    else ReceivedOps(received[..|received| - 1]) + CommitmentOps(received[|received| - 1])
  }

  function SessionReceived(session: Session): seq<Commitment> {
    if session.Streamed? then session.received else []
  }

  function SessionError(session: Session): Option<SubmitError> {
    match session
    case NotConnected => Some(ConnectFailed)
    case NotSent => Some(SendFailed)
    case Streamed(_, CtxDone) => Some(ContextError)
    case Streamed(_, StreamError(eof)) => if eof then None else Some(StreamBroken)
    case Streamed(_, ChannelClosed) => None
  }

  function SessionOps(bid: Bid, session: Session): seq<Op> {
    ReceivedOps(SessionReceived(session))
    + if SessionError(session) == Some(StreamBroken) then StatusOps(HashesOf(bid.txHashes), Init) else []
  }

  /** The bid loop publishes only after a submission without error that brought a commitment. */
  predicate Fails(session: Session) {
    SessionError(session).Some? || SessionReceived(session) == []
  }

  /** The block of the last commitment that names the hash. */
  function LastNaming(received: seq<Commitment>, h: Hash): Option<uint64> {
    if received == [] then None else
    var c := received[|received| - 1];
    if h in HashesOf(c.txHashes) then Some(ToUint64(c.blockNumber)) else LastNaming(received[..|received| - 1], h)
  }

  function AfterNaming(r: Record, naming: Option<uint64>): Record {
    match naming
    case None => r
    case Some(block) => r.(status := Committed, commitedBlock := block)
  }

  function NameAll(m: Store, received: seq<Commitment>): Store {
    map h | h in m :: AfterNaming(m[h], LastNaming(received, h))
  }

  /** Commitments reach exactly the records they name; the last one naming a record decides its block. */
  lemma {:induction false} ReceivedEffect(m: Store, received: seq<Commitment>)
    ensures ApplyAll(m, ReceivedOps(received)) == NameAll(m, received)
  {
    if received != [] {
      var before, c := received[..|received| - 1], received[|received| - 1];
      ReceivedEffect(m, before);
      ApplyAllConcat(m, ReceivedOps(before), CommitmentOps(c));
      CommitOpsEffect(ApplyAll(m, ReceivedOps(before)), HashesOf(c.txHashes), ToUint64(c.blockNumber));
    }
  }

  // ---------------------------------------------------------------- one tick of the bid loop

  /** Submit the bid; if that fails, reset every transaction the creation had returned. */
  function SettleOps(bid: Bid, hashes: seq<Hash>, session: Session): seq<Op> {
    SessionOps(bid, session) + if Fails(session) then StatusOps(hashes, Init) else []
  }

  function TickOps(slash: string, m: Store, order: seq<Hash>, block: uint64, session: Session): seq<Op>
    requires forall k :: k in order ==> k in m
  {
    match CreationResult(slash, m, order, block)
    case NothingToBid => []
    case NoneEligible => CreationOps(m, order, block)
    case Created(bid, hashes) =>
      CreationOps(m, order, block) + SettleOps(bid, hashes, session)
  }

  /** What a whole tick with a failing submission does to one record. */
  function AfterFailedTick(r: Record, block: uint64, naming: Option<uint64>): Record {
    Record(
      r.tx,
      if r.status == Init && r.tx.maxInclusionWindow >= block then Init
      else if naming.Some? then Committed
      else if r.status == Init then Blocked
      else r.status,
      if naming.Some? then naming.value else r.commitedBlock,
      r.retries)
  }

  /** The reset loop of the tick hides whether the submission had reset the same hashes before. */
  lemma SessionThenReset(m: Store, bid: Bid, hashes: seq<Hash>, session: Session)
    requires HashesOf(bid.txHashes) == hashes
    ensures ApplyAll(m, SessionOps(bid, session) + StatusOps(hashes, Init)) ==
            ApplyAll(ApplyAll(m, ReceivedOps(SessionReceived(session))), StatusOps(hashes, Init))
  {
    var received, reset := ReceivedOps(SessionReceived(session)), StatusOps(hashes, Init);
    var n := ApplyAll(m, received);
    ApplyAllConcat(m, SessionOps(bid, session), reset);
    if SessionError(session) == Some(StreamBroken) {
      ApplyAllConcat(m, received, reset);
      StatusOpsEffect(n, hashes, Init);
      StatusOpsEffect(ApplyAll(n, reset), hashes, Init);
      assert ApplyAll(ApplyAll(n, reset), reset) == ApplyAll(n, reset);
    } else {
      assert SessionOps(bid, session) == received;
    }
  }

  lemma RollbackOfMaps(m: Store, hashes: seq<Hash>, received: seq<Commitment>, block: uint64)
    requires forall h :: h in hashes <==> h in Eligible(m, block)
    ensures MarkAll(NameAll(CreateAll(m, block), received), hashes, Init) ==
            map h | h in m :: AfterFailedTick(m[h], block, LastNaming(received, h))
  {
  }

  /**
   Rollback: after any failing submission the tick leaves every transaction of its bid in `Init`
   again. Other records keep their status, except that a commitment received before the failure
   marks what it names and an expired `Init` one is blocked; only commitments set a block.
   */
  lemma Rollback(slash: string, m: Store, order: seq<Hash>, block: uint64, session: Session)
    requires KeysMatch(m) && IsOrderOf(order, WithStatus(m, Init))
    requires || session.NotConnected? || session.NotSent?
             || session.exit == CtxDone || session.exit == StreamError(false) || session.received == []
    requires CreationResult(slash, m, order, block).Created?
    ensures ApplyAll(m, TickOps(slash, m, order, block, session)) ==
            map h | h in m :: AfterFailedTick(m[h], block, LastNaming(SessionReceived(session), h))
  {
    var Created(bid, hashes) := CreationResult(slash, m, order, block);
    var received := SessionReceived(session);
    BidConstruction(slash, m, order, block);
    CreationEffect(m, order, block);
    ApplyAllConcat(m, CreationOps(m, order, block), SessionOps(bid, session) + StatusOps(hashes, Init));
    SessionThenReset(CreateAll(m, block), bid, hashes, session);
    ReceivedEffect(CreateAll(m, block), received);
    StatusOpsEffect(NameAll(CreateAll(m, block), received), hashes, Init);
    RollbackOfMaps(m, hashes, received, block);
  }

  // ---------------------------------------------------------------- publishing the commitments

  datatype KeyperMessage = KeyperMessage(txHashes: seq<string>, blockNumber: int64, identities: seq<string>)

  /** The published prefixes, unless some option is not a Shutter one. */
  function IdentityPrefixes(options: seq<BidOption>): Option<seq<string>> {
    if forall i :: 0 <= i < |options| ==> options[i].Shutterised? then
      Some(seq(|options|, i requires 0 <= i < |options| && options[i].Shutterised? =>
        TrimPrefix(options[i].identityPrefix, "0x")))
    else None
  }

  /** The messages a tick hands to the p2p layer: one per commitment with usable options. */
  function Messages(received: seq<Commitment>): seq<KeyperMessage> {
    if received == [] then [] else
    var rest, c := Messages(received[..|received| - 1]), received[|received| - 1];
    match IdentityPrefixes(c.options)
    case None => rest
    case Some(identities) => rest + [KeyperMessage(c.txHashes, c.blockNumber, identities)]
  }

  /** The messages that reach the keypers, where `reached` says so for each commitment. */
  function Arriving(received: seq<Commitment>, reached: seq<bool>): (messages: seq<KeyperMessage>)
    requires |reached| == |received|
  {
    if received == [] then [] else
    var last := |received| - 1;
    Arriving(received[..last], reached[..last]) + if reached[last] then Messages([received[last]]) else []
  }

  function PrefixesIn(messages: seq<KeyperMessage>): set<string> {
    set message, x | message in messages && x in message.identities :: x
  }

  lemma MessagesOneMore(received: seq<Commitment>)
    requires received != []
    ensures Messages(received) == Messages(received[..|received| - 1]) + Messages([received[|received| - 1]])
  {
    var c := received[|received| - 1];
    assert [c][..0] == [];
  }

  /** Only messages that were sent arrive, and all of them do if none is lost. */
  lemma {:induction false} ArrivingWereSent(received: seq<Commitment>, reached: seq<bool>)
    requires |reached| == |received|
    ensures forall message :: message in Arriving(received, reached) ==> message in Messages(received)
    ensures (forall i :: 0 <= i < |reached| ==> reached[i]) ==> Arriving(received, reached) == Messages(received)
  {
    if received != [] {
      var last := |received| - 1;
      ArrivingWereSent(received[..last], reached[..last]);
      MessagesOneMore(received);
    }
  }

  // ---------------------------------------------------------------- on the fields

  /** What an option of a bid tells about the transaction of one record. */
  ghost predicate Carries(option: BidOption, tx: Encrypted) {
    && option.Shutterised?
    && option.identityPrefix == tx.identityPrefix
    && Decode(option.encryptedTx) == Some(tx.encryptedTx)
    && ToUint64(option.eonId) == tx.eon
  }

  /** Each position of a created bid, and everything else in it, field by field. */
  lemma BidOnFields(slash: string, m: Store, order: seq<Hash>, block: uint64)
    requires KeysMatch(m) && IsOrderOf(order, WithStatus(m, Init))
    requires CreationResult(slash, m, order, block).Created?
    ensures var Created(bid, hashes) := CreationResult(slash, m, order, block);
            && |bid.txHashes| == |bid.options| == |hashes|
            && (forall i :: 0 <= i < |hashes| ==>
                  && hashes[i] in m && Decode(bid.txHashes[i]) == Some(hashes[i])
                  && Carries(bid.options[i], m[hashes[i]].tx))
            && ToUint64(bid.blockNumber) == block
            && bid.amount == "30000000000" && bid.slashAmount == slash
            && bid.revertingTxHashes == [] && bid.rawTransactions == []
  {
    var Created(bid, hashes) := CreationResult(slash, m, order, block);
    CreatedBid(slash, m, order, block);
    forall i | 0 <= i < |hashes| ensures Decode(bid.txHashes[i]) == Some(hashes[i])
      ensures hashes[i] in m && Carries(bid.options[i], m[hashes[i]].tx)
    {
      DecodeEncode(hashes[i]);
      OptionCarries(m[hashes[i]].tx);
    }
  }

  lemma OptionCarries(tx: Encrypted)
    ensures Carries(OptionFor(tx), tx)
  {
    DecodeEncode(tx.encryptedTx);
  }

  /** Which records a creation blocks, submits or leaves alone, by status and deadline. */
  lemma CreationOnFields(m: Store, order: seq<Hash>, block: uint64, h: Hash)
    requires KeysMatch(m) && IsOrderOf(order, WithStatus(m, Init)) && h in m
    ensures var n := ApplyAll(m, CreationOps(m, order, block));
            && n.Keys == m.Keys && n[h] == m[h].(status := n[h].status)
            && (m[h].status != Init ==> n[h].status == m[h].status)
            && (m[h].status == Init && m[h].tx.maxInclusionWindow < block ==> n[h].status == Blocked)
            && (m[h].status == Init && m[h].tx.maxInclusionWindow >= block ==> n[h].status == BidSubmitted)
  {
    CreationEffect(m, order, block);
  }

  /** And which of them the bid contains: if there is any to contain, there is a bid. */
  lemma BidContains(slash: string, m: Store, order: seq<Hash>, block: uint64, h: Hash)
    requires KeysMatch(m) && IsOrderOf(order, WithStatus(m, Init)) && h in m
    ensures var creation := CreationResult(slash, m, order, block);
            && (creation.Created? ==>
                  (h in creation.hashes <==> m[h].status == Init && m[h].tx.maxInclusionWindow >= block))
            && (m[h].status == Init && m[h].tx.maxInclusionWindow >= block ==> creation.Created?)
  {
    CreatedBid(slash, m, order, block);
    assert m[h].status == Init ==> h in WithStatus(m, Init);
    assert m[h].status == Init && m[h].tx.maxInclusionWindow >= block ==> h in Eligible(m, block);
  }

  /** Commitment `i` names the hash, for that block, and none after it does. */
  ghost predicate NamesLast(received: seq<Commitment>, i: nat, h: Hash, block: uint64) {
    && i < |received| && Names(received[i], h) && ToUint64(received[i].blockNumber) == block
    && forall j :: i < j < |received| ==> !Names(received[j], h)
  }

  ghost predicate Names(c: Commitment, h: Hash) {
    exists k :: 0 <= k < |c.txHashes| && HexToHash(c.txHashes[k]) == h
  }

  lemma NamesIff(c: Commitment, h: Hash)
    ensures Names(c, h) <==> h in HashesOf(c.txHashes)
  {
    forall k | 0 <= k < |c.txHashes| ensures HexToHash(c.txHashes[k]) == HashesOf(c.txHashes)[k] {
    }
  }

  lemma NamesLastPrefix(received: seq<Commitment>, i: nat, h: Hash, block: uint64)
    requires received != [] && !Names(received[|received| - 1], h)
    ensures NamesLast(received, i, h, block) <==> NamesLast(received[..|received| - 1], i, h, block)
  {
  }

  lemma {:induction false} LastNamingIff(received: seq<Commitment>, h: Hash, block: uint64)
    ensures LastNaming(received, h) == Some(block) <==> exists i: nat :: NamesLast(received, i, h, block)
    ensures LastNaming(received, h).None? <==> forall i :: 0 <= i < |received| ==> !Names(received[i], h)
  {
    if received != [] {
      var last := |received| - 1;
      NamesIff(received[last], h);
      LastNamingIff(received[..last], h, block);
      if Names(received[last], h) {
        assert ToUint64(received[last].blockNumber) == block ==> NamesLast(received, last, h, block);
      } else {
        forall i: nat ensures NamesLast(received, i, h, block) <==> NamesLast(received[..last], i, h, block) {
          NamesLastPrefix(received, i, h, block);
        }
      }
    }
  }

  /** What received commitments make of one record. */
  lemma ReceivedOnFields(m: Store, received: seq<Commitment>, h: Hash, block: uint64)
    requires h in m
    ensures var n := ApplyAll(m, ReceivedOps(received));
            && n.Keys == m.Keys
            && ((exists i: nat :: NamesLast(received, i, h, block)) ==>
                  n[h] == m[h].(status := Committed, commitedBlock := block))
            && ((forall i :: 0 <= i < |received| ==> !Names(received[i], h)) ==> n[h] == m[h])
  {
    ReceivedEffect(m, received);
    LastNamingIff(received, h, block);
  }

  /** A submission reports no error exactly if the stream was left at its end or by the closed channel. */
  lemma ErrorIff(session: Session)
    ensures SessionError(session).None? <==>
            session.Streamed? && (session.exit == ChannelClosed || session.exit == StreamError(true))
    ensures session.NotConnected? ==> SessionError(session) == Some(ConnectFailed)
    ensures session.NotSent? ==> SessionError(session) == Some(SendFailed)
    ensures session.Streamed? && session.exit == CtxDone ==> SessionError(session) == Some(ContextError)
    ensures session.Streamed? && session.exit == StreamError(false) ==> SessionError(session) == Some(StreamBroken)
  {
  }

  /** What a submission makes of one record before its caller takes over. */
  lemma SessionOnFields(m: Store, bid: Bid, session: Session, h: Hash)
    requires h in m
    ensures var before := ApplyAll(m, ReceivedOps(if session.Streamed? then session.received else []));
            var n := ApplyAll(m, SessionOps(bid, session));
            && n.Keys == before.Keys == m.Keys
            && n[h] == if session.Streamed? && session.exit == StreamError(false) && Named(bid.txHashes, h)
                       then before[h].(status := Init) else before[h]
  {
    var received := ReceivedOps(SessionReceived(session));
    ReceivedEffect(m, SessionReceived(session));
    if SessionError(session) == Some(StreamBroken) {
      ApplyAllConcat(m, received, StatusOps(HashesOf(bid.txHashes), Init));
      StatusOpsEffect(ApplyAll(m, received), HashesOf(bid.txHashes), Init);
      NamedIff(bid.txHashes, h);
    } else {
      assert SessionOps(bid, session) == received;
    }
  }

  ghost predicate Named(txHashes: seq<string>, h: Hash) {
    exists k :: 0 <= k < |txHashes| && HexToHash(txHashes[k]) == h
  }

  lemma NamedIff(txHashes: seq<string>, h: Hash)
    ensures Named(txHashes, h) <==> h in HashesOf(txHashes)
  {
    forall k | 0 <= k < |txHashes| ensures HexToHash(txHashes[k]) == HashesOf(txHashes)[k] {
    }
  }

  /** A tick whose submission fails leaves every transaction of its bid `Init`. */
  lemma FailedTickResets(slash: string, m: Store, order: seq<Hash>, block: uint64, session: Session, h: Hash)
    requires KeysMatch(m) && IsOrderOf(order, WithStatus(m, Init))
    requires || session.NotConnected? || session.NotSent?
             || session.exit == CtxDone || session.exit == StreamError(false) || session.received == []
    requires h in m && m[h].status == Init && m[h].tx.maxInclusionWindow >= block
    ensures var n := ApplyAll(m, TickOps(slash, m, order, block, session)); h in n && n[h].status == Init
  {
    BidContains(slash, m, order, block, h);
    Rollback(slash, m, order, block, session);
  }

  lemma SuccessfulTickStore(slash: string, m: Store, order: seq<Hash>, block: uint64, session: Session)
    requires forall k :: k in order ==> k in m
    requires session.Streamed? && session.received != []
    requires session.exit == ChannelClosed || session.exit == StreamError(true)
    requires CreationResult(slash, m, order, block).Created?
    ensures ApplyAll(m, TickOps(slash, m, order, block, session)) ==
            ApplyAll(ApplyAll(m, CreationOps(m, order, block)), ReceivedOps(session.received))
  {
    var Created(bid, hashes) := CreationResult(slash, m, order, block);
    assert SettleOps(bid, hashes, session) == ReceivedOps(session.received);
    ApplyAllConcat(m, CreationOps(m, order, block), ReceivedOps(session.received));
  }

  lemma StatusAfterReceived(m: Store, received: seq<Commitment>, h: Hash)
    requires h in m
    ensures var n := ApplyAll(m, ReceivedOps(received));
            && h in n
            && n[h].status == if exists i :: 0 <= i < |received| && Names(received[i], h) then Committed else m[h].status
  {
    ReceivedEffect(m, received);
    LastNamingIff(received, h, 0);
  }

  /** One whose submission succeeds leaves none of them `Init`: committed where named, else submitted. */
  lemma SuccessfulTickKeeps(slash: string, m: Store, order: seq<Hash>, block: uint64, session: Session, h: Hash)
    requires KeysMatch(m) && IsOrderOf(order, WithStatus(m, Init))
    requires session.Streamed? && session.received != []
    requires session.exit == ChannelClosed || session.exit == StreamError(true)
    requires h in m && m[h].status == Init && m[h].tx.maxInclusionWindow >= block
    ensures var n := ApplyAll(m, TickOps(slash, m, order, block, session));
            && h in n
            && n[h].status == if exists i :: 0 <= i < |session.received| && Names(session.received[i], h)
                              then Committed else BidSubmitted
  {
    CreationOnFields(m, order, block, h);
    BidContains(slash, m, order, block, h);
    SuccessfulTickStore(slash, m, order, block, session);
    StatusAfterReceived(ApplyAll(m, CreationOps(m, order, block)), session.received, h);
  }

  /** The published prefixes: each without a leading 0x; one foreign option spoils them all. */
  lemma PrefixesOnFields(options: seq<BidOption>)
    ensures IdentityPrefixes(options).None? <==> exists i :: 0 <= i < |options| && options[i].OtherOption?
    ensures IdentityPrefixes(options).Some? ==>
              && |IdentityPrefixes(options).value| == |options|
              && forall i :: 0 <= i < |options| ==>
                   var x := IdentityPrefixes(options).value[i];
                   || options[i].identityPrefix == "0x" + x
                   || (options[i].identityPrefix == x && !("0x" <= x))
  {
  }

  lemma {:induction false} MessagesConcat(a: seq<Commitment>, b: seq<Commitment>)
    ensures Messages(a + b) == Messages(a) + Messages(b)
  {
    if b == [] {
      assert a + b == a;
    } else {
      var last := |b| - 1;
      assert (a + b)[..|a + b| - 1] == a + b[..last];
      MessagesConcat(a, b[..last]);
    }
  }

  /** The message of one commitment, if its options are usable. */
  lemma MessageOnFields(c: Commitment)
    ensures if exists i :: 0 <= i < |c.options| && c.options[i].OtherOption? then Messages([c]) == []
            else && |Messages([c])| == 1 && IdentityPrefixes(c.options).Some?
                 && Messages([c])[0].txHashes == c.txHashes && Messages([c])[0].blockNumber == c.blockNumber
                 && Messages([c])[0].identities == IdentityPrefixes(c.options).value
  {
    PrefixesOnFields(c.options);
    assert [c][..0] == [];
  }

  lemma PrefixesInIff(messages: seq<KeyperMessage>, x: string)
    ensures x in PrefixesIn(messages) <==>
            exists i, j :: 0 <= i < |messages| && 0 <= j < |messages[i].identities| && messages[i].identities[j] == x
  {
    if x in PrefixesIn(messages) {
      var message :| message in messages && x in message.identities;
      var i :| 0 <= i < |messages| && messages[i] == message;
      var j :| 0 <= j < |message.identities| && message.identities[j] == x;
      assert messages[i].identities[j] == x;
    }
    if i, j :| 0 <= i < |messages| && 0 <= j < |messages[i].identities| && messages[i].identities[j] == x {
      assert messages[i] in messages && x in messages[i].identities;
    }
  }

  /** A message arrives exactly if it is that of a commitment whose message reaches the keypers. */
  lemma {:induction false} ArrivesIff(received: seq<Commitment>, reached: seq<bool>, message: KeyperMessage)
    requires |reached| == |received|
    ensures message in Arriving(received, reached) <==>
            exists i :: 0 <= i < |received| && reached[i] && message in Messages([received[i]])
  {
    if received != [] {
      var last := |received| - 1;
      ArrivesIff(received[..last], reached[..last], message);
      assert forall i :: 0 <= i < last ==> received[..last][i] == received[i] && reached[..last][i] == reached[i];
    }
  }
}
