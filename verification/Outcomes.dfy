/** How scans, bids and submissions come out in every run, told by steps, statuses and fields alone. */
module Outcomes {
  import opened Types
  import opened Hex
  import opened StoreModel
  import opened Bids
  import opened Shutter
  import opened Protocol
  import opened Safety

  // ---------------------------------------------------------------- scans are complete

  /** A scan of the bid loop takes exactly the `Init` records. */
  lemma BidScanIsComplete(cfg: Config, r: Run, i: nat, h: Hash)
    requires IsRun(cfg, r) && i < |r.events| && r.events[i].TickScans?
    ensures h in r.events[i].order <==> h in r.states[i].store && r.states[i].store[h].status == Init
  {
    assert StepAt(cfg, r, i);
  }

  /** A scan of the verifier takes exactly the decrypted records with a block from 1 to the head it has read. */
  lemma VerifierScanIsComplete(cfg: Config, r: Run, i: nat, h: Hash)
    requires IsRun(cfg, r) && i < |r.events| && r.events[i].VerifierScans?
    ensures r.states[i].verifier.HeadKnown?
    ensures h in r.events[i].order <==>
            && h in r.states[i].store && r.states[i].store[h].status == Decrypted
            && 0 < r.states[i].store[h].commitedBlock <= r.states[i].verifier.head
  {
    assert StepAt(cfg, r, i);
  }

  /** A tick bids for the block after the head it reads. */
  lemma TickBidsForNextBlock(cfg: Config, r: Run, i: nat)
    requires IsRun(cfg, r) && i < |r.events| && r.events[i].TickReadsHead?
    ensures r.states[i + 1].phase == HeadRead(Add64(r.states[i].head, 1))
  {
    assert StepAt(cfg, r, i);
  }

  /**
   A publication that reaches the keypers tells them the prefix in every option of the commitment,
   without a leading 0x, and no other; one that does not, or has a foreign option, tells them nothing.
   */
  lemma PublicationIsComplete(cfg: Config, r: Run, i: nat, x: string)
    requires IsRun(cfg, r) && i < |r.events| && r.events[i].TickPublishes?
    ensures r.states[i].phase.Publishing? && r.states[i].phase.next < |r.states[i].phase.received|
    ensures var options := r.states[i].phase.received[r.states[i].phase.next].options;
            x in r.states[i + 1].published <==>
            || x in r.states[i].published
            || (&& r.events[i].reached
                && (forall k :: 0 <= k < |options| ==> options[k].Shutterised?)
                && exists k :: 0 <= k < |options| && options[k].Shutterised?
                     && (options[k].identityPrefix == "0x" + x || (options[k].identityPrefix == x && !("0x" <= x))))
  {
    assert StepAt(cfg, r, i);
    var options := r.states[i].phase.received[r.states[i].phase.next].options;
    PrefixListedIff(options, x);
  }

  lemma PrefixListedIff(options: seq<BidOption>, x: string)
    ensures IdentityPrefixes(options).Some? ==>
              (x in IdentityPrefixes(options).value <==>
               exists k :: 0 <= k < |options| && options[k].Shutterised?
                 && (options[k].identityPrefix == "0x" + x || (options[k].identityPrefix == x && !("0x" <= x))))
  {
    PrefixesOnFields(options);
    if k :| 0 <= k < |options| && options[k].Shutterised?
            && (options[k].identityPrefix == "0x" + x || (options[k].identityPrefix == x && !("0x" <= x))) {
      if IdentityPrefixes(options).Some? {
        assert IdentityPrefixes(options).value[k] == x;
      }
    }
  }

  // ---------------------------------------------------------------- bids carry their transactions

  /** Every bid of every run: hashes and options line up, and each option carries its transaction. */
  lemma BuiltBidCarries(cfg: Config, r: Run, i: nat)
    requires IsRun(cfg, r) && i < |r.events| && r.events[i].TickBuilds?
    ensures var bid, hashes, m := r.events[i].bid, r.events[i].hashes, r.states[i].store;
            && |bid.txHashes| == |bid.options| == |hashes|
            && r.states[i].phase.Blocking? && ToUint64(bid.blockNumber) == r.states[i].phase.block
            && bid.amount == "30000000000" && bid.slashAmount == "0"
            && bid.revertingTxHashes == [] && bid.rawTransactions == []
            && forall k :: 0 <= k < |hashes| ==>
                 && hashes[k] in m && Decode(bid.txHashes[k]) == Some(hashes[k]) && Carries(bid.options[k], m[hashes[k]].tx)
  {
    var s, e := r.states[i], r.events[i];
    InvHolds(cfg, r, i);
    assert StepAt(cfg, r, i);
    BuildOk(cfg, s, e.bid, e.hashes);
    forall k | 0 <= k < |e.hashes|
      ensures e.hashes[k] in s.store && Decode(e.bid.txHashes[k]) == Some(e.hashes[k])
      ensures Carries(e.bid.options[k], s.store[e.hashes[k]].tx)
    {
      DecodeEncode(e.hashes[k]);
      OptionCarries(s.store[e.hashes[k]].tx);
    }
  }

  /** Whoever gets the key of option `k` reads from it the payload of transaction `k` as it was submitted. */
  lemma BuiltBidDecrypts(cfg: Config, a: Bytes, r: Run, i: nat, k: nat)
    requires IsRun(cfg, r) && i < |r.events| && r.events[i].TickBuilds? && k < |r.events[i].hashes|
    requires HasAddress(cfg, a) && DecryptsWhatItEncrypts(cfg.crypto)
    ensures r.events[i].hashes[k] in r.states[i].store && k < |r.events[i].bid.options|
    ensures var option := r.events[i].bid.options[k];
            && option.Shutterised? && Decode(option.identityPrefix).Some? && Decode(option.encryptedTx).Some?
            && var identity := cfg.crypto.keccak(Decode(option.identityPrefix).value + a);
               var key := cfg.crypto.epochKey(cfg.crypto.eonKey(ToUint64(option.eonId)), identity);
               cfg.crypto.decrypt(Decode(option.encryptedTx).value, key) ==
               Payload(r.states[i].store[r.events[i].hashes[k]].tx.rawTx)
  {
    BuiltBidCarries(cfg, r, i);
    InvHolds(cfg, r, i);
    var h := r.events[i].hashes[k];
    OptionDecrypts(cfg, a, r.events[i].bid.options[k], r.states[i].store[h].tx, h);
  }

  // ---------------------------------------------------------------- which submissions succeed

  /**
   The bid loop comes to publish exactly by leaving a submission through the closed channel or an
   EOF, once commitments have been received; it then publishes those, for that bid.
   */
  lemma PublishingEnteredIff(cfg: Config, r: Run, i: nat)
    requires IsRun(cfg, r) && i < |r.events|
    ensures r.states[i + 1].phase.Publishing? && !r.states[i].phase.Publishing? <==>
            && r.states[i].phase.Submitting?
            && (r.events[i] == StreamExits(ChannelClosed) || r.events[i] == StreamExits(StreamError(true)))
    ensures r.states[i].phase.Submitting? ==> r.states[i].phase.received != []
    ensures r.states[i].phase.Submitting? && r.states[i + 1].phase.Publishing? ==>
              && r.states[i + 1].phase.hashes == r.states[i].phase.hashes
              && r.states[i + 1].phase.received == r.states[i].phase.received
  {
    InvHolds(cfg, r, i);
    assert StepAt(cfg, r, i);
  }

  /** The submission has failed: not sent, left without a commitment, timed out, or broken. */
  ghost predicate FailsAt(r: Run, i: nat)
    requires i < |r.events| < |r.states|
  {
    || r.events[i].BidNotSent?
    || (r.events[i].StreamExits? && r.states[i].phase.Marking?)
    || r.events[i] == StreamExits(CtxDone)
    || r.events[i] == StreamExits(StreamError(false))
  }

  ghost predicate MustReset(s: State, h: Hash) {
    || (s.phase.Undoing? && h in s.phase.hashes)
    || (s.phase.Resetting? && exists i :: s.phase.next <= i < |s.phase.hashes| && s.phase.hashes[i] == h)
  }

  lemma FailureMustReset(s: State, e: Event, h: Hash)
    requires BidLoopEnabled(s, e) && (s.phase.Marking? || s.phase.Submitting?) && h in s.phase.hashes
    requires || e.BidNotSent? || (e.StreamExits? && s.phase.Marking?)
             || e == StreamExits(CtxDone) || e == StreamExits(StreamError(false))
    ensures MustReset(s.(phase := NextPhase(s, e)), h)
  {
    var i :| 0 <= i < |s.phase.hashes| && s.phase.hashes[i] == h;
  }

  lemma MustResetStays(s: State, e: Event, h: Hash)
    requires BidLoopEnabled(s, e) && MustReset(s, h) && e != TickResets(h)
    ensures MustReset(s.(phase := NextPhase(s, e)), h)
  {
    if e.TickUndone? {
      var i :| 0 <= i < |s.phase.hashes| && s.phase.hashes[i] == h;
    } else if e.TickResets? {
      var i :| s.phase.next <= i < |s.phase.hashes| && s.phase.hashes[i] == h;
      assert i != s.phase.next;
    }
  }

  lemma {:induction false} MustResetUntil(cfg: Config, r: Run, i: nat, j: nat, h: Hash)
    requires IsRun(cfg, r) && i <= j < |r.states| && MustReset(r.states[i], h)
    requires forall k :: i <= k < j ==> r.events[k] != TickResets(h)
    ensures MustReset(r.states[j], h)
    decreases j
  {
    if i < j {
      MustResetUntil(cfg, r, i, j - 1, h);
      assert StepAt(cfg, r, j - 1);
      if BidLoopEnabled(r.states[j - 1], r.events[j - 1]) {
        MustResetStays(r.states[j - 1], r.events[j - 1], h);
      }
    }
  }

  /**
   Every failed submission is reset: before the bid loop does anything but undo and reset, each
   transaction of the bid has been put back to `Init`.
   */
  lemma FailureIsReset(cfg: Config, r: Run, i: nat, j: nat, h: Hash)
    requires IsRun(cfg, r) && i < |r.events| && i < j < |r.states| && FailsAt(r, i)
    requires (r.states[i].phase.Marking? || r.states[i].phase.Submitting?) && h in r.states[i].phase.hashes
    requires !r.states[j].phase.Undoing? && !r.states[j].phase.Resetting?
    ensures exists k :: i < k < j && r.events[k] == TickResets(h)
  {
    if forall k :: i < k < j ==> r.events[k] != TickResets(h) {
      assert StepAt(cfg, r, i);
      FailureMustReset(r.states[i], r.events[i], h);
      MustResetUntil(cfg, r, i + 1, j, h);
      assert false;
    }
  }
}
