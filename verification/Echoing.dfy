/**
 What follows when providers answer with the bid they were sent, whatever keypers do and however
 identities collide: every update finds its record, and no block on record lies past its deadline.
 */
module Echoing {
  import opened Types
  import opened Hex
  import opened StoreModel
  import opened Bids
  import opened Shutter
  import opened Protocol
  import opened Safety

  ghost predicate Echoes(c: Commitment, bid: Bid) {
    c.txHashes == bid.txHashes && c.blockNumber == bid.blockNumber && c.options == bid.options
  }

  ghost predicate EchoesIfAny(s: State, e: Event) {
    e.CommitmentArrives? && BidLoopEnabled(s, e) ==> Echoes(e.c, s.phase.bid)
  }

  ghost predicate EchoesAt(r: Run, i: nat)
    requires i < |r.events| < |r.states|
  {
    EchoesIfAny(r.states[i], r.events[i])
  }

  /** Every commitment echoes the bid it answers; nothing else is assumed. */
  ghost predicate IsEchoingRun(cfg: Config, r: Run) {
    IsRun(cfg, r) && forall i :: 0 <= i < |r.events| ==> EchoesAt(r, i)
  }

  ghost predicate ReceivedEcho(ph: Phase) {
    ph.Submitting? ==> forall i :: 0 <= i < |ph.received| ==> Echoes(ph.received[i], ph.bid)
  }

  lemma StepKeepsEcho(s: State, e: Event)
    requires BidLoopEnabled(s, e) && ReceivedEcho(s.phase) && EchoesIfAny(s, e)
    ensures ReceivedEcho(NextPhase(s, e))
  {
  }

  lemma {:induction false} EchoHolds(cfg: Config, r: Run, n: nat)
    requires IsEchoingRun(cfg, r) && n < |r.states|
    ensures ReceivedEcho(r.states[n].phase)
  {
    if n > 0 {
      EchoHolds(cfg, r, n - 1);
      assert StepAt(cfg, r, n - 1) && EchoesAt(r, n - 1);
      if BidLoopEnabled(r.states[n - 1], r.events[n - 1]) {
        StepKeepsEcho(r.states[n - 1], r.events[n - 1]);
      }
    }
  }

  /** The status writes of the bid loop hit the transaction at hand. */
  lemma BidLoopTargets(cfg: Config, s: State, e: Event)
    requires Inv(cfg, s) && ReceivedEcho(s.phase) && BidLoopEnabled(s, e)
    requires e.CommitmentMarks? || e.TickUndoes?
    ensures s.phase.next < |s.phase.hashes| && e.hash == s.phase.hashes[s.phase.next]
  {
    var ph := s.phase;
    BidHashesParse(s.store, ph.bid, ph.hashes);
    assert ph.next < |ph.bid.txHashes|;
    assert HashesOf(ph.bid.txHashes)[ph.next] == HexToHash(ph.bid.txHashes[ph.next]);
  }

  lemma EchoLands(cfg: Config, s: State, e: Event)
    requires Inv(cfg, s) && ReceivedEcho(s.phase) && BidLoopEnabled(s, e) && e.CommitmentMarks?
    ensures e.hash in s.store && e.block <= s.store[e.hash].tx.maxInclusionWindow
  {
    BidLoopTargets(cfg, s, e);
    assert Echoes(s.phase.received[|s.phase.received| - 1], s.phase.bid);
    assert InTime(s.store, s.phase.hashes, ToUint64(s.phase.bid.blockNumber));
  }

  /** With echoing commitments every update of every actor finds its record. */
  lemma AllUpdatesLand(cfg: Config, r: Run, i: nat)
    requires IsEchoingRun(cfg, r) && i < |r.events|
    ensures Lands(r.states[i].store, Effect(r.states[i], r.events[i]))
  {
    OwnUpdatesLand(cfg, r, i);
    if r.events[i].CommitmentMarks? {
      InvHolds(cfg, r, i);
      EchoHolds(cfg, r, i);
      assert StepAt(cfg, r, i);
      EchoLands(cfg, r.states[i], r.events[i]);
    }
  }

  // ---------------------------------------------------------------- committed blocks

  ghost predicate BlocksInTime(m: Store) {
    forall h :: h in m ==> m[h].commitedBlock <= m[h].tx.maxInclusionWindow
  }

  lemma OpKeepsBlocksInTime(m: Store, op: Op)
    requires BlocksInTime(m) && !op.Retry?
    requires op.Commit? && op.hash in m ==> op.block <= m[op.hash].tx.maxInclusionWindow
    ensures BlocksInTime(Apply(m, op))
  {
  }

  lemma StepKeepsBlocksInTime(cfg: Config, s: State, e: Event)
    requires Inv(cfg, s) && ReceivedEcho(s.phase) && BlocksInTime(s.store) && Enabled(cfg, s, e)
    ensures BlocksInTime(Apply(s.store, Effect(s, e)))
  {
    if e.CommitmentMarks? {
      EchoLands(cfg, s, e);
    }
    OpKeepsBlocksInTime(s.store, Effect(s, e));
  }

  /** With echoing commitments a transaction is never committed for a block past its deadline. */
  lemma {:induction false} CommittedInTime(cfg: Config, r: Run, n: nat)
    requires IsEchoingRun(cfg, r) && n < |r.states|
    ensures BlocksInTime(r.states[n].store)
  {
    if n == 0 {
      assert r.states[n].store == map[];
    } else {
      CommittedInTime(cfg, r, n - 1);
      InvHolds(cfg, r, n - 1);
      EchoHolds(cfg, r, n - 1);
      assert StepAt(cfg, r, n - 1);
      StepKeepsBlocksInTime(cfg, r.states[n - 1], r.events[n - 1]);
    }
  }

  // ---------------------------------------------------------------- no commitment for block 0

  /** No tick reads the one head after which the next block wraps around to 0. */
  ghost predicate HeadsBelowMax(r: Run) {
    |r.events| < |r.states| && forall i :: 0 <= i < |r.events| ==> HeadBelowMaxAt(r, i)
  }

  ghost predicate HeadBelowMaxAt(r: Run, i: nat)
    requires i < |r.events| < |r.states|
  {
    r.events[i].TickReadsHead? ==> r.states[i].head < TWO_TO_THE_64 - 1
  }

  ghost predicate NonzeroBlocks(r: Run) {
    forall i :: 0 <= i < |r.events| && r.events[i].CommitmentMarks? ==> r.events[i].block != 0
  }

  ghost predicate BlockNonzero(ph: Phase) {
    match ph
    case HeadRead(block) => block != 0
    case Blocking(block, _, _, _, _) => block != 0
    case Marking(bid, _, _) => ToUint64(bid.blockNumber) != 0
    case Submitting(bid, _, _, _) => ToUint64(bid.blockNumber) != 0
    case _ => true
  }

  lemma StepKeepsNonzero(s: State, e: Event)
    requires BidLoopEnabled(s, e) && BlockNonzero(s.phase)
    requires e.TickReadsHead? ==> s.head < TWO_TO_THE_64 - 1
    ensures BlockNonzero(NextPhase(s, e))
  {
  }

  lemma {:induction false} NonzeroHolds(cfg: Config, r: Run, n: nat)
    requires IsRun(cfg, r) && HeadsBelowMax(r) && n < |r.states|
    ensures BlockNonzero(r.states[n].phase)
  {
    if n > 0 {
      NonzeroHolds(cfg, r, n - 1);
      assert StepAt(cfg, r, n - 1) && HeadBelowMaxAt(r, n - 1);
      if BidLoopEnabled(r.states[n - 1], r.events[n - 1]) {
        StepKeepsNonzero(r.states[n - 1], r.events[n - 1]);
      }
    }
  }

  lemma MarkedIsTheBlockOfTheBid(s: State, e: Event)
    requires BidLoopEnabled(s, e) && e.CommitmentMarks? && ReceivedEcho(s.phase)
    ensures e.block == ToUint64(s.phase.bid.blockNumber)
  {
    assert Echoes(s.phase.received[|s.phase.received| - 1], s.phase.bid);
  }

  /** Bids are for the block after a head, so where commitments echo and no head wraps around, none is for block 0. */
  lemma EchoedBlocksAreNonzero(cfg: Config, r: Run)
    requires IsEchoingRun(cfg, r) && HeadsBelowMax(r)
    ensures NonzeroBlocks(r)
  {
    forall i | 0 <= i < |r.events| && r.events[i].CommitmentMarks? ensures r.events[i].block != 0 {
      EchoHolds(cfg, r, i);
      NonzeroHolds(cfg, r, i);
      assert StepAt(cfg, r, i);
      MarkedIsTheBlockOfTheBid(r.states[i], r.events[i]);
    }
  }
}
