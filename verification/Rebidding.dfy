/** How often a transaction can be bid again while the chain's head only moves forward. */
module Rebidding {
  import opened Types
  import opened Hex
  import opened StoreModel
  import opened Shutter
  import opened Protocol
  import opened Safety
  import opened History

  /** The head never moves back, and stays so low that a deadline does not wrap around. */
  ghost predicate SteadyHead(s: State, e: Event) {
    s.head < TWO_TO_THE_64 - 30 && (e.HeadMoves? ==> s.head <= e.newHead)
  }

  ghost predicate IsSteadyRun(cfg: Config, r: Run) {
    IsRun(cfg, r) && forall i :: 0 <= i < |r.events| ==> SteadyAt(r, i)
  }

  ghost predicate SteadyAt(r: Run, i: nat)
    requires i < |r.events| < |r.states|
  {
    SteadyHead(r.states[i], r.events[i])
  }

  /** The blocks of the bids that contained the hash, in order. */
  function BidBlocks(log: seq<Event>, h: Hash): seq<uint64> {
    if log == [] then [] else
    var rest, e := BidBlocks(log[..|log| - 1], h), log[|log| - 1];
    if e.TickBuilds? && h in e.hashes then rest + [ToUint64(e.bid.blockNumber)] else rest
  }

  /** The head at which a transaction was encrypted is the deadline less the window. */
  ghost predicate EncryptedBy(deadline: uint64, head: uint64) {
    30 <= deadline as int <= head as int + 30
  }

  /** The bid loop has fixed a block for its next bid, and the block lies after the encryption. */
  ghost predicate NextBlockIsLater(ph: Phase, deadline: uint64) {
    ph.HeadRead? || ph.Blocking? ==> deadline as int - 30 < ph.block as int
  }

  /** All bids meet the deadline, and all but the first are for blocks after the encryption. */
  ghost predicate BlocksFit(blocks: seq<uint64>, deadline: uint64) {
    && (forall i :: 0 <= i < |blocks| ==> blocks[i] <= deadline)
    && (forall i :: 1 <= i < |blocks| ==> deadline as int - 30 < blocks[i] as int)
  }

  /** The transaction was encrypted, with the prefix it carries, when the head was `head`. */
  ghost predicate EncryptedAt(log: seq<Event>, tx: Encrypted, head: int) {
    exists e :: e in log && e.SubmitEncrypts? && e.head as int == head && tx.identityPrefix == Encode(e.prefix)
  }

  ghost predicate Origins(s: State, log: seq<Event>) {
    && (forall h :: h in s.store ==>
          EncryptedAt(log, s.store[h].tx, s.store[h].tx.maxInclusionWindow as int - 30))
    && (forall p :: p in s.subs && s.subs[p].Storing? ==>
          EncryptedAt(log, s.subs[p].tx, s.subs[p].tx.maxInclusionWindow as int - 30))
  }

  lemma OriginStays(log: seq<Event>, e: Event, tx: Encrypted, head: int)
    requires EncryptedAt(log, tx, head)
    ensures EncryptedAt(log + [e], tx, head)
  {
    var o :| o in log && o.SubmitEncrypts? && o.head as int == head && tx.identityPrefix == Encode(o.prefix);
    assert o in log + [e];
  }

  lemma StoredOrigin(m: Store, op: Op, h: Hash)
    requires !op.Retry? && h in Apply(m, op)
    ensures var tx := if h in m then m[h].tx else if op.Insert? then op.tx else Apply(m, op)[h].tx;
            && Apply(m, op)[h].tx.maxInclusionWindow == tx.maxInclusionWindow
            && Apply(m, op)[h].tx.identityPrefix == tx.identityPrefix
            && (h !in m ==> op.Insert? && op.hash == h)
  {
  }

  /** Where the transaction of a submission that is about to store comes from. */
  lemma SentOrigin(cfg: Config, s: State, e: Event, p: nat)
    requires SubmissionEnabled(cfg, s, e) && SteadyHead(s, e)
    requires p in NextSubs(cfg, s, e) && NextSubs(cfg, s, e)[p].Storing?
    ensures var tx := NextSubs(cfg, s, e)[p].tx;
            if e.SubmitEncrypts? && p == e.sub
            then tx.maxInclusionWindow as int - 30 == e.head as int && tx.identityPrefix == Encode(e.prefix)
            else p in s.subs && s.subs[p].Storing? && tx == s.subs[p].tx
  {
  }

  lemma StoreKeepsOrigins(cfg: Config, s: State, e: Event, log: seq<Event>, h: Hash)
    requires Origins(s, log) && Enabled(cfg, s, e) && h in Apply(s.store, Effect(s, e))
    ensures var tx := Apply(s.store, Effect(s, e))[h].tx;
            EncryptedAt(log + [e], tx, tx.maxInclusionWindow as int - 30)
  {
    StoredOrigin(s.store, Effect(s, e), h);
    var tx := if h in s.store then s.store[h].tx else e.tx;
    OriginStays(log, e, tx, tx.maxInclusionWindow as int - 30);
  }

  lemma SubmissionKeepsOrigins(cfg: Config, s: State, e: Event, log: seq<Event>, p: nat)
    requires Origins(s, log) && SubmissionEnabled(cfg, s, e) && SteadyHead(s, e)
    requires p in NextSubs(cfg, s, e) && NextSubs(cfg, s, e)[p].Storing?
    ensures var tx := NextSubs(cfg, s, e)[p].tx;
            EncryptedAt(log + [e], tx, tx.maxInclusionWindow as int - 30)
  {
    SentOrigin(cfg, s, e, p);
    if e.SubmitEncrypts? && p == e.sub {
      assert e in log + [e];
    } else {
      OriginStays(log, e, s.subs[p].tx, s.subs[p].tx.maxInclusionWindow as int - 30);
    }
  }

  lemma StepKeepsOrigins(cfg: Config, s: State, e: Event, log: seq<Event>)
    requires Origins(s, log) && Enabled(cfg, s, e) && SteadyHead(s, e)
    ensures Origins(After(cfg, s, e), log + [e])
  {
    var t := After(cfg, s, e);
    forall h | h in t.store
      ensures EncryptedAt(log + [e], t.store[h].tx, t.store[h].tx.maxInclusionWindow as int - 30)
    {
      StoreKeepsOrigins(cfg, s, e, log, h);
    }
    forall p | p in t.subs && t.subs[p].Storing?
      ensures EncryptedAt(log + [e], t.subs[p].tx, t.subs[p].tx.maxInclusionWindow as int - 30)
    {
      if SubmissionEnabled(cfg, s, e) {
        SubmissionKeepsOrigins(cfg, s, e, log, p);
      } else {
        OriginStays(log, e, t.subs[p].tx, t.subs[p].tx.maxInclusionWindow as int - 30);
      }
    }
  }

  /** Everything was encrypted at a head the chain has reached. */
  ghost predicate EncryptedSoFar(s: State) {
    && (forall h :: h in s.store ==> EncryptedBy(s.store[h].tx.maxInclusionWindow, s.head))
    && (forall p :: p in s.subs && s.subs[p].Storing? ==> EncryptedBy(s.subs[p].tx.maxInclusionWindow, s.head))
  }

  /** A transaction that was bid for the blocks, if any, and may be bid again. */
  ghost predicate RebidsWell(s: State, blocks: seq<uint64>, h: Hash) {
    blocks != [] ==>
      && h in s.store
      && BlocksFit(blocks, s.store[h].tx.maxInclusionWindow)
      && NextBlockIsLater(s.phase, s.store[h].tx.maxInclusionWindow)
  }

  ghost predicate Rebids(s: State, log: seq<Event>) {
    EncryptedSoFar(s) && forall h :: RebidsWell(s, BidBlocks(log, h), h)
  }

  lemma StoreDeadlinesKept(m: Store, op: Op)
    requires !op.Retry?
    ensures forall h :: h in m ==>
              h in Apply(m, op) && Apply(m, op)[h].tx.maxInclusionWindow == m[h].tx.maxInclusionWindow
    ensures forall h :: h in Apply(m, op) && h !in m ==> op == Insert(h, Apply(m, op)[h].tx)
  {
  }

  lemma HeadNotLower(cfg: Config, s: State, e: Event)
    requires Enabled(cfg, s, e) && SteadyHead(s, e)
    ensures s.head <= After(cfg, s, e).head
  {
  }

  lemma SentDeadline(cfg: Config, s: State, e: Event, p: nat)
    requires EncryptedSoFar(s) && SubmissionEnabled(cfg, s, e) && SteadyHead(s, e)
    requires p in NextSubs(cfg, s, e) && NextSubs(cfg, s, e)[p].Storing?
    ensures EncryptedBy(NextSubs(cfg, s, e)[p].tx.maxInclusionWindow, s.head)
  {
    SentOrigin(cfg, s, e, p);
  }

  lemma StoredDeadline(cfg: Config, s: State, e: Event, h: Hash)
    requires EncryptedSoFar(s) && Enabled(cfg, s, e) && h in Apply(s.store, Effect(s, e))
    ensures EncryptedBy(Apply(s.store, Effect(s, e))[h].tx.maxInclusionWindow, s.head)
  {
    StoreDeadlinesKept(s.store, Effect(s, e));
  }

  lemma DeadlinesKept(cfg: Config, s: State, e: Event)
    requires EncryptedSoFar(s) && Enabled(cfg, s, e) && SteadyHead(s, e)
    ensures EncryptedSoFar(After(cfg, s, e))
  {
    var t := After(cfg, s, e);
    HeadNotLower(cfg, s, e);
    forall h | h in t.store ensures EncryptedBy(t.store[h].tx.maxInclusionWindow, t.head) {
      StoredDeadline(cfg, s, e, h);
    }
    forall p | p in t.subs && t.subs[p].Storing? ensures EncryptedBy(t.subs[p].tx.maxInclusionWindow, t.head) {
      if SubmissionEnabled(cfg, s, e) {
        SentDeadline(cfg, s, e, p);
      }
    }
  }

  lemma BidBlocksStep(log: seq<Event>, e: Event, h: Hash)
    ensures BidBlocks(log + [e], h) ==
            if e.TickBuilds? && h in e.hashes then BidBlocks(log, h) + [ToUint64(e.bid.blockNumber)]
            else BidBlocks(log, h)
  {
    assert (log + [e])[..|log|] == log;
  }

  /** What a new bid says about the transactions in it. */
  lemma BuiltBid(cfg: Config, s: State, e: Event, h: Hash)
    requires Inv(cfg, s) && BidLoopEnabled(s, e) && e.TickBuilds? && h in e.hashes
    ensures h in s.store && ToUint64(e.bid.blockNumber) == s.phase.block
    ensures s.phase.block <= s.store[h].tx.maxInclusionWindow
  {
    assert InTime(s.store, s.phase.hashes, s.phase.block);
  }

  lemma BlocksKeepFitting(cfg: Config, s: State, e: Event, log: seq<Event>, h: Hash)
    requires Inv(cfg, s) && RebidsWell(s, BidBlocks(log, h), h) && Enabled(cfg, s, e)
    requires BidBlocks(log + [e], h) != []
    ensures h in s.store && BlocksFit(BidBlocks(log + [e], h), s.store[h].tx.maxInclusionWindow)
  {
    BidBlocksStep(log, e, h);
    if e.TickBuilds? && h in e.hashes {
      BuiltBid(cfg, s, e, h);
      FitsOneMore(BidBlocks(log, h), s.phase.block, s.store[h].tx.maxInclusionWindow);
    }
  }

  lemma FitsOneMore(blocks: seq<uint64>, block: uint64, deadline: uint64)
    requires BlocksFit(blocks, deadline) && block <= deadline
    requires blocks != [] ==> deadline as int - 30 < block as int
    ensures BlocksFit(blocks + [block], deadline)
  {
  }

  /** Reading the head makes the next block later than every encryption so far. */
  lemma HeadIsLater(s: State, e: Event, deadline: uint64)
    requires BidLoopEnabled(s, e) && NextBlockIsLater(s.phase, deadline)
    requires EncryptedBy(deadline, s.head) && s.head < TWO_TO_THE_64 - 30
    ensures NextBlockIsLater(NextPhase(s, e), deadline)
  {
  }

  lemma NextBlockStaysLater(cfg: Config, s: State, e: Event, log: seq<Event>, h: Hash)
    requires EncryptedSoFar(s) && RebidsWell(s, BidBlocks(log, h), h) && Enabled(cfg, s, e) && SteadyHead(s, e)
    requires BidBlocks(log + [e], h) != [] && h in s.store
    ensures NextBlockIsLater(After(cfg, s, e).phase, s.store[h].tx.maxInclusionWindow)
  {
    BidBlocksStep(log, e, h);
    if BidLoopEnabled(s, e) && !e.TickBuilds? {
      HeadIsLater(s, e, s.store[h].tx.maxInclusionWindow);
    }
  }

  lemma AfterKeepsDeadline(cfg: Config, s: State, e: Event, h: Hash)
    requires Enabled(cfg, s, e) && h in s.store
    ensures h in After(cfg, s, e).store
    ensures After(cfg, s, e).store[h].tx.maxInclusionWindow == s.store[h].tx.maxInclusionWindow
  {
    StoreDeadlinesKept(s.store, Effect(s, e));
  }

  lemma KeepsRebiddingWell(cfg: Config, s: State, e: Event, log: seq<Event>, h: Hash)
    requires Enabled(cfg, s, e) && SteadyHead(s, e) && EncryptedSoFar(s) && RebidsWell(s, BidBlocks(log, h), h)
    requires BidBlocks(log + [e], h) != [] ==>
               h in s.store && BlocksFit(BidBlocks(log + [e], h), s.store[h].tx.maxInclusionWindow)
    ensures RebidsWell(After(cfg, s, e), BidBlocks(log + [e], h), h)
  {
    if BidBlocks(log + [e], h) != [] {
      NextBlockStaysLater(cfg, s, e, log, h);
      AfterKeepsDeadline(cfg, s, e, h);
    }
  }

  lemma StepKeepsRebids(cfg: Config, s: State, e: Event, log: seq<Event>)
    requires Inv(cfg, s) && Rebids(s, log) && Enabled(cfg, s, e) && SteadyHead(s, e)
    ensures Rebids(After(cfg, s, e), log + [e])
  {
    DeadlinesKept(cfg, s, e);
    forall h ensures RebidsWell(After(cfg, s, e), BidBlocks(log + [e], h), h) {
      if BidBlocks(log + [e], h) != [] {
        BlocksKeepFitting(cfg, s, e, log, h);
      }
      KeepsRebiddingWell(cfg, s, e, log, h);
    }
  }

  lemma {:induction false} RebidsHolds(cfg: Config, r: Run, n: nat)
    requires IsSteadyRun(cfg, r) && n < |r.states|
    ensures Rebids(r.states[n], Log(r, n)) && Origins(r.states[n], Log(r, n))
  {
    if n > 0 {
      RebidsHolds(cfg, r, n - 1);
      InvHolds(cfg, r, n - 1);
      assert StepAt(cfg, r, n - 1) && SteadyAt(r, n - 1);
      LogGrows(r, n);
      StepKeepsRebids(cfg, r.states[n - 1], r.events[n - 1], Log(r, n - 1));
      StepKeepsOrigins(cfg, r.states[n - 1], r.events[n - 1], Log(r, n - 1));
    }
  }

  function Interval(low: int, size: nat): (s: set<int>)
    ensures |s| == size
    ensures forall x :: x in s <==> low <= x < low + size
  {
    if size == 0 then {} else Interval(low, size - 1) + {low + size - 1}
  }

  lemma SubsetSize(a: set<int>, b: set<int>)
    requires a <= b
    ensures |a| <= |b|
  {
    assert b == a + (b - a);
  }

  /**
   Bounded re-bidding: over any run, the bids with a given transaction are for at most 31 different
   blocks. All of them meet its deadline, 30 blocks after the head of its encryption, and only the
   first can be for a block not after that head: the tick reads the head before it scans.
   */
  lemma AtMost31Blocks(cfg: Config, r: Run, n: nat, h: Hash)
    requires IsSteadyRun(cfg, r) && n < |r.states| && h in r.states[n].store
    ensures var blocks, deadline := BidBlocks(Log(r, n), h), r.states[n].store[h].tx.maxInclusionWindow as int;
            && (forall i :: 0 <= i < |blocks| ==> blocks[i] as int <= deadline)
            && (forall i :: 1 <= i < |blocks| ==> deadline - 30 < blocks[i] as int)
            && |(set b: int | b in blocks)| <= 31
            && EncryptedAt(Log(r, n), r.states[n].store[h].tx, deadline - 30)
  {
    RebidsHolds(cfg, r, n);
    assert RebidsWell(r.states[n], BidBlocks(Log(r, n), h), h);
    AtMost31(BidBlocks(Log(r, n), h), r.states[n].store[h].tx.maxInclusionWindow);
  }

  lemma AtMost31(blocks: seq<uint64>, deadline: uint64)
    requires BlocksFit(blocks, deadline)
    ensures |(set b: int | b in blocks)| <= 31
  {
    if blocks != [] {
      var first: int := blocks[0];
      var allowed := Interval(deadline as int - 29, 30) + {first};
      forall b: int | b in blocks ensures b in allowed {
        var i :| 0 <= i < |blocks| && blocks[i] == b;
      }
      SubsetSize((set b: int | b in blocks), allowed);
    }
  }
}
