/** What holds of every run, whatever providers, keypers and the chain do. */
module Safety {
  import opened Types
  import opened Hex
  import opened StoreModel
  import opened Bids
  import opened Shutter
  import opened Protocol

  ghost predicate StoreOk(cfg: Config, m: Store) {
    forall h :: h in m ==> WellMade(cfg, m[h].tx, h)
  }

  ghost predicate SubmissionOk(cfg: Config, sub: Submission) {
    match sub
    case Encrypting(rawTx, h) => Payload(rawTx).Some? && h == cfg.crypto.keccak(Payload(rawTx).value)
    case Storing(h, tx) => WellMade(cfg, tx, h) && tx.decryptionKey == []
  }

  ghost predicate Known(m: Store, hashes: seq<Hash>) {
    forall i :: 0 <= i < |hashes| ==> hashes[i] in m
  }

  /** The first `n` of the hashes are not `Init`. */
  ghost predicate Moved(m: Store, hashes: seq<Hash>, n: nat) {
    forall i :: 0 <= i < |hashes| && i < n ==> hashes[i] in m && m[hashes[i]].status != Init
  }

  ghost predicate InTime(m: Store, hashes: seq<Hash>, block: uint64) {
    forall i :: 0 <= i < |hashes| ==> hashes[i] in m && m[hashes[i]].tx.maxInclusionWindow >= block
  }

  /** Their deadlines lie before the block. */
  ghost predicate Late(m: Store, hashes: seq<Hash>, block: uint64) {
    forall i :: 0 <= i < |hashes| ==> hashes[i] in m && m[hashes[i]].tx.maxInclusionWindow < block
  }

  ghost predicate BidOk(m: Store, bid: Bid, hashes: seq<Hash>) {
    && hashes != [] && NoDuplicates(hashes) && Aligned(m, bid, hashes)
    && InTime(m, hashes, ToUint64(bid.blockNumber))
  }

  ghost predicate PhaseOk(m: Store, ph: Phase) {
    match ph
    case Idle => true
    case HeadRead(_) => true
    case Blocking(block, blocked, next, keys, hashes) =>
      && next <= |blocked| && Late(m, blocked, block)
      && keys == hashes && NoDuplicates(hashes) && InTime(m, hashes, block)
    case Marking(bid, hashes, next) => next <= |hashes| && BidOk(m, bid, hashes) && Moved(m, hashes, next)
    case Submitting(bid, hashes, received, next) =>
      received != [] && next <= |Last(received).txHashes| && BidOk(m, bid, hashes) && Moved(m, hashes, |hashes|)
    case Undoing(bid, hashes, next) => next <= |hashes| && BidOk(m, bid, hashes)
    case Resetting(hashes, next) => next <= |hashes| && NoDuplicates(hashes) && Known(m, hashes)
    case Publishing(hashes, received, next) =>
      received != [] && next <= |received| && Known(m, hashes) && Moved(m, hashes, |hashes|)
  }

  ghost predicate HandlersOk(s: State) {
    forall k :: k in s.handlers ==> s.handlers[k].hash in s.store
  }

  ghost predicate VerifierOk(s: State) {
    s.verifier.Checking? || s.verifier.Receipted? ==>
      && s.verifier.next <= |s.verifier.todo| && Known(s.store, s.verifier.todo)
      && (s.verifier.Receipted? ==> s.verifier.next < |s.verifier.todo|)
  }

  ghost predicate Inv(cfg: Config, s: State) {
    && StoreOk(cfg, s.store)
    && (forall p :: p in s.subs ==> SubmissionOk(cfg, s.subs[p]))
    && PhaseOk(s.store, s.phase)
    && HandlersOk(s)
    && VerifierOk(s)
  }

  // ---------------------------------------------------------------- one step

  lemma WellMadeFrozen(cfg: Config, a: Encrypted, b: Encrypted, h: Hash)
    requires WellMade(cfg, a, h) && a.Frozen() == b.Frozen()
    ensures WellMade(cfg, b, h)
  {
    assert a.rawTx == a.Frozen().rawTx && b.rawTx == b.Frozen().rawTx;
    assert a.eon == a.Frozen().eon && b.eon == b.Frozen().eon;
    var head: uint64, prefix: Hash, sigma: Hash :|
      a.Frozen() == EncryptedFor(cfg, a.rawTx, h, head, a.eon, prefix, sigma);
    assert b.Frozen() == EncryptedFor(cfg, b.rawTx, h, head, b.eon, prefix, sigma);
  }

  lemma WellMadeHash(cfg: Config, m: Store)
    requires StoreOk(cfg, m)
    ensures KeysMatch(m)
  {
    forall h | h in m ensures m[h].tx.txHash == h {
      PrefixLeadsToIdentity(cfg, m[h].tx, h);
    }
  }

  lemma ApplyExtends(m: Store, op: Op)
    requires !op.Retry?
    ensures Extends(m, Apply(m, op))
  {
  }

  lemma StoreStaysOk(cfg: Config, m: Store, op: Op)
    requires StoreOk(cfg, m) && !op.Retry? && (op.Insert? ==> WellMade(cfg, op.tx, op.hash))
    ensures StoreOk(cfg, Apply(m, op))
  {
    var n := Apply(m, op);
    ApplyExtends(m, op);
    forall h | h in n ensures WellMade(cfg, n[h].tx, h) {
      if h in m {
        WellMadeFrozen(cfg, m[h].tx, n[h].tx, h);
      }
    }
  }

  lemma SubmissionsStayOk(cfg: Config, s: State, e: Event)
    requires Inv(cfg, s) && SubmissionEnabled(cfg, s, e)
    ensures forall p :: p in NextSubs(cfg, s, e) ==> SubmissionOk(cfg, NextSubs(cfg, s, e)[p])
  {
    if e.SubmitEncrypts? {
      var Encrypting(rawTx, hash) := s.subs[e.sub];
      EncryptedIsWellMade(cfg, rawTx, hash, e.head, e.eon, e.prefix, e.sigma);
    }
  }

  /** Nothing falls back to `Init`. */
  ghost predicate KeepsMoved(m: Store, n: Store) {
    forall h :: h in m && m[h].status != Init ==> h in n && n[h].status != Init
  }

  lemma ExtendsKeepsBid(m: Store, n: Store, bid: Bid, hashes: seq<Hash>)
    requires Extends(m, n) && BidOk(m, bid, hashes)
    ensures BidOk(n, bid, hashes)
  {
    forall i | 0 <= i < |hashes|
      ensures hashes[i] in n && OptionFor(n[hashes[i]].tx) == OptionFor(m[hashes[i]].tx)
      ensures n[hashes[i]].tx.maxInclusionWindow == m[hashes[i]].tx.maxInclusionWindow
    {
      SameFrozen(m[hashes[i]].tx, n[hashes[i]].tx);
    }
  }

  lemma SameFrozen(a: Encrypted, b: Encrypted)
    requires a.Frozen() == b.Frozen()
    ensures a.(decryptionKey := b.decryptionKey) == b
  {
    assert a.Frozen().(decryptionKey := b.decryptionKey) == b;
  }

  lemma PhaseOkKept(m: Store, n: Store, ph: Phase)
    requires PhaseOk(m, ph) && Extends(m, n) && KeepsMoved(m, n)
    ensures PhaseOk(n, ph)
  {
    match ph {
      case Idle => case HeadRead(_) =>
      case Blocking(block, blocked, _, _, hashes) =>
        forall i | 0 <= i < |blocked| ensures blocked[i] in n && n[blocked[i]].tx.maxInclusionWindow < block {
          SameFrozen(m[blocked[i]].tx, n[blocked[i]].tx);
        }
        forall i | 0 <= i < |hashes| ensures hashes[i] in n && n[hashes[i]].tx.maxInclusionWindow >= block {
          SameFrozen(m[hashes[i]].tx, n[hashes[i]].tx);
        }
      case Marking(bid, hashes, _) => ExtendsKeepsBid(m, n, bid, hashes);
      case Submitting(bid, hashes, _, _) => ExtendsKeepsBid(m, n, bid, hashes);
      case Undoing(bid, hashes, _) => ExtendsKeepsBid(m, n, bid, hashes);
      case Resetting(_, _) => case Publishing(_, _, _) =>
    }
  }

  lemma NoResetKeepsMoved(m: Store, op: Op)
    requires !op.Retry? && !(op.SetStatus? && op.status == Init)
    ensures KeepsMoved(m, Apply(m, op))
  {
  }

  lemma SplitOk(m: Store, order: seq<Hash>, block: uint64)
    requires KeysMatch(m) && NoDuplicates(order) && forall k :: k in order ==> k in m
    ensures Late(m, ExpiredKeys(m, order, block), block)
    ensures InTime(m, EligibleKeys(m, order, block), block) && NoDuplicates(EligibleKeys(m, order, block))
  {
    FiltersKeepOrder(m, order, block);
  }

  lemma ScanOk(cfg: Config, s: State, order: seq<Hash>)
    requires Inv(cfg, s) && BidLoopEnabled(s, TickScans(order))
    ensures PhaseOk(s.store, NextPhase(s, TickScans(order)))
  {
    WellMadeHash(cfg, s.store);
    SplitOk(s.store, order, s.phase.block);
  }

  lemma BuildOk(cfg: Config, s: State, bid: Bid, hashes: seq<Hash>)
    requires Inv(cfg, s) && BidLoopEnabled(s, TickBuilds(bid, hashes))
    ensures PhaseOk(s.store, Marking(bid, hashes, 0))
  {
    WellMadeHash(cfg, s.store);
    MakeBidIsAligned(DEFAULT_SLASH_AMOUNT, s.store, hashes, s.phase.block);
  }

  lemma CreationKeepsPhase(s: State, e: Event)
    requires PhaseOk(s.store, s.phase) && BidLoopEnabled(s, e)
    requires e.TickReadsHead? || e.TickBlocks? || e.TickGivesUp?
    ensures PhaseOk(Apply(s.store, Effect(s, e)), NextPhase(s, e))
  {
    ApplyExtends(s.store, Effect(s, e));
    NoResetKeepsMoved(s.store, Effect(s, e));
    PhaseOkKept(s.store, Apply(s.store, Effect(s, e)), s.phase);
  }

  lemma MarkingKeepsPhase(s: State, h: Hash)
    requires PhaseOk(s.store, s.phase) && BidLoopEnabled(s, TickMarks(h))
    ensures PhaseOk(Apply(s.store, SetStatus(h, BidSubmitted)), NextPhase(s, TickMarks(h)))
  {
    ApplyExtends(s.store, SetStatus(h, BidSubmitted));
    NoResetKeepsMoved(s.store, SetStatus(h, BidSubmitted));
    PhaseOkKept(s.store, Apply(s.store, SetStatus(h, BidSubmitted)), s.phase);
  }

  lemma SubmittingKeepsPhase(s: State, e: Event)
    requires PhaseOk(s.store, s.phase) && BidLoopEnabled(s, e)
    requires e.BidNotSent? || e.CommitmentArrives? || e.CommitmentMarks? || e.StreamExits? || e.TickUndone?
    ensures PhaseOk(Apply(s.store, Effect(s, e)), NextPhase(s, e))
  {
    var n := Apply(s.store, Effect(s, e));
    ApplyExtends(s.store, Effect(s, e));
    NoResetKeepsMoved(s.store, Effect(s, e));
    PhaseOkKept(s.store, n, s.phase);
  }

  lemma EndingKeepsPhase(s: State, e: Event)
    requires PhaseOk(s.store, s.phase) && BidLoopEnabled(s, e) && (e.TickPublishes? || e.TickEnds?)
    ensures PhaseOk(s.store, NextPhase(s, e))
  {
  }

  lemma ResettingKeepsPhase(s: State, e: Event)
    requires PhaseOk(s.store, s.phase) && BidLoopEnabled(s, e)
    requires e.TickUndoes? || e.TickResets?
    ensures PhaseOk(Apply(s.store, Effect(s, e)), NextPhase(s, e))
  {
    ApplyExtends(s.store, Effect(s, e));
    if e.TickUndoes? {
      ExtendsKeepsBid(s.store, Apply(s.store, Effect(s, e)), s.phase.bid, s.phase.hashes);
    }
  }

  /** The next phase fits the store as the step leaves it. */
  lemma BidLoopKeepsPhase(cfg: Config, s: State, e: Event)
    requires Inv(cfg, s) && BidLoopEnabled(s, e)
    ensures PhaseOk(Apply(s.store, Effect(s, e)), NextPhase(s, e))
  {
    if e.TickScans? {
      ScanOk(cfg, s, e.order);
    } else if e.TickBuilds? {
      BuildOk(cfg, s, e.bid, e.hashes);
    } else if e.TickUndoes? || e.TickResets? {
      ResettingKeepsPhase(s, e);
    } else if e.BidNotSent? || e.CommitmentArrives? || e.CommitmentMarks? || e.StreamExits? || e.TickUndone? {
      SubmittingKeepsPhase(s, e);
    } else if e.TickPublishes? || e.TickEnds? {
      EndingKeepsPhase(s, e);
    } else if e.TickMarks? {
      MarkingKeepsPhase(s, e.hash);
    } else {
      CreationKeepsPhase(s, e);
    }
  }

  lemma HandlersStayOk(cfg: Config, s: State, e: Event)
    requires HandlersOk(s) && Enabled(cfg, s, e) && Extends(s.store, Apply(s.store, Effect(s, e)))
    ensures HandlersOk(After(cfg, s, e))
  {
  }

  lemma NextVerifierOk(s: State, e: Event)
    requires VerifierOk(s) && VerifierEnabled(s, e)
    ensures VerifierOk(s.(verifier := NextVerifier(s, e)))
  {
    if e.VerifierScans? {
      forall i | 0 <= i < |e.order| ensures e.order[i] in s.store {
        assert e.order[i] in Verifiable(s.store, s.verifier.head);
      }
    }
  }

  lemma VerifierStaysOk(cfg: Config, s: State, e: Event)
    requires VerifierOk(s) && Enabled(cfg, s, e) && Extends(s.store, Apply(s.store, Effect(s, e)))
    ensures VerifierOk(After(cfg, s, e))
  {
    if VerifierEnabled(s, e) {
      NextVerifierOk(s, e);
    }
  }

  lemma PhaseStaysOk(cfg: Config, s: State, e: Event)
    requires Inv(cfg, s) && Enabled(cfg, s, e)
    ensures PhaseOk(Apply(s.store, Effect(s, e)), if BidLoopEnabled(s, e) then NextPhase(s, e) else s.phase)
  {
    if BidLoopEnabled(s, e) {
      BidLoopKeepsPhase(cfg, s, e);
    } else {
      ApplyExtends(s.store, Effect(s, e));
      NoResetKeepsMoved(s.store, Effect(s, e));
      PhaseOkKept(s.store, Apply(s.store, Effect(s, e)), s.phase);
    }
  }

  lemma StepKeepsInv(cfg: Config, s: State, e: Event)
    requires Inv(cfg, s) && Enabled(cfg, s, e)
    ensures Inv(cfg, After(cfg, s, e))
  {
    ApplyExtends(s.store, Effect(s, e));
    StoreStaysOk(cfg, s.store, Effect(s, e));
    HandlersStayOk(cfg, s, e);
    VerifierStaysOk(cfg, s, e);
    if SubmissionEnabled(cfg, s, e) {
      SubmissionsStayOk(cfg, s, e);
    }
    PhaseStaysOk(cfg, s, e);
  }

  // ---------------------------------------------------------------- whole runs

  lemma {:induction false} InvHolds(cfg: Config, r: Run, n: nat)
    requires IsRun(cfg, r) && n < |r.states|
    ensures Inv(cfg, r.states[n])
  {
    if n > 0 {
      InvHolds(cfg, r, n - 1);
      assert StepAt(cfg, r, n - 1);
      StepKeepsInv(cfg, r.states[n - 1], r.events[n - 1]);
    }
  }

  /** The hashes the bid loop may still put back to `Init`. */
  predicate InFlight(ph: Phase, h: Hash) {
    (ph.Blocking? || ph.Marking? || ph.Submitting? || ph.Undoing? || ph.Resetting?) && h in ph.hashes
  }

  ghost predicate Closed(s: State, h: Hash) {
    h in s.store && s.store[h].status != Init && !InFlight(s.phase, h)
  }

  lemma UndoTargetsTheBid(cfg: Config, s: State, h: Hash)
    requires Inv(cfg, s) && BidLoopEnabled(s, TickUndoes(h))
    ensures s.phase.next < |s.phase.hashes| && h == s.phase.hashes[s.phase.next]
  {
    BidHashesParse(s.store, s.phase.bid, s.phase.hashes);
    assert HashesOf(s.phase.bid.txHashes)[s.phase.next] == HexToHash(s.phase.bid.txHashes[s.phase.next]);
  }

  /** Only a scan takes transactions up, and it takes up `Init` ones. */
  lemma FlightGrowsByScans(cfg: Config, s: State, e: Event, h: Hash)
    requires Inv(cfg, s) && BidLoopEnabled(s, e) && InFlight(NextPhase(s, e), h)
    ensures InFlight(s.phase, h) || (h in s.store && s.store[h].status == Init)
  {
    if e.TickScans? {
      WellMadeHash(cfg, s.store);
    }
  }

  /** Only the reset loops write `Init`, and only to transactions in flight. */
  lemma InitOnlyInFlight(cfg: Config, s: State, e: Event)
    requires Inv(cfg, s) && Enabled(cfg, s, e)
    ensures var op := Effect(s, e);
            op.SetStatus? && op.status == Init ==> InFlight(s.phase, op.hash)
  {
    if e.TickUndoes? {
      UndoTargetsTheBid(cfg, s, e.hash);
    }
  }

  lemma StaysMoved(m: Store, op: Op, h: Hash)
    requires h in m && m[h].status != Init && !op.Retry? && op != SetStatus(h, Init)
    ensures h in Apply(m, op) && Apply(m, op)[h].status != Init
  {
  }

  lemma ClosedStaysOut(cfg: Config, s: State, e: Event, h: Hash)
    requires Inv(cfg, s) && BidLoopEnabled(s, e) && Closed(s, h)
    ensures !InFlight(NextPhase(s, e), h)
  {
    if InFlight(NextPhase(s, e), h) {
      FlightGrowsByScans(cfg, s, e, h);
    }
  }

  lemma ClosedStaysMoved(s: State, e: Event, h: Hash)
    requires Closed(s, h) && Effect(s, e) != SetStatus(h, Init)
    ensures h in Apply(s.store, Effect(s, e)) && Apply(s.store, Effect(s, e))[h].status != Init
  {
    StaysMoved(s.store, Effect(s, e), h);
  }

  lemma StepKeepsClosed(cfg: Config, s: State, e: Event, h: Hash)
    requires Inv(cfg, s) && Enabled(cfg, s, e) && Closed(s, h)
    ensures Closed(After(cfg, s, e), h)
  {
    InitOnlyInFlight(cfg, s, e);
    ClosedStaysMoved(s, e, h);
    if BidLoopEnabled(s, e) {
      ClosedStaysOut(cfg, s, e, h);
    }
    ClosedAfter(cfg, s, e, h);
  }

  lemma ClosedAfter(cfg: Config, s: State, e: Event, h: Hash)
    requires Enabled(cfg, s, e) && !InFlight(s.phase, h) && (BidLoopEnabled(s, e) ==> !InFlight(NextPhase(s, e), h))
    requires h in Apply(s.store, Effect(s, e)) && Apply(s.store, Effect(s, e))[h].status != Init
    ensures Closed(After(cfg, s, e), h)
  {
  }

  lemma ClosedIsNotTaken(cfg: Config, s: State, e: Event, h: Hash)
    requires Closed(s, h) && Enabled(cfg, s, e)
    ensures e.TickBuilds? ==> h !in e.hashes
    ensures e.TickScans? ==> h !in e.order
  {
  }

  /**
   The closed region: a transaction that is neither `Init` nor part of the bid in flight never
   becomes `Init` again and never enters another bid, under any commitments, keys and interleaving.
   */
  lemma {:induction false} ClosedForever(cfg: Config, r: Run, i: nat, j: nat, h: Hash)
    requires IsRun(cfg, r) && i <= j < |r.states| && Closed(r.states[i], h)
    ensures Closed(r.states[j], h)
    ensures j < |r.events| && r.events[j].TickBuilds? ==> h !in r.events[j].hashes
    ensures j < |r.events| && r.events[j].TickScans? ==> h !in r.events[j].order
    decreases j
  {
    if i < j {
      ClosedForever(cfg, r, i, j - 1, h);
      InvHolds(cfg, r, j - 1);
      assert StepAt(cfg, r, j - 1);
      StepKeepsClosed(cfg, r.states[j - 1], r.events[j - 1], h);
    }
    if j < |r.events| {
      assert StepAt(cfg, r, j);
      ClosedIsNotTaken(cfg, r.states[j], r.events[j], h);
    }
  }

  lemma BlockingCloses(cfg: Config, s: State, h: Hash)
    requires Inv(cfg, s) && BidLoopEnabled(s, TickBlocks(h))
    ensures Closed(After(cfg, s, TickBlocks(h)), h)
  {
    var ph := s.phase;
    assert h == ph.blocked[ph.next] && Late(s.store, ph.blocked, ph.block) && InTime(s.store, ph.hashes, ph.block);
    assert h !in ph.hashes;
  }

  /**
   Blocked for expiry is for good: whatever commitments, keys and interleavings follow, the
   transaction is never `Init` again and in no later scan and no later bid.
   */
  lemma BlockedStaysOut(cfg: Config, r: Run, i: nat, j: nat, h: Hash)
    requires IsRun(cfg, r) && i < |r.events| && i < j < |r.states| && r.events[i] == TickBlocks(h)
    ensures h in r.states[j].store && r.states[j].store[h].status != Init
    ensures j < |r.events| && r.events[j].TickBuilds? ==> h !in r.events[j].hashes
    ensures j < |r.events| && r.events[j].TickScans? ==> h !in r.events[j].order
  {
    BlockedCloses(cfg, r, i, h);
    ClosedForever(cfg, r, i + 1, j, h);
  }

  lemma BlockedCloses(cfg: Config, r: Run, i: nat, h: Hash)
    requires IsRun(cfg, r) && i < |r.events| && r.events[i] == TickBlocks(h)
    ensures Closed(r.states[i + 1], h)
  {
    InvHolds(cfg, r, i);
    assert StepAt(cfg, r, i);
    BlockingCloses(cfg, r.states[i], h);
  }

  ghost predicate Succeeded(s: State, h: Hash) {
    s.phase.Publishing? && h in s.phase.hashes
  }

  lemma SuccessCloses(cfg: Config, s: State, h: Hash)
    requires Inv(cfg, s) && Succeeded(s, h)
    ensures Closed(s, h)
  {
    var i :| 0 <= i < |s.phase.hashes| && s.phase.hashes[i] == h;
  }

  /** Once a bid has reached the publish branch, its transactions are in no later bid and never `Init`. */
  lemma AtMostOneSuccess(cfg: Config, r: Run, i: nat, j: nat, h: Hash)
    requires IsRun(cfg, r) && i <= j < |r.states| && Succeeded(r.states[i], h)
    ensures h in r.states[j].store && r.states[j].store[h].status != Init
    ensures j < |r.events| && r.events[j].TickBuilds? ==> h !in r.events[j].hashes
  {
    InvHolds(cfg, r, i);
    SuccessCloses(cfg, r.states[i], h);
    ClosedForever(cfg, r, i, j, h);
  }

  /** The bid loop still owes the transaction a reset, or is done with it for good. */
  ghost predicate Owed(s: State, h: Hash) {
    || Closed(s, h)
    || ((s.phase.Marking? || s.phase.Submitting? || s.phase.Undoing?) && h in s.phase.hashes)
    || (s.phase.Resetting? && exists i :: s.phase.next <= i < |s.phase.hashes| && s.phase.hashes[i] == h)
  }

  lemma ExitOwes(s: State, exit: Exit, h: Hash)
    requires PhaseOk(s.store, s.phase) && BidLoopEnabled(s, StreamExits(exit)) && h in s.phase.hashes
    ensures Owed(s.(phase := NextPhase(s, StreamExits(exit))), h)
  {
    var i :| 0 <= i < |s.phase.hashes| && s.phase.hashes[i] == h;
    assert Moved(s.store, s.phase.hashes, |s.phase.hashes|);
  }

  lemma BidLoopOwes(s: State, e: Event, h: Hash)
    requires BidLoopEnabled(s, e) && Owed(s, h) && !Closed(s, h) && e != TickResets(h) && !e.StreamExits?
    ensures Owed(s.(phase := NextPhase(s, e)), h)
  {
    if e.BidNotSent? || e.TickUndone? {
      var i :| 0 <= i < |s.phase.hashes| && s.phase.hashes[i] == h;
    } else if e.TickResets? {
      var i :| s.phase.next <= i < |s.phase.hashes| && s.phase.hashes[i] == h;
      assert i != s.phase.next;
    }
  }

  lemma LoopOwes(cfg: Config, s: State, e: Event, h: Hash)
    requires Inv(cfg, s) && BidLoopEnabled(s, e) && Owed(s, h) && !Closed(s, h) && e != TickResets(h)
    ensures Owed(s.(phase := NextPhase(s, e)), h)
  {
    if e.StreamExits? {
      ExitOwes(s, e.exit, h);
    } else {
      BidLoopOwes(s, e, h);
    }
  }

  lemma OpenStaysOwed(cfg: Config, s: State, e: Event, h: Hash)
    requires Inv(cfg, s) && Enabled(cfg, s, e) && Owed(s, h) && !Closed(s, h) && e != TickResets(h)
    ensures Owed(After(cfg, s, e), h)
  {
    if BidLoopEnabled(s, e) {
      LoopOwes(cfg, s, e, h);
    }
  }

  lemma OwedStays(cfg: Config, s: State, e: Event, h: Hash)
    requires Inv(cfg, s) && Enabled(cfg, s, e) && Owed(s, h) && e != TickResets(h)
    ensures Owed(After(cfg, s, e), h)
  {
    if Closed(s, h) {
      StepKeepsClosed(cfg, s, e, h);
    } else {
      OpenStaysOwed(cfg, s, e, h);
    }
  }

  lemma OwedIsNotBid(cfg: Config, s: State, e: Event, h: Hash)
    requires Enabled(cfg, s, e) && e.TickBuilds? && Owed(s, h)
    ensures h !in e.hashes
  {
  }

  lemma {:induction false} OwedUntilReset(cfg: Config, r: Run, i: nat, j: nat, h: Hash)
    requires IsRun(cfg, r) && i <= j < |r.states| && Owed(r.states[i], h)
    requires forall k :: i <= k < j ==> r.events[k] != TickResets(h)
    ensures Owed(r.states[j], h)
    decreases j
  {
    if i < j {
      OwedUntilReset(cfg, r, i, j - 1, h);
      InvHolds(cfg, r, j - 1);
      assert StepAt(cfg, r, j - 1);
      OwedStays(cfg, r.states[j - 1], r.events[j - 1], h);
    }
  }

  /** Between two bids with the same transaction it was reset: the earlier one failed, whatever its commitments. */
  lemma RebidMeansReset(cfg: Config, r: Run, i: nat, j: nat, h: Hash)
    requires IsRun(cfg, r) && i < j < |r.events|
    requires r.events[i].TickBuilds? && h in r.events[i].hashes
    requires r.events[j].TickBuilds? && h in r.events[j].hashes
    ensures exists k :: i < k < j && r.events[k] == TickResets(h)
  {
    if forall k :: i < k < j ==> r.events[k] != TickResets(h) {
      assert StepAt(cfg, r, i) && StepAt(cfg, r, j);
      OwedUntilReset(cfg, r, i + 1, j, h);
      OwedIsNotBid(cfg, r.states[j], r.events[j], h);
      assert false;
    }
  }

  lemma ExtendsTransitive(a: Store, b: Store, c: Store)
    requires Extends(a, b) && Extends(b, c)
    ensures Extends(a, c)
  {
  }

  /**
   First writer wins: once stored, a record is never removed or replaced, and its deadline,
   ciphertext, identity, prefix and raw transaction stay what they were for the rest of the run.
   */
  lemma {:induction false} RecordsAreForever(cfg: Config, r: Run, i: nat, j: nat)
    requires IsRun(cfg, r) && i <= j < |r.states|
    ensures Extends(r.states[i].store, r.states[j].store)
    decreases j
  {
    if i < j {
      RecordsAreForever(cfg, r, i, j - 1);
      assert StepAt(cfg, r, j - 1);
      ApplyExtends(r.states[j - 1].store, Effect(r.states[j - 1], r.events[j - 1]));
      ExtendsTransitive(r.states[i].store, r.states[j - 1].store, r.states[j].store);
    }
  }

  lemma FirstWriterWins(cfg: Config, r: Run, i: nat, j: nat)
    requires IsRun(cfg, r) && i < |r.events| && i < j < |r.states| && r.events[i].SubmitStores?
    ensures var SubmitStores(_, h, tx) := r.events[i];
            h in r.states[j].store && r.states[j].store[h].tx.Frozen() == tx.Frozen()
  {
    assert StepAt(cfg, r, i);
    RecordsAreForever(cfg, r, i + 1, j);
  }

  /** However many submissions of one raw transaction run concurrently, at most one of them stores it. */
  lemma OneStorePerHash(cfg: Config, r: Run, i: nat, j: nat)
    requires IsRun(cfg, r) && i < j < |r.events|
    requires r.events[i].SubmitStores? && r.events[j].SubmitStores?
    ensures r.events[i].hash != r.events[j].hash
  {
    assert StepAt(cfg, r, i) && StepAt(cfg, r, j);
    RecordsAreForever(cfg, r, i + 1, j);
  }

  lemma {:induction false} StoredSince(cfg: Config, r: Run, i: nat, j: nat, h: Hash)
    requires IsRun(cfg, r) && i <= j < |r.states| && h !in r.states[i].store
    ensures h in r.states[j].store <==>
            exists k :: i <= k < j && r.events[k].SubmitStores? && r.events[k].hash == h
    decreases j
  {
    if i < j {
      StoredSince(cfg, r, i, j - 1, h);
      assert StepAt(cfg, r, j - 1);
      KeysAfter(r.states[j - 1].store, Effect(r.states[j - 1], r.events[j - 1]), h);
      if h in r.states[j].store && h !in r.states[j - 1].store {
        assert r.events[j - 1].SubmitStores? && r.events[j - 1].hash == h;
      }
    }
  }

  lemma KeysAfter(m: Store, op: Op, h: Hash)
    ensures h in Apply(m, op) <==> h in m || (op.Insert? && op.hash == h)
  {
  }

  /** The step ends the submission. */
  predicate Concludes(e: Event, sub: nat) {
    (e.SubmitFails? || e.SubmitStores? || e.SubmitFindsDuplicate?) && e.sub == sub
  }

  ghost predicate PendingFor(s: State, sub: nat, h: Hash) {
    sub in s.subs && s.subs[sub].hash == h
  }

  lemma PendingStays(cfg: Config, s: State, e: Event, sub: nat, h: Hash)
    requires Enabled(cfg, s, e) && PendingFor(s, sub, h) && !Concludes(e, sub)
    ensures PendingFor(After(cfg, s, e), sub, h)
  {
  }

  lemma {:induction false} PendingUntil(cfg: Config, r: Run, i: nat, j: nat, sub: nat, h: Hash)
    requires IsRun(cfg, r) && i <= j < |r.states| && PendingFor(r.states[i], sub, h)
    requires forall k :: i <= k < j ==> !Concludes(r.events[k], sub)
    ensures PendingFor(r.states[j], sub, h)
    decreases j
  {
    if i < j {
      PendingUntil(cfg, r, i, j - 1, sub, h);
      assert StepAt(cfg, r, j - 1);
      PendingStays(cfg, r.states[j - 1], r.events[j - 1], sub, h);
    }
  }

  /**
   Resubmission is not always accepted: a submission that passed its lookup at step `i` and has been
   encrypted is refused at step `j` exactly if some submission stored its hash in between.
   */
  lemma RefusedIff(cfg: Config, r: Run, i: nat, j: nat, sub: nat, rawTx: string)
    requires IsRun(cfg, r) && i < j < |r.events| && r.events[i] == SubmitLooksUp(sub, rawTx)
    requires forall k :: i < k < j ==> !Concludes(r.events[k], sub)
    requires Concludes(r.events[j], sub) && !r.events[j].SubmitFails?
    ensures Payload(rawTx).Some?
    ensures var h := cfg.crypto.keccak(Payload(rawTx).value);
            r.events[j].SubmitFindsDuplicate? <==>
            exists k :: i < k < j && r.events[k].SubmitStores? && r.events[k].hash == h
  {
    assert StepAt(cfg, r, i) && StepAt(cfg, r, j);
    var h := cfg.crypto.keccak(Payload(rawTx).value);
    StoredSince(cfg, r, i, j, h);
    PendingUntil(cfg, r, i + 1, j, sub, h);
  }

  /**
   Every update the actors make on their own behalf finds its record; only a commitment can name a
   hash the store does not know.
   */
  lemma OwnUpdatesLand(cfg: Config, r: Run, i: nat)
    requires IsRun(cfg, r) && i < |r.events|
    ensures !r.events[i].CommitmentMarks? ==> Lands(r.states[i].store, Effect(r.states[i], r.events[i]))
  {
    var s, e := r.states[i], r.events[i];
    InvHolds(cfg, r, i);
    WellMadeHash(cfg, s.store);
    assert StepAt(cfg, r, i);
    if e.TickUndoes? {
      UndoTargetsTheBid(cfg, s, e.hash);
    }
  }
}
