/**
 What the statuses of a transaction may do when the surroundings are honest: commitments echo the
 bid they answer, keys are released only for published prefixes, and identities do not collide.
 */
module Lifecycle {
  import opened Types
  import opened Hex
  import opened StoreModel
  import opened Bids
  import opened Shutter
  import opened Protocol
  import opened Safety
  import opened Echoing

  ghost predicate FreshIdentity(cfg: Config, s: State, identity: string) {
    && (forall h :: h in s.store ==> s.store[h].tx.identity != identity)
    && (forall p :: p in s.subs && s.subs[p].Storing? ==> s.subs[p].tx.identity != identity)
    && (forall x :: x in s.published ==> IdentityOfPrefix(cfg, x) != identity)
  }

  /** Keypers release the key of an identity only after a prefix leading to it was published. */
  ghost predicate Released(cfg: Config, s: State, preimage: Bytes) {
    exists x :: x in s.published && Encode(preimage) == IdentityOfPrefix(cfg, x)
  }

  ghost predicate Honest(cfg: Config, s: State, e: Event)
    requires Enabled(cfg, s, e)
  {
    match e
    case SubmitEncrypts(_, _, _, prefix, _) => FreshIdentity(cfg, s, Encode(GetIdentity(cfg, prefix)))
    case CommitmentArrives(c) => Echoes(c, s.phase.bid)
    case KeyArrives(_, preimage, _, _) => Released(cfg, s, preimage)
    case _ => true
  }

  ghost predicate IsHonestRun(cfg: Config, r: Run) {
    && IsRun(cfg, r)
    && forall i :: 0 <= i < |r.events| ==> HonestAt(cfg, r, i)
  }

  /** Honest surroundings include echoing providers. */
  lemma HonestIsEchoing(cfg: Config, r: Run)
    requires IsHonestRun(cfg, r)
    ensures IsEchoingRun(cfg, r)
  {
    forall i | 0 <= i < |r.events| ensures EchoesAt(r, i) {
      assert HonestAt(cfg, r, i);
    }
  }

  ghost predicate HonestAt(cfg: Config, r: Run, i: nat)
    requires i < |r.events| && |r.states| == |r.events| + 1
  {
    StepAt(cfg, r, i) && Honest(cfg, r.states[i], r.events[i])
  }

  // ---------------------------------------------------------------- the invariant

  const AFTER_COMMIT: set<Status> := {Committed, Decrypted, Finalised}

  /** Committed by a bid that succeeded: out of the bid loop's reach for good. */
  ghost predicate Settled(m: Store, ph: Phase, h: Hash) {
    h in m && m[h].status in AFTER_COMMIT && !InFlight(ph, h)
  }

  /** Key received or final, and settled: what a scan of the verifier may still hold. */
  ghost predicate Unfinished(m: Store, ph: Phase, h: Hash) {
    Settled(m, ph, h) && m[h].status in {Decrypted, Finalised}
  }

  ghost predicate Have(m: Store, hashes: seq<Hash>, from: nat, to: nat, statuses: set<Status>) {
    forall i :: from <= i < to && i < |hashes| ==> hashes[i] in m && m[hashes[i]].status in statuses
  }

  ghost predicate OptionsFit(m: Store, options: seq<BidOption>, hashes: seq<Hash>) {
    && |options| == |hashes|
    && forall i :: 0 <= i < |hashes| ==> hashes[i] in m && options[i] == OptionFor(m[hashes[i]].tx)
  }

  /** How far the current loop of the bid loop has brought the statuses. */
  ghost predicate Link(m: Store, ph: Phase) {
    match ph
    case Idle => true
    case HeadRead(_) => true
    case Blocking(_, blocked, next, _, hashes) =>
      && NoDuplicates(blocked) && (forall h :: h in blocked ==> h !in hashes)
      && Have(m, blocked, next, |blocked|, {Init}) && Have(m, hashes, 0, |hashes|, {Init})
    case Marking(_, hashes, next) =>
      Have(m, hashes, 0, next, {BidSubmitted}) && Have(m, hashes, next, |hashes|, {Init})
    case Submitting(bid, hashes, received, next) =>
      && Have(m, hashes, 0, |hashes|, {BidSubmitted, Committed})
      && (forall i :: 0 <= i < |received| ==> Echoes(received[i], bid))
      && Have(m, hashes, 0, if |received| <= 1 then next else |hashes|, {Committed})
    case Undoing(_, hashes, next) =>
      Have(m, hashes, 0, next, {Init}) && Have(m, hashes, next, |hashes|, {BidSubmitted, Committed})
    case Resetting(hashes, next) =>
      Have(m, hashes, 0, next, {Init}) && Have(m, hashes, 0, |hashes|, {Init, BidSubmitted, Committed})
    case Publishing(hashes, received, _) =>
      && Have(m, hashes, 0, |hashes|, AFTER_COMMIT)
      && forall i :: 0 <= i < |received| ==> OptionsFit(m, received[i].options, hashes)
  }

  /** A submitted bid is always the one in flight. */
  ghost predicate NoStray(m: Store, ph: Phase) {
    forall h :: h in m && m[h].status == BidSubmitted ==> InFlight(ph, h)
  }

  ghost predicate IdentitiesDiffer(cfg: Config, s: State) {
    && DistinctIdentities(s.store)
    && (forall p, h :: p in s.subs && s.subs[p].Storing? && h in s.store ==>
          s.subs[p].tx.identity != s.store[h].tx.identity)
    && (forall p, q :: p in s.subs && q in s.subs && p != q && s.subs[p].Storing? && s.subs[q].Storing? ==>
          s.subs[p].tx.identity != s.subs[q].tx.identity)
    && (forall p, x :: p in s.subs && s.subs[p].Storing? && x in s.published ==>
          s.subs[p].tx.identity != IdentityOfPrefix(cfg, x))
  }

  /** Whatever a published prefix leads to is settled. */
  ghost predicate PublishedSettled(cfg: Config, s: State) {
    forall x, h :: x in s.published && h in s.store && s.store[h].tx.identity == IdentityOfPrefix(cfg, x) ==>
      Settled(s.store, s.phase, h)
  }

  ghost predicate HandlersSettled(s: State) {
    forall k :: k in s.handlers ==> Settled(s.store, s.phase, s.handlers[k].hash)
  }

  /** The scan may be stale, but what it found can only have become final since. */
  ghost predicate VerifierSettled(s: State) {
    s.verifier.Checking? || s.verifier.Receipted? ==>
      forall i :: 0 <= i < |s.verifier.todo| ==> Unfinished(s.store, s.phase, s.verifier.todo[i])
  }

  ghost predicate HonestInv(cfg: Config, s: State) {
    && Inv(cfg, s)
    && Link(s.store, s.phase)
    && NoStray(s.store, s.phase)
    && IdentitiesDiffer(cfg, s)
    && PublishedSettled(cfg, s)
    && HandlersSettled(s)
    && VerifierSettled(s)
  }

  // ---------------------------------------------------------------- who writes what

  /** The eight changes of status a transaction can go through. */
  predicate Edge(a: Status, b: Status) {
    || a == b
    || (a == Init && (b == BidSubmitted || b == Blocked))
    || (a == BidSubmitted && (b == Committed || b == Init))
    || (a == Committed && (b == Decrypted || b == Init))
    || (a == Decrypted && b == Finalised)
    || (a == Finalised && b == Decrypted)
  }

  /** What each status write finds. */
  ghost predicate RightWrite(m: Store, ph: Phase, op: Op) {
    match op
    case Commit(h, _) => h in m && m[h].status in {BidSubmitted, Committed}
    case SetStatus(h, status) =>
      h in m &&
      (match status
       case Init => m[h].status in {Init, BidSubmitted, Committed}
       case BidSubmitted => m[h].status == Init
       case Blocked => m[h].status == Init
       case Decrypted => Settled(m, ph, h)
       case Finalised => m[h].status in {Decrypted, Finalised} && Settled(m, ph, h)
       case Committed => false)
    case Retry(_, _) => false
    case _ => true
  }

  lemma CreationWritesRight(s: State, e: Event)
    requires Link(s.store, s.phase) && BidLoopEnabled(s, e) && (e.TickBlocks? || e.TickMarks? || e.TickResets?)
    ensures RightWrite(s.store, s.phase, Effect(s, e))
  {
  }

  lemma BidLoopWritesRight(cfg: Config, s: State, e: Event)
    requires HonestInv(cfg, s) && BidLoopEnabled(s, e)
    ensures RightWrite(s.store, s.phase, Effect(s, e))
  {
    if e.CommitmentMarks? || e.TickUndoes? {
      BidLoopTargets(cfg, s, e);
      AnswerWritesRight(s, e);
    } else if e.TickBlocks? || e.TickMarks? || e.TickResets? {
      CreationWritesRight(s, e);
    }
  }

  lemma AnswerWritesRight(s: State, e: Event)
    requires Link(s.store, s.phase) && BidLoopEnabled(s, e) && (e.CommitmentMarks? || e.TickUndoes?)
    requires s.phase.next < |s.phase.hashes| && e.hash == s.phase.hashes[s.phase.next]
    ensures RightWrite(s.store, s.phase, Effect(s, e))
  {
  }

  lemma StatusWrites(cfg: Config, s: State, e: Event)
    requires HonestInv(cfg, s) && Enabled(cfg, s, e)
    ensures RightWrite(s.store, s.phase, Effect(s, e))
  {
    WellMadeHash(cfg, s.store);
    if BidLoopEnabled(s, e) {
      BidLoopWritesRight(cfg, s, e);
    }
  }

  lemma RightWriteIsEdge(m: Store, ph: Phase, op: Op, h: Hash)
    requires RightWrite(m, ph, op) && h in Apply(m, op)
    ensures if h in m then Edge(m[h].status, Apply(m, op)[h].status) else Apply(m, op)[h].status == Init
  {
  }

  lemma StepFollowsLifecycle(cfg: Config, s: State, e: Event, h: Hash)
    requires HonestInv(cfg, s) && Enabled(cfg, s, e) && h in After(cfg, s, e).store
    ensures var n := After(cfg, s, e).store;
            if h in s.store then Edge(s.store[h].status, n[h].status) else n[h].status == Init
  {
    StatusWrites(cfg, s, e);
    RightWriteIsEdge(s.store, s.phase, Effect(s, e), h);
  }

  lemma SettledStays(cfg: Config, s: State, e: Event, h: Hash)
    requires HonestInv(cfg, s) && Enabled(cfg, s, e) && Settled(s.store, s.phase, h)
    ensures Settled(After(cfg, s, e).store, After(cfg, s, e).phase, h)
  {
    StepKeepsClosed(cfg, s, e, h);
    StepFollowsLifecycle(cfg, s, e, h);
  }

  // ---------------------------------------------------------------- the invariant is kept

  /** What the other actors do to the statuses, as far as the bid loop can tell. */
  ghost predicate Quiet(m: Store, n: Store, ph: Phase) {
    && Extends(m, n)
    && (forall h :: h in n && h !in m ==> n[h].status == Init)
    && (forall h :: h in m ==>
          n[h].status == m[h].status || (Settled(m, ph, h) && n[h].status in AFTER_COMMIT))
  }

  lemma QuietKeepsLink(m: Store, n: Store, ph: Phase)
    requires Link(m, ph) && NoStray(m, ph) && Quiet(m, n, ph)
    ensures Link(n, ph) && NoStray(n, ph)
  {
    if ph.Publishing? {
      forall i | 0 <= i < |ph.received| ensures OptionsFit(n, ph.received[i].options, ph.hashes) {
        forall j | 0 <= j < |ph.hashes|
          ensures ph.hashes[j] in n && OptionFor(n[ph.hashes[j]].tx) == OptionFor(m[ph.hashes[j]].tx)
        {
          assert OptionsFit(m, ph.received[i].options, ph.hashes);
          SameFrozen(m[ph.hashes[j]].tx, n[ph.hashes[j]].tx);
        }
      }
    }
  }

  lemma QuietWrite(m: Store, ph: Phase, op: Op)
    requires RightWrite(m, ph, op) && !op.Commit?
    requires op.SetStatus? ==> op.status == Decrypted || op.status == Finalised
    ensures Quiet(m, Apply(m, op), ph)
  {
    ApplyExtends(m, op);
  }

  lemma OthersWriteLate(cfg: Config, s: State, e: Event)
    requires Enabled(cfg, s, e) && !BidLoopEnabled(s, e)
    ensures var op := Effect(s, e); !op.Commit? && (op.SetStatus? ==> op.status == Decrypted || op.status == Finalised)
  {
  }

  lemma OthersAreQuiet(cfg: Config, s: State, e: Event)
    requires HonestInv(cfg, s) && Enabled(cfg, s, e) && !BidLoopEnabled(s, e)
    ensures Quiet(s.store, Apply(s.store, Effect(s, e)), s.phase)
  {
    StatusWrites(cfg, s, e);
    OthersWriteLate(cfg, s, e);
    QuietWrite(s.store, s.phase, Effect(s, e));
  }

  lemma ScanFindsInit(m: Store, order: seq<Hash>, block: uint64)
    requires IsOrderOf(order, WithStatus(m, Init))
    ensures Have(m, EligibleKeys(m, order, block), 0, |EligibleKeys(m, order, block)|, {Init})
    ensures Have(m, ExpiredKeys(m, order, block), 0, |ExpiredKeys(m, order, block)|, {Init})
    ensures NoDuplicates(ExpiredKeys(m, order, block))
    ensures forall h :: h in ExpiredKeys(m, order, block) ==> h !in EligibleKeys(m, order, block)
  {
    Partition(m, order, block);
    var eligible, expired := EligibleKeys(m, order, block), ExpiredKeys(m, order, block);
    forall i | 0 <= i < |eligible| ensures eligible[i] in m && m[eligible[i]].status == Init {
      assert eligible[i] in Eligible(m, block);
    }
    forall i | 0 <= i < |expired| ensures expired[i] in m && m[expired[i]].status == Init {
      assert expired[i] in Expired(m, block);
    }
  }

  lemma ScanLinks(s: State, order: seq<Hash>)
    requires KeysMatch(s.store) && NoStray(s.store, s.phase) && BidLoopEnabled(s, TickScans(order))
    ensures var ph := NextPhase(s, TickScans(order)); Link(s.store, ph) && NoStray(s.store, ph)
  {
    ScanFindsInit(s.store, order, s.phase.block);
  }

  /** The status of one known record becomes `status`; everything else keeps its own. */
  ghost predicate OneStatus(m: Store, n: Store, h: Hash, status: Status) {
    && h in m && n.Keys == m.Keys && n[h].status == status
    && forall g :: g in m && g != h ==> n[g].status == m[g].status
  }

  lemma LoopAdvances(m: Store, n: Store, hashes: seq<Hash>, next: nat, status: Status, before: set<Status>)
    requires next < |hashes| && NoDuplicates(hashes) && OneStatus(m, n, hashes[next], status)
    requires Have(m, hashes, 0, next, {status}) && Have(m, hashes, next, |hashes|, before)
    ensures Have(n, hashes, 0, next + 1, {status}) && Have(n, hashes, next + 1, |hashes|, before)
  {
  }

  lemma BlockingLinks(s: State, h: Hash)
    requires PhaseOk(s.store, s.phase) && Link(s.store, s.phase) && NoStray(s.store, s.phase)
    requires BidLoopEnabled(s, TickBlocks(h))
    ensures var n, ph := Apply(s.store, SetStatus(h, Blocked)), NextPhase(s, TickBlocks(h));
            Link(n, ph) && NoStray(n, ph)
  {
    assert h in s.phase.blocked;
  }

  lemma CreationLinks(s: State, e: Event)
    requires PhaseOk(s.store, s.phase) && Link(s.store, s.phase) && NoStray(s.store, s.phase) && BidLoopEnabled(s, e)
    requires e.TickReadsHead? || e.TickGivesUp? || e.TickBuilds? || e.TickMarks?
    ensures var n, ph := Apply(s.store, Effect(s, e)), NextPhase(s, e); Link(n, ph) && NoStray(n, ph)
  {
    if e.TickMarks? {
      var n := Apply(s.store, Effect(s, e));
      LoopAdvances(s.store, n, s.phase.hashes, s.phase.next, BidSubmitted, {Init});
    }
  }

  lemma SubmissionLinks(s: State, e: Event)
    requires PhaseOk(s.store, s.phase) && Link(s.store, s.phase) && NoStray(s.store, s.phase) && BidLoopEnabled(s, e)
    requires e.BidNotSent? || e.TickUndone? || e.TickPublishes? || e.TickEnds?
    ensures Link(s.store, NextPhase(s, e)) && NoStray(s.store, NextPhase(s, e))
  {
  }

  lemma ArrivalLinks(s: State, c: Commitment)
    requires PhaseOk(s.store, s.phase) && Link(s.store, s.phase) && NoStray(s.store, s.phase)
    requires BidLoopEnabled(s, CommitmentArrives(c)) && Echoes(c, s.phase.bid)
    ensures var ph := NextPhase(s, CommitmentArrives(c)); Link(s.store, ph) && NoStray(s.store, ph)
  {
  }

  lemma ExitLinks(s: State, exit: Exit)
    requires PhaseOk(s.store, s.phase) && Link(s.store, s.phase) && NoStray(s.store, s.phase)
    requires BidLoopEnabled(s, StreamExits(exit))
    ensures var ph := NextPhase(s, StreamExits(exit)); Link(s.store, ph) && NoStray(s.store, ph)
  {
  }

  lemma CommitmentLinks(m: Store, n: Store, ph: Phase)
    requires ph.Submitting? && PhaseOk(m, ph) && Link(m, ph) && NoStray(m, ph)
    requires ph.next < |ph.hashes| && OneStatus(m, n, ph.hashes[ph.next], Committed)
    ensures Link(n, WithNext(ph, ph.next + 1)) && NoStray(n, WithNext(ph, ph.next + 1))
  {
  }

  lemma UndoLinks(m: Store, n: Store, ph: Phase)
    requires ph.Undoing? && PhaseOk(m, ph) && Link(m, ph) && NoStray(m, ph)
    requires ph.next < |ph.hashes| && OneStatus(m, n, ph.hashes[ph.next], Init)
    ensures Link(n, WithNext(ph, ph.next + 1)) && NoStray(n, WithNext(ph, ph.next + 1))
  {
    LoopAdvances(m, n, ph.hashes, ph.next, Init, {BidSubmitted, Committed});
  }

  lemma ResetLinks(m: Store, n: Store, ph: Phase)
    requires ph.Resetting? && PhaseOk(m, ph) && Link(m, ph) && NoStray(m, ph)
    requires ph.next < |ph.hashes| && OneStatus(m, n, ph.hashes[ph.next], Init)
    ensures Link(n, WithNext(ph, ph.next + 1)) && NoStray(n, WithNext(ph, ph.next + 1))
  {
    LoopAdvances(m, n, ph.hashes, ph.next, Init, {Init, BidSubmitted, Committed});
  }

  lemma WriteIsOneStatus(m: Store, h: Hash, status: Status, block: uint64)
    requires h in m
    ensures OneStatus(m, Apply(m, SetStatus(h, status)), h, status)
    ensures OneStatus(m, Apply(m, Commit(h, block)), h, Committed)
  {
  }

  lemma MarkingLinks(s: State, e: Event)
    requires PhaseOk(s.store, s.phase) && Link(s.store, s.phase) && NoStray(s.store, s.phase) && BidLoopEnabled(s, e)
    requires e.CommitmentMarks? || e.TickUndoes? || e.TickResets?
    requires s.phase.next < |s.phase.hashes| && e.hash == s.phase.hashes[s.phase.next] && e.hash in s.store
    ensures var n, ph := Apply(s.store, Effect(s, e)), WithNext(s.phase, s.phase.next + 1);
            Link(n, ph) && NoStray(n, ph)
  {
    if e.CommitmentMarks? {
      WriteIsOneStatus(s.store, e.hash, Committed, e.block);
      CommitmentLinks(s.store, Apply(s.store, Commit(e.hash, e.block)), s.phase);
    } else {
      WriteIsOneStatus(s.store, e.hash, Init, 0);
      if e.TickUndoes? {
        UndoLinks(s.store, Apply(s.store, SetStatus(e.hash, Init)), s.phase);
      } else {
        ResetLinks(s.store, Apply(s.store, SetStatus(e.hash, Init)), s.phase);
      }
    }
  }

  lemma MarkingTargets(cfg: Config, s: State, e: Event)
    requires Inv(cfg, s) && Link(s.store, s.phase) && BidLoopEnabled(s, e)
    requires e.CommitmentMarks? || e.TickUndoes? || e.TickResets?
    ensures s.phase.next < |s.phase.hashes| && e.hash == s.phase.hashes[s.phase.next] && e.hash in s.store
  {
    if !e.TickResets? {
      BidLoopTargets(cfg, s, e);
    }
    assert Known(s.store, s.phase.hashes);
  }

  /** The steps that take the bid loop to its next phase. */
  lemma TurnLinks(cfg: Config, s: State, e: Event)
    requires Inv(cfg, s) && Link(s.store, s.phase) && NoStray(s.store, s.phase) && BidLoopEnabled(s, e)
    requires e.TickScans? || e.StreamExits? || (e.CommitmentArrives? && Echoes(e.c, s.phase.bid))
    ensures Link(s.store, NextPhase(s, e)) && NoStray(s.store, NextPhase(s, e))
  {
    if e.TickScans? {
      WellMadeHash(cfg, s.store);
      ScanLinks(s, e.order);
    } else if e.StreamExits? {
      ExitLinks(s, e.exit);
    } else {
      ArrivalLinks(s, e.c);
    }
  }

  lemma RoundLinks(cfg: Config, s: State, e: Event)
    requires Inv(cfg, s) && Link(s.store, s.phase) && NoStray(s.store, s.phase) && BidLoopEnabled(s, e)
    requires e.CommitmentMarks? || e.TickUndoes? || e.TickResets?
    ensures var n, ph := Apply(s.store, Effect(s, e)), NextPhase(s, e); Link(n, ph) && NoStray(n, ph)
  {
    MarkingTargets(cfg, s, e);
    MarkingLinks(s, e);
    RoundAdvances(s, e);
  }

  lemma RoundAdvances(s: State, e: Event)
    requires BidLoopEnabled(s, e) && (e.CommitmentMarks? || e.TickUndoes? || e.TickResets?)
    ensures NextPhase(s, e) == WithNext(s.phase, s.phase.next + 1)
  {
  }

  lemma BidLoopLinks(cfg: Config, s: State, e: Event)
    requires Inv(cfg, s) && Link(s.store, s.phase) && NoStray(s.store, s.phase) && BidLoopEnabled(s, e)
    requires e.CommitmentArrives? ==> Echoes(e.c, s.phase.bid)
    ensures var n, ph := Apply(s.store, Effect(s, e)), NextPhase(s, e); Link(n, ph) && NoStray(n, ph)
  {
    if e.TickScans? || e.StreamExits? || e.CommitmentArrives? {
      TurnLinks(cfg, s, e);
    } else if e.TickBlocks? {
      BlockingLinks(s, e.hash);
    } else if e.CommitmentMarks? || e.TickUndoes? || e.TickResets? {
      RoundLinks(cfg, s, e);
    } else if e.BidNotSent? || e.TickUndone? || e.TickPublishes? || e.TickEnds? {
      SubmissionLinks(s, e);
    } else {
      CreationLinks(s, e);
    }
  }

  lemma LinkStays(cfg: Config, s: State, e: Event)
    requires HonestInv(cfg, s) && Enabled(cfg, s, e) && Honest(cfg, s, e)
    ensures var t := After(cfg, s, e); Link(t.store, t.phase) && NoStray(t.store, t.phase)
  {
    if BidLoopEnabled(s, e) {
      BidLoopLinks(cfg, s, e);
    } else {
      OthersAreQuiet(cfg, s, e);
      QuietKeepsLink(s.store, Apply(s.store, Effect(s, e)), s.phase);
    }
  }

  lemma SameIdentities(m: Store, op: Op)
    requires !op.Retry?
    ensures forall h :: h in m ==> h in Apply(m, op) && Apply(m, op)[h].tx.identity == m[h].tx.identity
  {
  }

  /** Prefix `i` of a commitment being published belongs to transaction `i` of the bid. */
  lemma PrefixBelongs(cfg: Config, m: Store, options: seq<BidOption>, hashes: seq<Hash>, i: nat)
    requires StoreOk(cfg, m) && OptionsFit(m, options, hashes)
    requires IdentityPrefixes(options).Some? && i < |IdentityPrefixes(options).value|
    ensures i < |hashes| && hashes[i] in m
    ensures IdentityPrefixes(options).value[i] == m[hashes[i]].tx.identityPrefix
    ensures IdentityOfPrefix(cfg, IdentityPrefixes(options).value[i]) == m[hashes[i]].tx.identity
  {
    PrefixLeadsToIdentity(cfg, m[hashes[i]].tx, hashes[i]);
    assert IdentityPrefixes(options).value[i] == TrimPrefix(options[i].identityPrefix, "0x");
  }

  /** A prefix that is new to the keypers belongs to a transaction of the bid that succeeded. */
  lemma PublishedBelongs(cfg: Config, s: State, e: Event, x: string) returns (i: nat)
    requires StoreOk(cfg, s.store) && Link(s.store, s.phase) && BidLoopEnabled(s, e) && e.TickPublishes?
    requires x in NextPublished(s, e) && x !in s.published
    ensures i < |s.phase.hashes| && s.phase.hashes[i] in s.store
    ensures s.store[s.phase.hashes[i]].tx.identityPrefix == x
    ensures s.store[s.phase.hashes[i]].tx.identity == IdentityOfPrefix(cfg, x)
  {
    var options := s.phase.received[s.phase.next].options;
    i :| 0 <= i < |IdentityPrefixes(options).value| && IdentityPrefixes(options).value[i] == x;
    PrefixBelongs(cfg, s.store, options, s.phase.hashes, i);
  }

  lemma PublishingReachesSettled(cfg: Config, s: State, e: Event, x: string, h: Hash)
    requires HonestInv(cfg, s) && BidLoopEnabled(s, e) && e.TickPublishes?
    requires x in NextPublished(s, e) && x !in s.published
    requires h in s.store && s.store[h].tx.identity == IdentityOfPrefix(cfg, x)
    ensures Settled(s.store, s.phase, h)
  {
    var i := PublishedBelongs(cfg, s, e, x);
    assert s.phase.hashes[i] == h;
  }

  /** A prefix the keypers learn belongs to no submission still under way. */
  lemma PublishingIsNotPending(cfg: Config, s: State, e: Event, x: string, p: nat)
    requires HonestInv(cfg, s) && BidLoopEnabled(s, e) && e.TickPublishes?
    requires x in NextPublished(s, e) && x !in s.published
    requires p in s.subs && s.subs[p].Storing?
    ensures s.subs[p].tx.identity != IdentityOfPrefix(cfg, x)
  {
    var i := PublishedBelongs(cfg, s, e, x);
  }

  lemma EncryptionKeepsDifferent(cfg: Config, s: State, e: Event)
    requires IdentitiesDiffer(cfg, s) && e.SubmitEncrypts? && Enabled(cfg, s, e) && Honest(cfg, s, e)
    ensures IdentitiesDiffer(cfg, After(cfg, s, e))
  {
    var t := After(cfg, s, e);
    assert t.subs[e.sub].tx.identity == Encode(GetIdentity(cfg, e.prefix));
    assert t.store == s.store && t.published == s.published;
  }

  lemma StoringKeepsDifferent(cfg: Config, s: State, e: Event)
    requires IdentitiesDiffer(cfg, s) && e.SubmitStores? && Enabled(cfg, s, e)
    ensures IdentitiesDiffer(cfg, After(cfg, s, e))
  {
    var t := After(cfg, s, e);
    assert t.store == s.store[e.hash := Record(e.tx, Init, 0, 0)] && t.subs == s.subs - {e.sub};
    assert t.published == s.published;
  }

  lemma IdentitiesStayDifferent(cfg: Config, s: State, e: Event)
    requires HonestInv(cfg, s) && Enabled(cfg, s, e) && Honest(cfg, s, e)
    ensures IdentitiesDiffer(cfg, After(cfg, s, e))
  {
    if e.SubmitEncrypts? {
      EncryptionKeepsDifferent(cfg, s, e);
    } else if e.SubmitStores? {
      StoringKeepsDifferent(cfg, s, e);
    } else {
      OtherStepsKeepDifferent(cfg, s, e);
    }
  }

  lemma NoNewSubmissions(cfg: Config, s: State, e: Event)
    requires Enabled(cfg, s, e) && !e.SubmitEncrypts? && !e.SubmitStores?
    ensures var t := After(cfg, s, e);
            && t.store.Keys == s.store.Keys
            && forall p :: p in t.subs && t.subs[p].Storing? ==> p in s.subs && t.subs[p] == s.subs[p]
  {
  }

  lemma OtherStepsKeepDifferent(cfg: Config, s: State, e: Event)
    requires HonestInv(cfg, s) && Enabled(cfg, s, e) && !e.SubmitEncrypts? && !e.SubmitStores?
    ensures IdentitiesDiffer(cfg, After(cfg, s, e))
  {
    var t := After(cfg, s, e);
    SameIdentities(s.store, Effect(s, e));
    NoNewSubmissions(cfg, s, e);
    forall p, x | p in s.subs && s.subs[p].Storing? && x in t.published
      ensures s.subs[p].tx.identity != IdentityOfPrefix(cfg, x)
    {
      if x !in s.published {
        PublishingIsNotPending(cfg, s, e, x, p);
      }
    }
  }

  lemma PublishedIsSettled(cfg: Config, s: State, e: Event, x: string, h: Hash)
    requires HonestInv(cfg, s) && Enabled(cfg, s, e) && x in NextPublished(s, e)
    requires h in s.store && s.store[h].tx.identity == IdentityOfPrefix(cfg, x)
    ensures Settled(s.store, s.phase, h)
  {
    if x !in s.published {
      PublishingReachesSettled(cfg, s, e, x, h);
    }
  }

  lemma NewIsUnpublished(cfg: Config, s: State, e: Event, x: string)
    requires IdentitiesDiffer(cfg, s) && e.SubmitStores? && Enabled(cfg, s, e) && x in s.published
    ensures e.tx.identity != IdentityOfPrefix(cfg, x)
  {
  }

  lemma LedToBefore(cfg: Config, s: State, e: Event, x: string, h: Hash)
    requires IdentitiesDiffer(cfg, s) && Enabled(cfg, s, e) && x in NextPublished(s, e)
    requires h in Apply(s.store, Effect(s, e)) && Apply(s.store, Effect(s, e))[h].tx.identity == IdentityOfPrefix(cfg, x)
    ensures h in s.store && s.store[h].tx.identity == IdentityOfPrefix(cfg, x)
  {
    SameIdentities(s.store, Effect(s, e));
    if e.SubmitStores? {
      NewIsUnpublished(cfg, s, e, x);
    }
  }

  lemma PublishedStaysSettled(cfg: Config, s: State, e: Event)
    requires HonestInv(cfg, s) && Enabled(cfg, s, e)
    ensures PublishedSettled(cfg, After(cfg, s, e))
  {
    var t := After(cfg, s, e);
    forall x, h | x in t.published && h in t.store && t.store[h].tx.identity == IdentityOfPrefix(cfg, x)
      ensures Settled(t.store, t.phase, h)
    {
      LedToBefore(cfg, s, e, x, h);
      PublishedIsSettled(cfg, s, e, x, h);
      SettledStays(cfg, s, e, h);
    }
  }

  lemma ReleasedIsSettled(cfg: Config, s: State, e: Event)
    requires PublishedSettled(cfg, s) && HandlerEnabled(s, e) && e.KeyArrives? && Released(cfg, s, e.preimage)
    ensures Settled(s.store, s.phase, e.hash)
  {
    var x :| x in s.published && Encode(e.preimage) == IdentityOfPrefix(cfg, x);
  }

  lemma HandlersAfter(s: State, e: Event, k: nat)
    requires HandlerEnabled(s, e) && k in NextHandlers(s, e)
    ensures if e.KeyArrives? && k == e.handler then NextHandlers(s, e)[k].hash == e.hash
            else k in s.handlers && NextHandlers(s, e)[k].hash == s.handlers[k].hash
  {
  }

  lemma HandlersStaySettled(cfg: Config, s: State, e: Event)
    requires HonestInv(cfg, s) && Enabled(cfg, s, e) && Honest(cfg, s, e)
    ensures HandlersSettled(After(cfg, s, e))
  {
    var t := After(cfg, s, e);
    forall k | k in t.handlers ensures Settled(t.store, t.phase, t.handlers[k].hash) {
      if HandlerEnabled(s, e) {
        HandlersAfter(s, e, k);
        if e.KeyArrives? {
          ReleasedIsSettled(cfg, s, e);
        }
      }
      SettledStays(cfg, s, e, t.handlers[k].hash);
    }
  }

  lemma DecryptedIsSettled(m: Store, ph: Phase, h: Hash)
    requires Link(m, ph) && h in m && m[h].status == Decrypted
    ensures Settled(m, ph, h)
  {
  }

  lemma UnfinishedStays(cfg: Config, s: State, e: Event, h: Hash)
    requires HonestInv(cfg, s) && Enabled(cfg, s, e) && Unfinished(s.store, s.phase, h)
    ensures Unfinished(After(cfg, s, e).store, After(cfg, s, e).phase, h)
  {
    SettledStays(cfg, s, e, h);
    StepFollowsLifecycle(cfg, s, e, h);
  }

  lemma TodoAfter(s: State, e: Event)
    requires VerifierEnabled(s, e) && (NextVerifier(s, e).Checking? || NextVerifier(s, e).Receipted?)
    ensures if e.VerifierScans? then NextVerifier(s, e).todo == e.order
            else (s.verifier.Checking? || s.verifier.Receipted?) && NextVerifier(s, e).todo == s.verifier.todo
  {
  }

  lemma ScannedIsUnfinished(s: State, e: Event, i: nat)
    requires Link(s.store, s.phase) && VerifierEnabled(s, e) && e.VerifierScans? && i < |e.order|
    ensures Unfinished(s.store, s.phase, e.order[i])
  {
    assert e.order[i] in e.order;
    DecryptedIsSettled(s.store, s.phase, e.order[i]);
  }

  lemma VerifierStaysSettled(cfg: Config, s: State, e: Event)
    requires HonestInv(cfg, s) && Enabled(cfg, s, e)
    ensures VerifierSettled(After(cfg, s, e))
  {
    var t := After(cfg, s, e);
    if t.verifier.Checking? || t.verifier.Receipted? {
      forall i | 0 <= i < |t.verifier.todo| ensures Unfinished(t.store, t.phase, t.verifier.todo[i]) {
        if VerifierEnabled(s, e) {
          TodoAfter(s, e);
          if e.VerifierScans? {
            ScannedIsUnfinished(s, e, i);
          }
        }
        UnfinishedStays(cfg, s, e, t.verifier.todo[i]);
      }
    }
  }

  lemma StepKeepsHonestInv(cfg: Config, s: State, e: Event)
    requires HonestInv(cfg, s) && Enabled(cfg, s, e) && Honest(cfg, s, e)
    ensures HonestInv(cfg, After(cfg, s, e))
  {
    StepKeepsInv(cfg, s, e);
    LinkStays(cfg, s, e);
    IdentitiesStayDifferent(cfg, s, e);
    PublishedStaysSettled(cfg, s, e);
    HandlersStaySettled(cfg, s, e);
    VerifierStaysSettled(cfg, s, e);
  }

  // ---------------------------------------------------------------- whole runs

  ghost predicate HonestUpTo(cfg: Config, r: Run, n: nat) {
    IsRun(cfg, r) && n <= |r.events| && forall i :: 0 <= i < n ==> HonestAt(cfg, r, i)
  }

  lemma {:induction false} HonestInvUpTo(cfg: Config, r: Run, n: nat)
    requires HonestUpTo(cfg, r, n)
    ensures HonestInv(cfg, r.states[n])
  {
    if n > 0 {
      HonestInvUpTo(cfg, r, n - 1);
      assert HonestAt(cfg, r, n - 1);
      StepKeepsHonestInv(cfg, r.states[n - 1], r.events[n - 1]);
    }
  }

  lemma HonestInvHolds(cfg: Config, r: Run, n: nat)
    requires IsHonestRun(cfg, r) && n < |r.states|
    ensures HonestInv(cfg, r.states[n])
  {
    HonestInvUpTo(cfg, r, n);
  }

  /**
   Lifecycle: in every honest interleaved run each step moves the status of each transaction along
   one of the eight edges or not at all, and a new transaction starts in `Init`.
   */
  lemma LifecycleHolds(cfg: Config, r: Run, i: nat, h: Hash)
    requires IsHonestRun(cfg, r) && i < |r.events| && h in r.states[i + 1].store
    ensures var m, n := r.states[i].store, r.states[i + 1].store;
            if h in m then Edge(m[h].status, n[h].status) else n[h].status == Init
  {
    HonestInvHolds(cfg, r, i);
    assert HonestAt(cfg, r, i);
    StepFollowsLifecycle(cfg, r.states[i], r.events[i], h);
  }

  lemma FinalisedIsLeftBy(m: Store, ph: Phase, op: Op, h: Hash)
    requires RightWrite(m, ph, op) && h in m && m[h].status == Finalised
    ensures h in Apply(m, op)
    ensures Apply(m, op)[h].status != Finalised <==> op == SetStatus(h, Decrypted)
  {
  }

  /** `Finalised` is not terminal: a step takes a transaction out of it exactly if it marks a key for it. */
  lemma FinalisedIsLeftIff(cfg: Config, r: Run, i: nat, h: Hash)
    requires IsHonestRun(cfg, r) && i < |r.events|
    requires h in r.states[i].store && r.states[i].store[h].status == Finalised
    ensures h in r.states[i + 1].store
    ensures r.states[i + 1].store[h].status != Finalised <==> r.events[i].KeyMarks? && r.events[i].hash == h
  {
    HonestInvHolds(cfg, r, i);
    assert HonestAt(cfg, r, i);
    StatusWrites(cfg, r.states[i], r.events[i]);
    FinalisedIsLeftBy(r.states[i].store, r.states[i].phase, Effect(r.states[i], r.events[i]), h);
  }
}
