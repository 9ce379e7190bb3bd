/**
 The sequential account and the interleaved one agree: a tick of the bid loop that nobody
 interrupts is one of the runs of the step system, and leaves the store the bid manager leaves.
 */
module Refinement {
  import opened Types
  import opened StoreModel
  import opened Bids
  import opened Shutter
  import opened Protocol

  datatype Actor = BidLoop | Submitter(sub: nat) | KeyHandler(handler: nat) | Checker

  /** The steps that are an actor's own. */
  predicate IsBy(e: Event, actor: Actor) {
    match e
    case HeadMoves(_) => false
    case SubmitLooksUp(p, _) => actor == Submitter(p)
    case SubmitEncrypts(p, _, _, _, _) => actor == Submitter(p)
    case SubmitFails(p) => actor == Submitter(p)
    case SubmitStores(p, _, _) => actor == Submitter(p)
    case SubmitFindsDuplicate(p) => actor == Submitter(p)
    case KeyArrives(k, _, _, _) => actor == KeyHandler(k)
    case KeyIsWritten(k) => actor == KeyHandler(k)
    case KeyMarks(k, _) => actor == KeyHandler(k)
    case VerifierReadsHead(_) => actor == Checker
    case VerifierScans(_) => actor == Checker
    case VerifierSkips => actor == Checker
    case VerifierSeesReceipt(_) => actor == Checker
    case VerifierFinalises(_) => actor == Checker
    case VerifierEnds => actor == Checker
    case _ => actor == BidLoop
  }

  /** The state to which one actor's steps lead, if each is its own and possible when its turn comes. */
  ghost function Play(cfg: Config, actor: Actor, s: State, events: seq<Event>): Option<State> {
    if events == [] then Some(s) else
    match Play(cfg, actor, s, events[..|events| - 1])
    case None => None
    case Some(t) =>
      var e := events[|events| - 1];
      if Enabled(cfg, t, e) && IsBy(e, actor) then Some(After(cfg, t, e)) else None
  }

  lemma {:induction false} PlayOn(cfg: Config, actor: Actor, s: State, a: seq<Event>, t: State, b: seq<Event>)
    requires Play(cfg, actor, s, a) == Some(t)
    ensures Play(cfg, actor, s, a + b) == Play(cfg, actor, t, b)
  {
    if b == [] {
      assert a + b == a;
    } else {
      var last := |b| - 1;
      PlayOn(cfg, actor, s, a, t, b[..last]);
      assert (a + b)[..|a + b| - 1] == a + b[..last];
    }
  }

  /** What one actor plays on its own extends any run that has come to its starting state. */
  lemma {:induction false} PlayIsARun(cfg: Config, actor: Actor, r: Run, events: seq<Event>, t: State) returns (q: Run)
    requires IsRun(cfg, r) && Play(cfg, actor, r.states[|r.events|], events) == Some(t)
    ensures IsRun(cfg, q) && q.events == r.events + events && q.states[|q.events|] == t
    ensures forall e :: e in events ==> IsBy(e, actor)
    decreases |events|
  {
    if events == [] {
      q := r;
    } else {
      var before, e := events[..|events| - 1], events[|events| - 1];
      var u := Play(cfg, actor, r.states[|r.events|], before).value;
      q := PlayIsARun(cfg, actor, r, before, u);
      q := OneStepOn(cfg, q, e);
      assert events == before + [e];
    }
  }

  lemma OneStepOn(cfg: Config, r: Run, e: Event) returns (q: Run)
    requires IsRun(cfg, r) && Enabled(cfg, r.states[|r.events|], e)
    ensures IsRun(cfg, q) && q.events == r.events + [e]
    ensures q.states == r.states + [After(cfg, r.states[|r.events|], e)]
  {
    q := Run(r.states + [After(cfg, r.states[|r.events|], e)], r.events + [e]);
    forall i | 0 <= i < |q.events| ensures StepAt(cfg, q, i) {
      if i < |r.events| {
        assert StepAt(cfg, r, i);
      }
    }
  }

  /** A step of the bid loop, other than a publication, changes the store and the phase only. */
  lemma BidLoopStep(cfg: Config, s: State, e: Event)
    requires BidLoopEnabled(s, e) && (e.TickPublishes? ==> !e.reached)
    ensures Enabled(cfg, s, e)
    ensures After(cfg, s, e) == s.(store := Apply(s.store, Effect(s, e)), phase := NextPhase(s, e))
  {
  }

  lemma HandlerStep(cfg: Config, s: State, e: Event)
    requires HandlerEnabled(s, e)
    ensures Enabled(cfg, s, e)
    ensures After(cfg, s, e) == s.(store := Apply(s.store, Effect(s, e)), handlers := NextHandlers(s, e))
  {
  }

  lemma VerifierStep(cfg: Config, s: State, e: Event)
    requires VerifierEnabled(s, e)
    ensures Enabled(cfg, s, e)
    ensures After(cfg, s, e) == s.(store := Apply(s.store, Effect(s, e)), verifier := NextVerifier(s, e))
  {
  }

  lemma PlayStep(cfg: Config, s: State, a: seq<Event>, t: State, e: Event)
    requires Play(cfg, BidLoop, s, a) == Some(t) && BidLoopEnabled(t, e) && (e.TickPublishes? ==> !e.reached)
    ensures Play(cfg, BidLoop, s, a + [e]) == Some(t.(store := Apply(t.store, Effect(t, e)), phase := NextPhase(t, e)))
  {
    BidLoopStep(cfg, t, e);
    assert (a + [e])[..|a|] == a;
  }

  predicate Loops(ph: Phase) {
    !ph.Idle? && !ph.HeadRead?
  }

  /** The state of a loop after `k` rounds, with the store `m`. */
  function Round(s: State, m: Store, k: nat): State
    requires Loops(s.phase)
  {
    s.(store := m, phase := WithNext(s.phase, k))
  }

  function EventsFor(hashes: seq<Hash>, ev: Hash -> Event): seq<Event> {
    seq(|hashes|, i requires 0 <= i < |hashes| => ev(hashes[i]))
  }

  function OpsFor(hashes: seq<Hash>, op: Hash -> Op): seq<Op> {
    seq(|hashes|, i requires 0 <= i < |hashes| => op(hashes[i]))
  }

  function BlockEvent(): Hash -> Event { (h: Hash) => TickBlocks(h) }
  function MarkEvent(): Hash -> Event { (h: Hash) => TickMarks(h) }
  function UndoEvent(): Hash -> Event { (h: Hash) => TickUndoes(h) }
  function ResetEvent(): Hash -> Event { (h: Hash) => TickResets(h) }
  function CommitEvent(block: uint64): Hash -> Event { (h: Hash) => CommitmentMarks(h, block) }
  function StatusOp(status: Status): Hash -> Op { (h: Hash) => SetStatus(h, status) }
  function CommitOp(block: uint64): Hash -> Op { (h: Hash) => Commit(h, block) }

  /** Round `k` of the loop makes the operation for hash `k`. */
  ghost predicate RoundWorks(s: State, m: Store, k: nat, e: Event, op: Op)
    requires Loops(s.phase)
  {
    var t := Round(s, m, k);
    BidLoopEnabled(t, e) && !e.TickPublishes? && Effect(t, e) == op && NextPhase(t, e) == WithNext(s.phase, k + 1)
  }

  ghost predicate IsLoop(s: State, hashes: seq<Hash>, ev: Hash -> Event, op: Hash -> Op)
    requires Loops(s.phase)
  {
    forall m: Store, k: nat :: k < |hashes| ==> RoundWorks(s, m, k, ev(hashes[k]), op(hashes[k]))
  }

  lemma OneMoreRound(hashes: seq<Hash>, ev: Hash -> Event, op: Hash -> Op, m: Store, k: nat)
    requires k < |hashes|
    ensures EventsFor(hashes[..k + 1], ev) == EventsFor(hashes[..k], ev) + [ev(hashes[k])]
    ensures ApplyAll(m, OpsFor(hashes[..k + 1], op)) == Apply(ApplyAll(m, OpsFor(hashes[..k], op)), op(hashes[k]))
  {
    assert OpsFor(hashes[..k + 1], op)[..k] == OpsFor(hashes[..k], op);
  }

  lemma {:induction false} LoopPlays(cfg: Config, s: State, hashes: seq<Hash>, ev: Hash -> Event, op: Hash -> Op, k: nat)
    requires Loops(s.phase) && s.phase.next == 0 && IsLoop(s, hashes, ev, op) && k <= |hashes|
    ensures Play(cfg, BidLoop, s, EventsFor(hashes[..k], ev)) ==
            Some(Round(s, ApplyAll(s.store, OpsFor(hashes[..k], op)), k))
  {
    if k == 0 {
      assert s == Round(s, s.store, 0);
    } else {
      LoopPlays(cfg, s, hashes, ev, op, k - 1);
      var m := ApplyAll(s.store, OpsFor(hashes[..k - 1], op));
      assert RoundWorks(s, m, k - 1, ev(hashes[k - 1]), op(hashes[k - 1]));
      PlayStep(cfg, s, EventsFor(hashes[..k - 1], ev), Round(s, m, k - 1), ev(hashes[k - 1]));
      OneMoreRound(hashes, ev, op, s.store, k - 1);
    }
  }

  lemma WholeLoopPlays(cfg: Config, s: State, hashes: seq<Hash>, ev: Hash -> Event, op: Hash -> Op)
    requires Loops(s.phase) && s.phase.next == 0 && IsLoop(s, hashes, ev, op)
    ensures Play(cfg, BidLoop, s, EventsFor(hashes, ev)) == Some(Round(s, ApplyAll(s.store, OpsFor(hashes, op)), |hashes|))
  {
    LoopPlays(cfg, s, hashes, ev, op, |hashes|);
    assert hashes[..|hashes|] == hashes;
  }

  lemma StatusLoopOps(hashes: seq<Hash>, status: Status)
    ensures OpsFor(hashes, StatusOp(status)) == StatusOps(hashes, status)
  {
  }

  // ---------------------------------------------------------------- creating the bid

  lemma BlockAll(cfg: Config, s: State)
    requires s.phase.Blocking? && s.phase.next == 0
    ensures Play(cfg, BidLoop, s, EventsFor(s.phase.blocked, BlockEvent())) ==
            Some(Round(s, ApplyAll(s.store, StatusOps(s.phase.blocked, Blocked)), |s.phase.blocked|))
  {
    WholeLoopPlays(cfg, s, s.phase.blocked, BlockEvent(), StatusOp(Blocked));
    StatusLoopOps(s.phase.blocked, Blocked);
  }

  lemma MarkEach(cfg: Config, s: State)
    requires s.phase.Marking? && s.phase.next == 0
    ensures Play(cfg, BidLoop, s, EventsFor(s.phase.hashes, MarkEvent())) ==
            Some(Round(s, ApplyAll(s.store, StatusOps(s.phase.hashes, BidSubmitted)), |s.phase.hashes|))
  {
    WholeLoopPlays(cfg, s, s.phase.hashes, MarkEvent(), StatusOp(BidSubmitted));
    StatusLoopOps(s.phase.hashes, BidSubmitted);
  }

  /** The state a bid creation ends in. */
  function AfterCreate(s: State, order: seq<Hash>, block: uint64): State
    requires forall k :: k in order ==> k in s.store
  {
    s.(store := ApplyAll(s.store, CreationOps(s.store, order, block)),
       phase := match CreationResult(DEFAULT_SLASH_AMOUNT, s.store, order, block)
                case Created(bid, hashes) => Marking(bid, hashes, |hashes|)
                case _ => Idle)
  }

  /** Status updates do not touch what a bid is made of. */
  lemma SameBid(m: Store, hashes: seq<Hash>, keys: seq<Hash>)
    requires forall k :: k in keys ==> k in m
    ensures forall k :: k in keys ==> k in ApplyAll(m, StatusOps(hashes, Blocked))
    ensures Transactions(ApplyAll(m, StatusOps(hashes, Blocked)), keys) == Transactions(m, keys)
  {
    StatusOpsEffect(m, hashes, Blocked);
  }

  lemma ScanAlone(cfg: Config, s: State, order: seq<Hash>, block: uint64) returns (events: seq<Event>)
    requires s.phase.Idle? && IsOrderOf(order, WithStatus(s.store, Init)) && order != []
    requires block == Add64(s.head, INCLUSION_WINDOW)
    ensures var keys, expired := EligibleKeys(s.store, order, block), ExpiredKeys(s.store, order, block);
            Play(cfg, BidLoop, s, events) ==
            Some(s.(phase := Blocking(block, Targets(s.store, expired), 0, keys, Targets(s.store, keys))))
  {
    PlayStep(cfg, s, [], s, TickReadsHead);
    var t := s.(phase := HeadRead(block));
    assert [] + [TickReadsHead] == [TickReadsHead];
    PlayStep(cfg, s, [TickReadsHead], t, TickScans(order));
    events := [TickReadsHead] + [TickScans(order)];
  }

  /** From the scan to the last blocked transaction. */
  lemma BlockAlone(cfg: Config, s: State, order: seq<Hash>, block: uint64) returns (events: seq<Event>, t: State)
    requires s.phase.Idle? && IsOrderOf(order, WithStatus(s.store, Init)) && order != []
    requires block == Add64(s.head, INCLUSION_WINDOW)
    ensures var keys, expired := EligibleKeys(s.store, order, block), ExpiredKeys(s.store, order, block);
            var blocked := Targets(s.store, expired);
            t == s.(store := ApplyAll(s.store, StatusOps(blocked, Blocked)),
                    phase := Blocking(block, blocked, |blocked|, keys, Targets(s.store, keys)))
    ensures Play(cfg, BidLoop, s, events) == Some(t)
  {
    var keys, expired := EligibleKeys(s.store, order, block), ExpiredKeys(s.store, order, block);
    var s1 := s.(phase := Blocking(block, Targets(s.store, expired), 0, keys, Targets(s.store, keys)));
    var scan := ScanAlone(cfg, s, order, block);
    BlockAll(cfg, s1);
    var blocks := EventsFor(s1.phase.blocked, BlockEvent());
    PlayOn(cfg, BidLoop, s, scan, s1, blocks);
    events := scan + blocks;
    t := Round(s1, ApplyAll(s.store, StatusOps(s1.phase.blocked, Blocked)), |s1.phase.blocked|);
  }

  lemma BidAlone(cfg: Config, s: State, bid: Bid) returns (events: seq<Event>)
    requires s.phase.Blocking? && s.phase.next == |s.phase.blocked| && s.phase.keys != []
    requires forall k :: k in s.phase.keys ==> k in s.store
    requires bid == MakeBid(DEFAULT_SLASH_AMOUNT, s.phase.block, Transactions(s.store, s.phase.keys))
    ensures var hashes := s.phase.hashes;
            Play(cfg, BidLoop, s, events) == Some(s.(store := ApplyAll(s.store, StatusOps(hashes, BidSubmitted)),
                                            phase := Marking(bid, hashes, |hashes|)))
  {
    var hashes := s.phase.hashes;
    PlayStep(cfg, s, [], s, TickBuilds(bid, hashes));
    var t := s.(phase := Marking(bid, hashes, 0));
    MarkEach(cfg, t);
    PlayOn(cfg, BidLoop, s, [] + [TickBuilds(bid, hashes)], t, EventsFor(hashes, MarkEvent()));
    events := [] + [TickBuilds(bid, hashes)] + EventsFor(hashes, MarkEvent());
  }

  lemma CreateAlone(cfg: Config, s: State, order: seq<Hash>, block: uint64) returns (events: seq<Event>)
    requires s.phase.Idle? && IsOrderOf(order, WithStatus(s.store, Init)) && order != []
    requires block == Add64(s.head, INCLUSION_WINDOW)
    ensures Play(cfg, BidLoop, s, events) == Some(AfterCreate(s, order, block))
  {
    var first, t := BlockAlone(cfg, s, order, block);
    var keys, hashes, blocked := t.phase.keys, t.phase.hashes, t.phase.blocked;
    ApplyAllConcat(s.store, StatusOps(blocked, Blocked), StatusOps(hashes, BidSubmitted));
    if keys == [] {
      PlayStep(cfg, s, first, t, TickGivesUp);
      events := first + [TickGivesUp];
      assert StatusOps(hashes, BidSubmitted) == [];
    } else {
      SameBid(s.store, blocked, keys);
      var bid := MakeBid(DEFAULT_SLASH_AMOUNT, block, Transactions(t.store, keys));
      var second := BidAlone(cfg, t, bid);
      PlayOn(cfg, BidLoop, s, first, t, second);
      events := first + second;
    }
  }

  // ---------------------------------------------------------------- submitting it

  lemma CommitIsLoop(s: State)
    requires s.phase.Submitting? && s.phase.received != []
    ensures var c := Last(s.phase.received);
            var block := ToUint64(c.blockNumber);
            IsLoop(s, HashesOf(c.txHashes), CommitEvent(block), CommitOp(block))
  {
  }

  lemma CommitLoopOps(c: Commitment)
    ensures OpsFor(HashesOf(c.txHashes), CommitOp(ToUint64(c.blockNumber))) == CommitmentOps(c)
  {
  }

  lemma WorkOff(cfg: Config, s: State)
    requires s.phase.Submitting? && s.phase.next == 0 && s.phase.received != []
    ensures var c := Last(s.phase.received);
            Play(cfg, BidLoop, s, EventsFor(HashesOf(c.txHashes), CommitEvent(ToUint64(c.blockNumber)))) ==
            Some(Round(s, ApplyAll(s.store, CommitmentOps(c)), |c.txHashes|))
  {
    var c := Last(s.phase.received);
    var block := ToUint64(c.blockNumber);
    CommitIsLoop(s);
    WholeLoopPlays(cfg, s, HashesOf(c.txHashes), CommitEvent(block), CommitOp(block));
    CommitLoopOps(c);
  }

  /** The state once the given commitments have been worked off. */
  function AfterReceived(s: State, received: seq<Commitment>): State
    requires s.phase.Marking?
  {
    s.(store := ApplyAll(s.store, ReceivedOps(received)),
       phase := if received == [] then s.phase
                else Submitting(s.phase.bid, s.phase.hashes, received, |Last(received).txHashes|))
  }

  lemma ArrivalPlays(cfg: Config, s: State, before: seq<Commitment>, c: Commitment)
    requires s.phase.Marking? && s.phase.next == |s.phase.hashes|
    ensures Play(cfg, BidLoop, AfterReceived(s, before), [CommitmentArrives(c)]) ==
            Some(AfterReceived(s, before).(phase := Submitting(s.phase.bid, s.phase.hashes, before + [c], 0)))
  {
    PlayStep(cfg, AfterReceived(s, before), [], AfterReceived(s, before), CommitmentArrives(c));
    assert [] + [CommitmentArrives(c)] == [CommitmentArrives(c)];
    assert before == [] ==> before + [c] == [c];
  }

  lemma ReceivedOneMore(m: Store, before: seq<Commitment>, c: Commitment)
    ensures ApplyAll(m, ReceivedOps(before + [c])) == ApplyAll(ApplyAll(m, ReceivedOps(before)), CommitmentOps(c))
  {
    assert (before + [c])[..|before|] == before;
    ApplyAllConcat(m, ReceivedOps(before), CommitmentOps(c));
  }

  lemma WorkedOff(s: State, before: seq<Commitment>, c: Commitment)
    requires s.phase.Marking?
    ensures var t := AfterReceived(s, before).(phase := Submitting(s.phase.bid, s.phase.hashes, before + [c], 0));
            Round(t, ApplyAll(t.store, CommitmentOps(c)), |c.txHashes|) == AfterReceived(s, before + [c])
  {
    ReceivedOneMore(s.store, before, c);
    assert Last(before + [c]) == c;
  }

  lemma OneArrival(cfg: Config, s: State, before: seq<Commitment>, c: Commitment) returns (events: seq<Event>)
    requires s.phase.Marking? && s.phase.next == |s.phase.hashes|
    ensures Play(cfg, BidLoop, AfterReceived(s, before), events) == Some(AfterReceived(s, before + [c]))
  {
    var t := AfterReceived(s, before).(phase := Submitting(s.phase.bid, s.phase.hashes, before + [c], 0));
    ArrivalPlays(cfg, s, before, c);
    assert Last(before + [c]) == c;
    WorkOff(cfg, t);
    var marks := EventsFor(HashesOf(c.txHashes), CommitEvent(ToUint64(c.blockNumber)));
    PlayOn(cfg, BidLoop, AfterReceived(s, before), [CommitmentArrives(c)], t, marks);
    WorkedOff(s, before, c);
    events := [CommitmentArrives(c)] + marks;
  }

  lemma {:induction false} ReceiveAlone(cfg: Config, s: State, received: seq<Commitment>) returns (events: seq<Event>)
    requires s.phase.Marking? && s.phase.next == |s.phase.hashes|
    ensures Play(cfg, BidLoop, s, events) == Some(AfterReceived(s, received))
    decreases |received|
  {
    if received == [] {
      events := [];
    } else {
      var before := received[..|received| - 1];
      assert received == before + [Last(received)];
      var earlier := ReceiveAlone(cfg, s, before);
      var last := OneArrival(cfg, s, before, Last(received));
      PlayOn(cfg, BidLoop, s, earlier, AfterReceived(s, before), last);
      events := earlier + last;
    }
  }

  lemma UndoIsLoop(s: State)
    requires s.phase.Undoing?
    ensures IsLoop(s, HashesOf(s.phase.bid.txHashes), UndoEvent(), StatusOp(Init))
  {
  }

  lemma UndoAll(cfg: Config, s: State) returns (events: seq<Event>)
    requires s.phase.Undoing? && s.phase.next == 0
    ensures Play(cfg, BidLoop, s, events) ==
            Some(s.(store := ApplyAll(s.store, StatusOps(HashesOf(s.phase.bid.txHashes), Init)),
                    phase := Resetting(s.phase.hashes, 0)))
  {
    var hashes := HashesOf(s.phase.bid.txHashes);
    UndoIsLoop(s);
    WholeLoopPlays(cfg, s, hashes, UndoEvent(), StatusOp(Init));
    StatusLoopOps(hashes, Init);
    var t := Round(s, ApplyAll(s.store, StatusOps(hashes, Init)), |hashes|);
    PlayStep(cfg, s, EventsFor(hashes, UndoEvent()), t, TickUndone);
    events := EventsFor(hashes, UndoEvent()) + [TickUndone];
  }

  lemma ResetAll(cfg: Config, s: State) returns (events: seq<Event>)
    requires s.phase.Resetting? && s.phase.next == 0
    ensures Play(cfg, BidLoop, s, events) ==
            Some(s.(store := ApplyAll(s.store, StatusOps(s.phase.hashes, Init)), phase := Idle))
  {
    var hashes := s.phase.hashes;
    WholeLoopPlays(cfg, s, hashes, ResetEvent(), StatusOp(Init));
    StatusLoopOps(hashes, Init);
    var t := Round(s, ApplyAll(s.store, StatusOps(hashes, Init)), |hashes|);
    PlayStep(cfg, s, EventsFor(hashes, ResetEvent()), t, TickEnds);
    events := EventsFor(hashes, ResetEvent()) + [TickEnds];
  }

  /** A publication also adds what its message brings the keypers. */
  lemma PublishStep(cfg: Config, s: State, reached: bool)
    requires BidLoopEnabled(s, TickPublishes(reached))
    ensures var e := TickPublishes(reached);
            && Enabled(cfg, s, e)
            && After(cfg, s, e) == s.(phase := WithNext(s.phase, s.phase.next + 1), published := NextPublished(s, e))
  {
  }

  /** The state after the first `k` publications. */
  function AfterPublishing(s: State, reached: seq<bool>, k: nat): State
    requires s.phase.Publishing? && k <= |s.phase.received| == |reached|
  {
    s.(phase := WithNext(s.phase, k),
       published := s.published + PrefixesIn(Arriving(s.phase.received[..k], reached[..k])))
  }

  lemma PrefixesOneMore(messages: seq<KeyperMessage>, more: seq<KeyperMessage>)
    ensures PrefixesIn(messages + more) == PrefixesIn(messages) + PrefixesIn(more)
  {
  }

  lemma OneMessage(c: Commitment)
    ensures PrefixesIn(Messages([c])) ==
            match IdentityPrefixes(c.options) case None => {} case Some(prefixes) => set x | x in prefixes
  {
    assert [c][..0] == [];
    assert Messages([c]) == match IdentityPrefixes(c.options)
                            case None => []
                            case Some(prefixes) => [KeyperMessage(c.txHashes, c.blockNumber, prefixes)];
  }

  lemma OneMorePublication(s: State, reached: seq<bool>, k: nat)
    requires s.phase.Publishing? && k < |s.phase.received| == |reached|
    ensures var t := AfterPublishing(s, reached, k);
            && BidLoopEnabled(t, TickPublishes(reached[k]))
            && NextPublished(t, TickPublishes(reached[k])) == AfterPublishing(s, reached, k + 1).published
  {
    var received := s.phase.received;
    assert received[..k + 1][..k] == received[..k] && reached[..k + 1][..k] == reached[..k];
    PrefixesOneMore(Arriving(received[..k], reached[..k]), if reached[k] then Messages([received[k]]) else []);
    OneMessage(received[k]);
  }

  lemma PublishesOn(cfg: Config, s: State, reached: seq<bool>, k: nat)
    requires s.phase.Publishing? && k < |s.phase.received| == |reached|
    ensures Enabled(cfg, AfterPublishing(s, reached, k), TickPublishes(reached[k]))
    ensures After(cfg, AfterPublishing(s, reached, k), TickPublishes(reached[k])) == AfterPublishing(s, reached, k + 1)
  {
    OneMorePublication(s, reached, k);
    PublishStep(cfg, AfterPublishing(s, reached, k), reached[k]);
  }

  lemma PublishOne(cfg: Config, s: State, before: seq<Event>, reached: seq<bool>, k: nat)
    requires s.phase.Publishing? && k < |s.phase.received| == |reached|
    requires Play(cfg, BidLoop, s, before) == Some(AfterPublishing(s, reached, k))
    ensures Play(cfg, BidLoop, s, before + [TickPublishes(reached[k])]) == Some(AfterPublishing(s, reached, k + 1))
  {
    PublishesOn(cfg, s, reached, k);
    assert (before + [TickPublishes(reached[k])])[..|before|] == before;
  }

  lemma {:induction false} PublishAll(cfg: Config, s: State, reached: seq<bool>, k: nat) returns (events: seq<Event>)
    requires s.phase.Publishing? && s.phase.next == 0 && k <= |s.phase.received| == |reached|
    ensures Play(cfg, BidLoop, s, events) == Some(AfterPublishing(s, reached, k))
    decreases k
  {
    if k == 0 {
      events := [];
      assert s.published + PrefixesIn([]) == s.published;
      assert s == AfterPublishing(s, reached, 0);
    } else {
      var before := PublishAll(cfg, s, reached, k - 1);
      PublishOne(cfg, s, before, reached, k - 1);
      events := before + [TickPublishes(reached[k - 1])];
    }
  }

  /** The state in which a submission hands over to the reset loop or to the publication. */
  function AfterSession(s: State, session: Session): State
    requires s.phase.Marking?
  {
    s.(store := ApplyAll(s.store, SessionOps(s.phase.bid, session)),
       phase := if Fails(session) then Resetting(s.phase.hashes, 0)
                else Publishing(s.phase.hashes, SessionReceived(session), 0))
  }

  lemma SessionAlone(cfg: Config, s: State, session: Session) returns (events: seq<Event>)
    requires s.phase.Marking? && s.phase.next == |s.phase.hashes|
    ensures Play(cfg, BidLoop, s, events) == Some(AfterSession(s, session))
  {
    var received := SessionReceived(session);
    if !session.Streamed? {
      PlayStep(cfg, s, [], s, BidNotSent);
      events := [] + [BidNotSent];
      assert SessionOps(s.phase.bid, session) == [];
    } else {
      var arrivals := ReceiveAlone(cfg, s, received);
      var t := AfterReceived(s, received);
      PlayStep(cfg, s, arrivals, t, StreamExits(session.exit));
      var u := t.(phase := AfterExit(s.phase.bid, s.phase.hashes, received, session.exit));
      events := arrivals + [StreamExits(session.exit)];
      if SessionError(session) == Some(StreamBroken) {
        var undo := UndoAll(cfg, u);
        PlayOn(cfg, BidLoop, s, events, u, undo);
        events := events + undo;
        ApplyAllConcat(s.store, ReceivedOps(received), StatusOps(HashesOf(s.phase.bid.txHashes), Init));
      } else {
        assert SessionOps(s.phase.bid, session) == ReceivedOps(received);
      }
    }
  }

  /** The messages of a session that reach the keypers: none unless the submission succeeded. */
  function SessionArriving(session: Session, reached: seq<bool>): seq<KeyperMessage>
    requires |reached| == |SessionReceived(session)|
  {
    if Fails(session) then [] else Arriving(SessionReceived(session), reached)
  }

  lemma SettleAlone(cfg: Config, s: State, session: Session, reached: seq<bool>) returns (events: seq<Event>)
    requires s.phase.Marking? && s.phase.next == |s.phase.hashes| && |reached| == |SessionReceived(session)|
    ensures Play(cfg, BidLoop, s, events) ==
            Some(s.(store := ApplyAll(s.store, SettleOps(s.phase.bid, s.phase.hashes, session)), phase := Idle,
                    published := s.published + PrefixesIn(SessionArriving(session, reached))))
  {
    var first := SessionAlone(cfg, s, session);
    var second := LeaveSession(cfg, AfterSession(s, session), s.phase, session, reached);
    PlayOn(cfg, BidLoop, s, first, AfterSession(s, session), second);
    events := first + second;
    SettledStore(s.store, s.phase.bid, s.phase.hashes, session);
  }

  lemma SettledStore(m: Store, bid: Bid, hashes: seq<Hash>, session: Session)
    ensures var n := ApplyAll(m, SessionOps(bid, session));
            ApplyAll(m, SettleOps(bid, hashes, session)) ==
            if Fails(session) then ApplyAll(n, StatusOps(hashes, Init)) else n
  {
    ApplyAllConcat(m, SessionOps(bid, session), StatusOps(hashes, Init));
    assert !Fails(session) ==> SettleOps(bid, hashes, session) == SessionOps(bid, session);
  }

  /** The reset loop or the publication, after the session of the bid in `ph`. */
  lemma LeaveSession(cfg: Config, s: State, ph: Phase, session: Session, reached: seq<bool>) returns (events: seq<Event>)
    requires ph.Marking? && |reached| == |SessionReceived(session)|
    requires s.phase == if Fails(session) then Resetting(ph.hashes, 0)
                        else Publishing(ph.hashes, SessionReceived(session), 0)
    ensures Play(cfg, BidLoop, s, events) ==
            Some(s.(store := if Fails(session) then ApplyAll(s.store, StatusOps(ph.hashes, Init)) else s.store,
                    phase := Idle,
                    published := s.published + PrefixesIn(SessionArriving(session, reached))))
  {
    if Fails(session) {
      events := ResetAll(cfg, s);
      assert s.published + PrefixesIn([]) == s.published;
    } else {
      events := PublishEverything(cfg, s, reached);
    }
  }

  lemma PublishEverything(cfg: Config, s: State, reached: seq<bool>) returns (events: seq<Event>)
    requires s.phase.Publishing? && s.phase.next == 0 && |s.phase.received| == |reached|
    ensures Play(cfg, BidLoop, s, events) ==
            Some(s.(phase := Idle, published := s.published + PrefixesIn(Arriving(s.phase.received, reached))))
  {
    var k := |reached|;
    var publish := PublishAll(cfg, s, reached, k);
    assert s.phase.received[..k] == s.phase.received && reached[..k] == reached;
    PlayStep(cfg, s, publish, AfterPublishing(s, reached, k), TickEnds);
    events := publish + [TickEnds];
  }

  /** The messages of a tick that reach the keypers. */
  function TickArriving(creation: Creation, session: Session, reached: seq<bool>): seq<KeyperMessage>
    requires |reached| == |SessionReceived(session)|
  {
    if creation.Created? then SessionArriving(session, reached) else []
  }

  lemma NothingAlone(cfg: Config, s: State) returns (events: seq<Event>)
    requires s.phase.Idle? && WithStatus(s.store, Init) == {}
    ensures Play(cfg, BidLoop, s, events) == Some(s)
  {
    var block := Add64(s.head, INCLUSION_WINDOW);
    PlayStep(cfg, s, [], s, TickReadsHead);
    PlayStep(cfg, s, [] + [TickReadsHead], s.(phase := HeadRead(block)), TickScans([]));
    events := [] + [TickReadsHead] + [TickScans([])];
  }

  /**
   A whole tick, alone: from any state in which the bid loop rests there are steps, all of the bid
   loop, that end at rest. The store is the one the sequential tick leaves, the keypers know the
   prefixes in those of its messages that reached them, and nothing else has changed.
   */
  lemma TickAlone(cfg: Config, s: State, order: seq<Hash>, session: Session, reached: seq<bool>)
    returns (events: seq<Event>)
    requires s.phase.Idle? && IsOrderOf(order, WithStatus(s.store, Init)) && |reached| == |SessionReceived(session)|
    ensures var block := Add64(s.head, INCLUSION_WINDOW);
            var creation := CreationResult(DEFAULT_SLASH_AMOUNT, s.store, order, block);
            Play(cfg, BidLoop, s, events) ==
            Some(s.(store := ApplyAll(s.store, TickOps(DEFAULT_SLASH_AMOUNT, s.store, order, block, session)),
                    published := s.published + PrefixesIn(TickArriving(creation, session, reached))))
  {
    var block := Add64(s.head, INCLUSION_WINDOW);
    assert s.published + PrefixesIn([]) == s.published;
    if order == [] {
      NoneScanned(s.store, order);
      events := NothingAlone(cfg, s);
    } else {
      events := CreateAlone(cfg, s, order, block);
      var t := AfterCreate(s, order, block);
      if t.phase.Marking? {
        var settle := SettleAlone(cfg, t, session, reached);
        PlayOn(cfg, BidLoop, s, events, t, settle);
        events := events + settle;
        ApplyAllConcat(s.store, CreationOps(s.store, order, block),
                       SettleOps(t.phase.bid, t.phase.hashes, session));
      }
    }
  }

  lemma NoneScanned(m: Store, order: seq<Hash>)
    requires order == [] && IsOrderOf(order, WithStatus(m, Init))
    ensures WithStatus(m, Init) == {}
  {
    forall h ensures h !in WithStatus(m, Init) {
      assert h !in order;
    }
  }
}
