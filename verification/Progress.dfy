/** No actor is ever stuck: in every reachable state each has a step of its own. */
module Progress {
  import opened Types
  import opened Hex
  import opened StoreModel
  import opened Bids
  import opened Shutter
  import opened Protocol
  import opened Safety

  lemma {:induction false} SomeOrder<T(!new)>(elements: set<T>) returns (order: seq<T>)
    ensures IsOrderOf(order, elements)
    decreases |elements|
  {
    if elements == {} {
      order := [];
    } else {
      var x :| x in elements;
      var rest := SomeOrder(elements - {x});
      order := rest + [x];
    }
  }

  /** Once its transactions are blocked, the bid loop builds a bid or gives up. */
  lemma BlockingGoesOn(s: State) returns (e: Event)
    requires PhaseOk(s.store, s.phase) && s.phase.Blocking?
    ensures BidLoopEnabled(s, e)
  {
    var ph := s.phase;
    if ph.next < |ph.blocked| {
      e := TickBlocks(ph.blocked[ph.next]);
    } else if ph.keys == [] {
      e := TickGivesUp;
    } else {
      assert forall k :: k in ph.keys ==> k in s.store;
      e := TickBuilds(MakeBid(DEFAULT_SLASH_AMOUNT, ph.block, Transactions(s.store, ph.keys)), ph.hashes);
    }
  }

  lemma AnsweredGoesOn(s: State) returns (e: Event)
    requires PhaseOk(s.store, s.phase) && s.phase.Submitting?
    ensures BidLoopEnabled(s, e)
  {
    var ph := s.phase;
    if AtSelect(ph) {
      e := StreamExits(CtxDone);
    } else {
      var c := Last(ph.received);
      e := CommitmentMarks(HexToHash(c.txHashes[ph.next]), ToUint64(c.blockNumber));
    }
  }

  lemma ResettingGoesOn(s: State) returns (e: Event)
    requires PhaseOk(s.store, s.phase) && (s.phase.Undoing? || s.phase.Resetting?)
    ensures BidLoopEnabled(s, e)
  {
    var ph := s.phase;
    if ph.Undoing? {
      e := if ph.next < |ph.bid.txHashes| then TickUndoes(HexToHash(ph.bid.txHashes[ph.next])) else TickUndone;
    } else {
      e := if ph.next < |ph.hashes| then TickResets(ph.hashes[ph.next]) else TickEnds;
    }
  }

  /** The bid loop. */
  lemma BidLoopGoesOn(s: State) returns (e: Event)
    requires PhaseOk(s.store, s.phase)
    ensures BidLoopEnabled(s, e)
  {
    match s.phase {
      case Idle => e := TickReadsHead;
      case HeadRead(_) =>
        var order := SomeOrder(WithStatus(s.store, Init));
        e := TickScans(order);
      case Blocking(_, _, _, _, _) => e := BlockingGoesOn(s);
      case Marking(_, hashes, next) => e := if next < |hashes| then TickMarks(hashes[next]) else BidNotSent;
      case Submitting(_, _, _, _) => e := AnsweredGoesOn(s);
      case Undoing(_, _, _) => e := ResettingGoesOn(s);
      case Resetting(_, _) => e := ResettingGoesOn(s);
      case Publishing(_, received, next) => e := if next < |received| then TickPublishes(true) else TickEnds;
    }
  }

  /** A submission under way: once encrypted it stores or finds a duplicate, before that it can be encrypted. */
  lemma SubmissionGoesOn(cfg: Config, s: State, sub: nat, eon: uint64, prefix: Hash, sigma: Hash)
    requires sub in s.subs && SubmissionOk(cfg, s.subs[sub])
    ensures var pending := s.subs[sub];
            match pending
            case Encrypting(_, _) =>
              && SubmissionEnabled(cfg, s, SubmitFails(sub))
              && (ValidEon(cfg, eon) ==> SubmissionEnabled(cfg, s, SubmitEncrypts(sub, s.head, eon, prefix, sigma)))
            case Storing(h, tx) =>
              if h in s.store then SubmissionEnabled(cfg, s, SubmitFindsDuplicate(sub))
              else SubmissionEnabled(cfg, s, SubmitStores(sub, h, tx))
  {
  }

  /** A key handler that has found its record. */
  lemma HandlerGoesOn(s: State, handler: nat)
    requires HandlersOk(s) && handler in s.handlers
    ensures match s.handlers[handler]
            case Found(_, _) => HandlerEnabled(s, KeyIsWritten(handler))
            case Written(h) => h in s.store && HandlerEnabled(s, KeyMarks(handler, Target(s.store, h)))
  {
  }

  /** The verifier. */
  lemma VerifierGoesOn(s: State) returns (e: Event)
    requires VerifierOk(s)
    ensures VerifierEnabled(s, e)
  {
    var v := s.verifier;
    match v {
      case Resting => e := VerifierReadsHead(s.head);
      case HeadKnown(head) =>
        var order := SomeOrder(Verifiable(s.store, head));
        e := VerifierScans(order);
      case Checking(_, todo, next) => e := if next < |todo| then VerifierSkips else VerifierEnds;
      case Receipted(_, _, _) => e := ReceiptGoesOn(s);
    }
  }

  lemma ReceiptGoesOn(s: State) returns (e: Event)
    requires VerifierOk(s) && s.verifier.Receipted?
    ensures VerifierEnabled(s, e)
  {
    var v := s.verifier;
    assert v.todo[v.next] in s.store;
    e := VerifierFinalises(Target(s.store, v.todo[v.next]));
  }

  /** In every state of every run the bid loop, the verifier and each pending handler and submission can go on. */
  lemma NobodyIsStuck(cfg: Config, r: Run, n: nat)
    requires IsRun(cfg, r) && n < |r.states|
    ensures exists e :: BidLoopEnabled(r.states[n], e)
    ensures exists e :: VerifierEnabled(r.states[n], e)
    ensures forall k :: k in r.states[n].handlers ==> exists e :: HandlerEnabled(r.states[n], e) && e.handler == k
    ensures forall p :: p in r.states[n].subs ==> exists e :: SubmissionEnabled(cfg, r.states[n], e) && e.sub == p
  {
    var s := r.states[n];
    InvHolds(cfg, r, n);
    var e := BidLoopGoesOn(s);
    var f := VerifierGoesOn(s);
    forall k | k in s.handlers ensures exists e :: HandlerEnabled(s, e) && e.handler == k {
      HandlerGoesOn(s, k);
    }
    forall p | p in s.subs ensures exists e :: SubmissionEnabled(cfg, s, e) && e.sub == p {
      SubmissionGoesOn(cfg, s, p, 0, seq(32, _ => 0), seq(32, _ => 0));
    }
  }
}
