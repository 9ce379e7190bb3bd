/**
 The whole sequencer as interleaved steps on one store. Each step is one critical section of the
 store, or one thing an actor or its surroundings does in between: submissions, the bid loop, key
 handlers and the verifier take turns in any order.
 */
module Protocol {
  import opened Types
  import opened Hex
  import opened StoreModel
  import opened Bids
  import opened Shutter

  /** An `eth_sendRawTransaction` call after its lookup and after its encryption. */
  datatype Submission = Encrypting(rawTx: string, hash: Hash) | Storing(hash: Hash, tx: Encrypted)

  /** Where the bid loop stands. `next` counts what the current loop has done. */
  datatype Phase =
    | Idle
    | HeadRead(block: uint64)
    | Blocking(block: uint64, blocked: seq<Hash>, next: nat, keys: seq<Hash>, hashes: seq<Hash>)
    | Marking(bid: Bid, hashes: seq<Hash>, next: nat)
    | Submitting(bid: Bid, hashes: seq<Hash>, received: seq<Commitment>, next: nat)
    | Undoing(bid: Bid, hashes: seq<Hash>, next: nat)
    | Resetting(hashes: seq<Hash>, next: nat)
    | Publishing(hashes: seq<Hash>, received: seq<Commitment>, next: nat)

  /** The phase with its loop counter moved to `k`; a phase without a loop stays as it is. */
  function WithNext(ph: Phase, k: nat): Phase {
    match ph
    case Idle => ph
    case HeadRead(_) => ph
    case Blocking(block, blocked, _, keys, hashes) => Blocking(block, blocked, k, keys, hashes)
    case Marking(bid, hashes, _) => Marking(bid, hashes, k)
    case Submitting(bid, hashes, received, _) => Submitting(bid, hashes, received, k)
    case Undoing(bid, hashes, _) => Undoing(bid, hashes, k)
    case Resetting(hashes, _) => Resetting(hashes, k)
    case Publishing(hashes, received, _) => Publishing(hashes, received, k)
  }

  /** A key handler that has found a record, and one that has written the key into it. */
  datatype Handler = Found(hash: Hash, key: Bytes) | Written(hash: Hash)

  datatype Verifier =
    | Resting
    | HeadKnown(head: uint64)
    | Checking(head: uint64, todo: seq<Hash>, next: nat)
    | Receipted(head: uint64, todo: seq<Hash>, next: nat)

  /** `published` are the prefixes that have reached the keypers. */
  datatype State = State(
    store: Store,
    head: uint64,
    subs: map<nat, Submission>,
    phase: Phase,
    handlers: map<nat, Handler>,
    verifier: Verifier,
    published: set<string>)

  datatype Event =
    | HeadMoves(newHead: uint64)
    | SubmitLooksUp(sub: nat, rawTx: string)
    | SubmitEncrypts(sub: nat, head: uint64, eon: uint64, prefix: Hash, sigma: Hash)
    | SubmitFails(sub: nat)
    | SubmitStores(sub: nat, hash: Hash, tx: Encrypted)
    | SubmitFindsDuplicate(sub: nat)
    | TickReadsHead
    | TickScans(order: seq<Hash>)
    | TickBlocks(hash: Hash)
    | TickGivesUp
    | TickBuilds(bid: Bid, hashes: seq<Hash>)
    | TickMarks(hash: Hash)
    | BidNotSent
    | CommitmentArrives(c: Commitment)
    | CommitmentMarks(hash: Hash, block: uint64)
    | StreamExits(exit: Exit)
    | TickUndoes(hash: Hash)
    | TickUndone
    | TickResets(hash: Hash)
    | TickPublishes(reached: bool)
    | TickEnds
    | KeyArrives(handler: nat, preimage: Bytes, key: Bytes, hash: Hash)
    | KeyIsWritten(handler: nat)
    | KeyMarks(handler: nat, hash: Hash)
    | VerifierReadsHead(head: uint64)
    | VerifierScans(order: seq<Hash>)
    | VerifierSkips
    | VerifierSeesReceipt(hash: Hash)
    | VerifierFinalises(hash: Hash)
    | VerifierEnds

  function Start(head: uint64): State {
    State(map[], head, map[], Idle, map[], Resting, {})
  }

  function Last(received: seq<Commitment>): Commitment
    requires received != []
  {
    received[|received| - 1]
  }

  /** The select is reached again once the last commitment has been worked off. */
  predicate AtSelect(ph: Phase) {
    ph.Submitting? && (ph.received == [] || ph.next >= |Last(ph.received).txHashes|)
  }

  ghost predicate SubmissionEnabled(cfg: Config, s: State, e: Event) {
    match e
    case SubmitLooksUp(p, rawTx) =>
      p !in s.subs && Payload(rawTx).Some? && cfg.crypto.keccak(Payload(rawTx).value) !in s.store
    case SubmitEncrypts(p, head, eon, _, _) =>
      && p in s.subs && s.subs[p].Encrypting? && Payload(s.subs[p].rawTx).Some? && head == s.head
      && ValidEon(cfg, eon)
    case SubmitFails(p) => p in s.subs && s.subs[p].Encrypting?
    case SubmitStores(p, h, tx) => p in s.subs && s.subs[p] == Storing(h, tx) && h !in s.store
    case SubmitFindsDuplicate(p) => p in s.subs && s.subs[p].Storing? && s.subs[p].hash in s.store
    case _ => false
  }

  ghost predicate BidLoopEnabled(s: State, e: Event) {
    var ph := s.phase;
    match e
    case TickReadsHead => ph.Idle?
    case TickScans(order) => ph.HeadRead? && IsOrderOf(order, WithStatus(s.store, Init))
    case TickBlocks(h) => ph.Blocking? && ph.next < |ph.blocked| && h == ph.blocked[ph.next]
    case TickGivesUp => ph.Blocking? && ph.next >= |ph.blocked| && ph.keys == []
    case TickBuilds(bid, hashes) =>
      && ph.Blocking? && ph.next >= |ph.blocked| && ph.keys != [] && hashes == ph.hashes
      && (forall k :: k in ph.keys ==> k in s.store)
      && bid == MakeBid(DEFAULT_SLASH_AMOUNT, ph.block, Transactions(s.store, ph.keys))
    case TickMarks(h) => ph.Marking? && ph.next < |ph.hashes| && h == ph.hashes[ph.next]
    case BidNotSent => ph.Marking? && ph.next >= |ph.hashes|
    case CommitmentArrives(_) => (ph.Marking? && ph.next >= |ph.hashes|) || AtSelect(ph)
    case CommitmentMarks(h, block) =>
      && ph.Submitting? && !AtSelect(ph)
      && h == HexToHash(Last(ph.received).txHashes[ph.next]) && block == ToUint64(Last(ph.received).blockNumber)
    case StreamExits(_) => (ph.Marking? && ph.next >= |ph.hashes|) || AtSelect(ph)
    case TickUndoes(h) =>
      ph.Undoing? && ph.next < |ph.bid.txHashes| && h == HexToHash(ph.bid.txHashes[ph.next])
    case TickUndone => ph.Undoing? && ph.next >= |ph.bid.txHashes|
    case TickResets(h) => ph.Resetting? && ph.next < |ph.hashes| && h == ph.hashes[ph.next]
    case TickPublishes(_) => ph.Publishing? && ph.next < |ph.received|
    case TickEnds =>
      || (ph.Resetting? && ph.next >= |ph.hashes|)
      || (ph.Publishing? && ph.next >= |ph.received|)
    case _ => false
  }

  predicate HandlerEnabled(s: State, e: Event) {
    match e
    case KeyArrives(k, preimage, _, h) =>
      k !in s.handlers && h in WithIdentity(s.store, Encode(preimage))
    case KeyIsWritten(k) => k in s.handlers && s.handlers[k].Found?
    case KeyMarks(k, h) =>
      && k in s.handlers && s.handlers[k].Written?
      && s.handlers[k].hash in s.store && h == Target(s.store, s.handlers[k].hash)
    case _ => false
  }

  /** The transaction the verifier's loop has come to, as it computes its hash. */
  ghost predicate ChecksNow(s: State, h: Hash) {
    var v := s.verifier;
    && (v.Checking? || v.Receipted?) && v.next < |v.todo|
    && v.todo[v.next] in s.store && h == Target(s.store, v.todo[v.next])
  }

  ghost predicate VerifierEnabled(s: State, e: Event) {
    var v := s.verifier;
    match e
    case VerifierReadsHead(head) => v.Resting? && head == s.head
    case VerifierScans(order) => v.HeadKnown? && IsOrderOf(order, Verifiable(s.store, v.head))
    case VerifierSkips => v.Checking? && v.next < |v.todo|
    case VerifierSeesReceipt(h) => v.Checking? && ChecksNow(s, h)
    case VerifierFinalises(h) => v.Receipted? && ChecksNow(s, h)
    case VerifierEnds => v.Checking? && v.next >= |v.todo|
    case _ => false
  }

  ghost predicate Enabled(cfg: Config, s: State, e: Event) {
    || e.HeadMoves?
    || SubmissionEnabled(cfg, s, e)
    || BidLoopEnabled(s, e)
    || HandlerEnabled(s, e)
    || VerifierEnabled(s, e)
  }

  /** The one store operation a step makes. */
  function Effect(s: State, e: Event): Op {
    match e
    case SubmitStores(_, h, tx) => Insert(h, tx)
    case TickBlocks(h) => SetStatus(h, Blocked)
    case TickMarks(h) => SetStatus(h, BidSubmitted)
    case CommitmentMarks(h, block) => Commit(h, block)
    case TickUndoes(h) => SetStatus(h, Init)
    case TickResets(h) => SetStatus(h, Init)
    case KeyIsWritten(k) =>
      if k in s.handlers && s.handlers[k].Found? then SetKey(s.handlers[k].hash, s.handlers[k].key) else NoOp
    case KeyMarks(_, h) => SetStatus(h, Decrypted)
    case VerifierFinalises(h) => SetStatus(h, Finalised)
    case _ => NoOp
  }

  function NextSubs(cfg: Config, s: State, e: Event): map<nat, Submission>
    requires SubmissionEnabled(cfg, s, e)
  {
    match e
    case SubmitLooksUp(p, rawTx) => s.subs[p := Encrypting(rawTx, cfg.crypto.keccak(Payload(rawTx).value))]
    case SubmitEncrypts(p, head, eon, prefix, sigma) =>
      var Encrypting(rawTx, hash) := s.subs[p];
      s.subs[p := Storing(hash, EncryptedFor(cfg, rawTx, hash, head, eon, prefix, sigma))]
    case SubmitFails(p) => s.subs - {p}
    case SubmitStores(p, _, _) => s.subs - {p}
    case SubmitFindsDuplicate(p) => s.subs - {p}
  }

  /** How a submission is left: undo first, reset, or publish. */
  function AfterExit(bid: Bid, hashes: seq<Hash>, received: seq<Commitment>, exit: Exit): Phase {
    if SessionError(Streamed(received, exit)) == Some(StreamBroken) then Undoing(bid, hashes, 0)
    else if Fails(Streamed(received, exit)) then Resetting(hashes, 0)
    else Publishing(hashes, received, 0)
  }

  function NextPhase(s: State, e: Event): Phase
    requires BidLoopEnabled(s, e)
  {
    var ph := s.phase;
    match e
    case TickReadsHead => HeadRead(Add64(s.head, INCLUSION_WINDOW))
    case TickScans(order) =>
      if order == [] then Idle else
      var keys, expired := EligibleKeys(s.store, order, ph.block), ExpiredKeys(s.store, order, ph.block);
      Blocking(ph.block, Targets(s.store, expired), 0, keys, Targets(s.store, keys))
    case TickBlocks(_) => WithNext(ph, ph.next + 1)
    case TickGivesUp => Idle
    case TickBuilds(bid, hashes) => Marking(bid, hashes, 0)
    case TickMarks(_) => WithNext(ph, ph.next + 1)
    case BidNotSent => Resetting(ph.hashes, 0)
    case CommitmentArrives(c) =>
      Submitting(ph.bid, ph.hashes, (if ph.Submitting? then ph.received else []) + [c], 0)
    case CommitmentMarks(_, _) => WithNext(ph, ph.next + 1)
    case StreamExits(exit) => AfterExit(ph.bid, ph.hashes, if ph.Submitting? then ph.received else [], exit)
    case TickUndoes(_) => WithNext(ph, ph.next + 1)
    case TickUndone => Resetting(ph.hashes, 0)
    case TickResets(_) => WithNext(ph, ph.next + 1)
    case TickPublishes(_) => WithNext(ph, ph.next + 1)
    case TickEnds => Idle
  }

  function NextHandlers(s: State, e: Event): map<nat, Handler>
    requires HandlerEnabled(s, e)
  {
    match e
    case KeyArrives(k, _, key, h) => s.handlers[k := Found(h, key)]
    case KeyIsWritten(k) => s.handlers[k := Written(s.handlers[k].hash)]
    case KeyMarks(k, _) => s.handlers - {k}
  }

  function NextVerifier(s: State, e: Event): Verifier
    requires VerifierEnabled(s, e)
  {
    var v := s.verifier;
    match e
    case VerifierReadsHead(head) => HeadKnown(head)
    case VerifierScans(order) => Checking(v.head, order, 0)
    case VerifierSkips => Checking(v.head, v.todo, v.next + 1)
    case VerifierSeesReceipt(_) => Receipted(v.head, v.todo, v.next)
    case VerifierFinalises(_) => Checking(v.head, v.todo, v.next + 1)
    case VerifierEnds => Resting
  }

  /** A message that reaches the keypers publishes the prefixes in it, if its options are usable. */
  function NextPublished(s: State, e: Event): set<string>
    requires e.TickPublishes? ==> BidLoopEnabled(s, e)
  {
    if !e.TickPublishes? || !e.reached then s.published else
    match IdentityPrefixes(s.phase.received[s.phase.next].options)
    case None => s.published
    case Some(prefixes) => s.published + (set x | x in prefixes)
  }

  ghost function After(cfg: Config, s: State, e: Event): State
    requires Enabled(cfg, s, e)
  {
    State(
      Apply(s.store, Effect(s, e)),
      if e.HeadMoves? then e.newHead else s.head,
      if SubmissionEnabled(cfg, s, e) then NextSubs(cfg, s, e) else s.subs,
      if BidLoopEnabled(s, e) then NextPhase(s, e) else s.phase,
      if HandlerEnabled(s, e) then NextHandlers(s, e) else s.handlers,
      if VerifierEnabled(s, e) then NextVerifier(s, e) else s.verifier,
      NextPublished(s, e))
  }

  datatype Run = Run(states: seq<State>, events: seq<Event>)

  /** Any finite interleaving of possible steps from a fresh start. */
  ghost predicate IsRun(cfg: Config, r: Run) {
    && |r.states| == |r.events| + 1
    && r.states[0] == Start(r.states[0].head)
    && forall i :: 0 <= i < |r.events| ==> StepAt(cfg, r, i)
  }

  ghost predicate StepAt(cfg: Config, r: Run, i: nat)
    requires i < |r.events| && |r.states| == |r.events| + 1
  {
    Enabled(cfg, r.states[i], r.events[i]) && r.states[i + 1] == After(cfg, r.states[i], r.events[i])
  }
}
