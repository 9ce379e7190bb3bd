/**
 Each of the eight status changes does happen in some honest run, so the lifecycle is exact. The runs
 use what the code can produce: a raw transaction of one byte, 32 bytes of prefix and of sigma, an
 eon whose key is valid, and a decryption key that is not empty.
 */
module Edges {
  import opened Types
  import opened Hex
  import opened StoreModel
  import opened Bids
  import opened Shutter
  import opened Protocol
  import opened Echoing
  import opened Lifecycle
  import opened Refinement

  /** Some honest run changes the status of some transaction from `a` to `b` in one step. */
  ghost predicate Occurs(cfg: Config, a: Status, b: Status) {
    exists r: Run, i: nat, h: Hash :: ChangesAt(cfg, r, i, h, a, b)
  }

  ghost predicate ChangesAt(cfg: Config, r: Run, i: nat, h: Hash, a: Status, b: Status) {
    && IsHonestRun(cfg, r) && i < |r.events|
    && h in r.states[i].store && r.states[i].store[h].status == a
    && h in r.states[i + 1].store && r.states[i + 1].store[h].status == b
  }

  ghost predicate Ends(cfg: Config, r: Run, s: State) {
    IsHonestRun(cfg, r) && r.states[|r.events|] == s
  }

  ghost predicate Reached(cfg: Config, s: State) {
    exists r: Run :: Ends(cfg, r, s)
  }

  lemma RunOn(cfg: Config, r: Run, s: State, e: Event)
    requires Ends(cfg, r, s) && Enabled(cfg, s, e) && Honest(cfg, s, e)
    ensures Ends(cfg, Run(r.states + [After(cfg, s, e)], r.events + [e]), After(cfg, s, e))
  {
    var q := Run(r.states + [After(cfg, s, e)], r.events + [e]);
    forall i | 0 <= i < |q.events| ensures HonestAt(cfg, q, i) && StepAt(cfg, q, i) {
      if i < |r.events| {
        assert StepAt(cfg, r, i) && HonestAt(cfg, r, i);
      }
    }
  }

  lemma ReachOn(cfg: Config, s: State, e: Event)
    requires Reached(cfg, s) && Enabled(cfg, s, e) && Honest(cfg, s, e)
    ensures Reached(cfg, After(cfg, s, e))
    ensures forall h :: h in s.store && h in After(cfg, s, e).store ==>
              Occurs(cfg, s.store[h].status, After(cfg, s, e).store[h].status)
  {
    var t := After(cfg, s, e);
    var r: Run :| Ends(cfg, r, s);
    RunOn(cfg, r, s, e);
    var q := Run(r.states + [t], r.events + [e]);
    forall h | h in s.store && h in t.store ensures Occurs(cfg, s.store[h].status, t.store[h].status) {
      assert ChangesAt(cfg, q, |r.events|, h, s.store[h].status, t.store[h].status);
    }
  }

  ghost predicate AllOccur(cfg: Config, m: Store, n: Store) {
    forall h :: h in m && h in n ==> Occurs(cfg, m[h].status, n[h].status)
  }

  lemma BidLoopOn(cfg: Config, s: State, e: Event, t: State)
    requires Reached(cfg, s) && BidLoopEnabled(s, e) && !e.TickPublishes?
    requires e.CommitmentArrives? ==> Echoes(e.c, s.phase.bid)
    requires t.store == Apply(s.store, Effect(s, e)) && t == s.(store := t.store, phase := NextPhase(s, e))
    ensures Reached(cfg, t) && AllOccur(cfg, s.store, t.store)
  {
    BidLoopStep(cfg, s, e);
    ReachOn(cfg, s, e);
  }

  lemma HandlerOn(cfg: Config, s: State, e: Event, t: State)
    requires Reached(cfg, s) && HandlerEnabled(s, e) && (e.KeyArrives? ==> Released(cfg, s, e.preimage))
    requires t.store == Apply(s.store, Effect(s, e)) && t.handlers == NextHandlers(s, e)
    requires t == s.(store := t.store, handlers := t.handlers)
    ensures Reached(cfg, t) && AllOccur(cfg, s.store, t.store)
  {
    HandlerStep(cfg, s, e);
    ReachOn(cfg, s, e);
  }

  lemma VerifierOn(cfg: Config, s: State, e: Event, t: State)
    requires Reached(cfg, s) && VerifierEnabled(s, e)
    requires t.store == Apply(s.store, Effect(s, e)) && t == s.(store := t.store, verifier := NextVerifier(s, e))
    ensures Reached(cfg, t) && AllOccur(cfg, s.store, t.store)
  {
    VerifierStep(cfg, s, e);
    ReachOn(cfg, s, e);
  }

  lemma HeadOn(cfg: Config, s: State, t: State)
    requires Reached(cfg, s) && t == s.(head := t.head)
    ensures Reached(cfg, t)
  {
    ReachOn(cfg, s, HeadMoves(t.head));
    assert After(cfg, s, HeadMoves(t.head)) == t;
  }

  lemma PublicationOn(cfg: Config, s: State, t: State)
    requires Reached(cfg, s) && BidLoopEnabled(s, TickPublishes(true))
    requires t.published == NextPublished(s, TickPublishes(true))
    requires t == s.(phase := NextPhase(s, TickPublishes(true)), published := t.published)
    ensures Reached(cfg, t)
  {
    var e := TickPublishes(true);
    ReachOn(cfg, s, e);
    assert After(cfg, s, e) == t;
  }

  // ---------------------------------------------------------------- one transaction

  /** One transaction, a bid for it at block 6 and a commitment to that bid. */
  datatype Scene = Scene(eon: uint64, hash: Hash, tx: Encrypted, bid: Bid, c: Commitment) {
    /** The store holds the one transaction; the chain is at block 5. */
    function Only(status: Status, block: uint64, phase: Phase): State {
      State(map[hash := Record(tx, status, block, 0)], 5, map[], phase, map[], Resting, {})
    }

    function WithKey(): Scene {
      this.(tx := tx.(decryptionKey := KEY))
    }

    /** The prefix is out, and the chain has reached the block of the bid. */
    function Published(status: Status, key: Bytes): State {
      State(map[hash := Record(tx.(decryptionKey := key), status, 6, 0)], 6, map[],
            Publishing([hash], [c], 1), map[], Resting, {tx.identityPrefix})
    }

    ghost predicate Fits(cfg: Config) {
      && tx.txHash == hash && tx.maxInclusionWindow == 35 && tx.decryptionKey == []
      && bid == MakeBid(DEFAULT_SLASH_AMOUNT, 6, [tx]) && Echoes(c, bid)
      && |c.txHashes| == 1 && HexToHash(c.txHashes[0]) == hash && ToUint64(c.blockNumber) == 6
      && IdentityPrefixes(c.options) == Some([tx.identityPrefix])
      && IdentityOfPrefix(cfg, tx.identityPrefix) == tx.identity == Encode(GetIdentity(cfg, Drawn()))
    }
  }

  const RAW := "0x00"

  /** What the random source gives, for the prefix as for sigma. */
  function Drawn(): Hash {
    seq(32, _ => 7)
  }

  const KEY: Bytes := [1]

  lemma RawPayload()
    ensures Payload(RAW) == Some([0])
  {
    var b: Bytes := [0];
    assert b[1..] == [] && Digit(0) == '0';
    assert RAW[2..] == Encode(b);
    DecodeEncode(b);
  }

  /** Encrypted at head 5, so its deadline is block 35. */
  function TheScene(cfg: Config, eon: uint64): Scene {
    RawPayload();
    var h := cfg.crypto.keccak([0]);
    var tx := EncryptedFor(cfg, RAW, h, 5, eon, Drawn(), Drawn());
    var bid := MakeBid(DEFAULT_SLASH_AMOUNT, 6, [tx]);
    Scene(eon, h, tx, bid, Commitment(bid.txHashes, bid.blockNumber, bid.options))
  }

  lemma FreshStart(cfg: Config)
    ensures Reached(cfg, Start(5))
  {
    assert Ends(cfg, Run([Start(5)], []), Start(5));
  }

  ghost predicate Moves(cfg: Config, s: State, e: Event, t: State) {
    Enabled(cfg, s, e) && Honest(cfg, s, e) && After(cfg, s, e) == t
  }

  /** Before the transaction is stored; the bid loop may have read a head already. */
  function Sent(sub: Submission, ph: Phase): State {
    Start(5).(subs := map[0 := sub], phase := ph)
  }

  lemma LookUpMoves(cfg: Config, sc: Scene, ph: Phase)
    requires sc.hash == cfg.crypto.keccak([0])
    ensures Moves(cfg, Start(5).(phase := ph), SubmitLooksUp(0, RAW), Sent(Encrypting(RAW, sc.hash), ph))
  {
    RawPayload();
  }

  function Encryption(eon: uint64): Event {
    SubmitEncrypts(0, 5, eon, Drawn(), Drawn())
  }

  lemma EncryptionMoves(cfg: Config, eon: uint64, ph: Phase)
    requires ValidEon(cfg, eon)
    ensures var sc := TheScene(cfg, eon);
            Moves(cfg, Sent(Encrypting(RAW, sc.hash), ph), Encryption(eon), Sent(Storing(sc.hash, sc.tx), ph))
  {
    RawPayload();
  }

  lemma StoringMoves(cfg: Config, sc: Scene, ph: Phase)
    ensures Moves(cfg, Sent(Storing(sc.hash, sc.tx), ph), SubmitStores(0, sc.hash, sc.tx), sc.Only(Init, 0, ph))
  {
    var s, e := Sent(Storing(sc.hash, sc.tx), ph), SubmitStores(0, sc.hash, sc.tx);
    assert s.subs - {0} == map[];
    assert Apply(s.store, Effect(s, e)) == sc.Only(Init, 0, Idle).store;
  }

  lemma ReachStored(cfg: Config, eon: uint64)
    requires ValidEon(cfg, eon)
    ensures Reached(cfg, TheScene(cfg, eon).Only(Init, 0, Idle))
  {
    var sc := TheScene(cfg, eon);
    FreshStart(cfg);
    LookUpMoves(cfg, sc, Idle);
    ReachOn(cfg, Start(5), SubmitLooksUp(0, RAW));
    EncryptionMoves(cfg, eon, Idle);
    ReachOn(cfg, Sent(Encrypting(RAW, sc.hash), Idle), Encryption(eon));
    StoringMoves(cfg, sc, Idle);
    ReachOn(cfg, Sent(Storing(sc.hash, sc.tx), Idle), SubmitStores(0, sc.hash, sc.tx));
  }

  lemma OnePrefix(options: seq<BidOption>, tx: Encrypted)
    requires options == [OptionFor(tx)] && TrimPrefix(tx.identityPrefix, "0x") == tx.identityPrefix
    ensures IdentityPrefixes(options) == Some([tx.identityPrefix])
  {
    assert options[0] == OptionFor(tx);
    assert IdentityPrefixes(options).value == [tx.identityPrefix];
  }

  lemma OneBid(tx: Encrypted)
    ensures var bid := MakeBid(DEFAULT_SLASH_AMOUNT, 6, [tx]);
            bid.txHashes == [Encode(tx.txHash)] && bid.options == [OptionFor(tx)] && bid.blockNumber == 6
  {
  }

  lemma TheSceneFits(cfg: Config, eon: uint64)
    ensures TheScene(cfg, eon).Fits(cfg)
  {
    RawPayload();
    AnswerFits(cfg, TheScene(cfg, eon));
  }

  lemma AnswerFits(cfg: Config, sc: Scene)
    requires sc.tx.txHash == sc.hash && sc.tx.maxInclusionWindow == 35 && sc.tx.decryptionKey == []
    requires sc.tx.identityPrefix == Encode(Drawn()) && sc.tx.identity == Encode(GetIdentity(cfg, Drawn()))
    requires sc.bid == MakeBid(DEFAULT_SLASH_AMOUNT, 6, [sc.tx])
    requires sc.c == Commitment(sc.bid.txHashes, sc.bid.blockNumber, sc.bid.options)
    ensures sc.Fits(cfg)
  {
    OneBid(sc.tx);
    HashRoundTrip(sc.hash);
    EncodedHasNoPrefix(Drawn());
    OnePrefix(sc.c.options, sc.tx);
    DecodeEncode(Drawn());
  }

  lemma ScanOfOne(sc: Scene, m: Store, block: uint64)
    requires m == sc.Only(Init, 0, Idle).store && sc.tx.maxInclusionWindow == 35
    ensures IsOrderOf([sc.hash], WithStatus(m, Init))
    ensures EligibleKeys(m, [sc.hash], block) == if block <= 35 then [sc.hash] else []
    ensures ExpiredKeys(m, [sc.hash], block) == if block <= 35 then [] else [sc.hash]
  {
    assert [sc.hash][..0] == [];
  }

  lemma ReachScanned(cfg: Config, sc: Scene)
    requires sc.tx.txHash == sc.hash && sc.tx.maxInclusionWindow == 35 && Reached(cfg, sc.Only(Init, 0, Idle))
    ensures Reached(cfg, sc.Only(Init, 0, Blocking(6, [], 0, [sc.hash], [sc.hash])))
  {
    var s, h := sc.Only(Init, 0, Idle), sc.hash;
    var t, u := sc.Only(Init, 0, HeadRead(6)), sc.Only(Init, 0, Blocking(6, [], 0, [h], [h]));
    BidLoopOn(cfg, s, TickReadsHead, t);
    ScanOfOne(sc, s.store, 6);
    BidLoopOn(cfg, t, TickScans([h]), u);
  }

  lemma ReachBuilt(cfg: Config, sc: Scene)
    requires sc.bid == MakeBid(DEFAULT_SLASH_AMOUNT, 6, [sc.tx])
    requires Reached(cfg, sc.Only(Init, 0, Blocking(6, [], 0, [sc.hash], [sc.hash])))
    ensures Reached(cfg, sc.Only(Init, 0, Marking(sc.bid, [sc.hash], 0)))
  {
    var s, t := sc.Only(Init, 0, Blocking(6, [], 0, [sc.hash], [sc.hash])), sc.Only(Init, 0, Marking(sc.bid, [sc.hash], 0));
    assert Transactions(s.store, [sc.hash]) == [sc.tx];
    BidLoopOn(cfg, s, TickBuilds(sc.bid, [sc.hash]), t);
  }

  lemma ReachMarked(cfg: Config, sc: Scene)
    requires Reached(cfg, sc.Only(Init, 0, Marking(sc.bid, [sc.hash], 0)))
    ensures Reached(cfg, sc.Only(BidSubmitted, 0, Marking(sc.bid, [sc.hash], 1))) && Occurs(cfg, Init, BidSubmitted)
  {
    var s, t := sc.Only(Init, 0, Marking(sc.bid, [sc.hash], 0)), sc.Only(BidSubmitted, 0, Marking(sc.bid, [sc.hash], 1));
    BidLoopOn(cfg, s, TickMarks(sc.hash), t);
    assert sc.hash in s.store;
  }

  lemma ResetComes(cfg: Config, sc: Scene, status: Status, block: uint64)
    requires Reached(cfg, sc.Only(status, block, Resetting([sc.hash], 0)))
    ensures Occurs(cfg, status, Init)
  {
    var s, t := sc.Only(status, block, Resetting([sc.hash], 0)), sc.Only(Init, block, Resetting([sc.hash], 1));
    BidLoopOn(cfg, s, TickResets(sc.hash), t);
    assert sc.hash in s.store;
  }

  lemma SubmittedFallsBack(cfg: Config, sc: Scene)
    requires Reached(cfg, sc.Only(BidSubmitted, 0, Marking(sc.bid, [sc.hash], 1)))
    ensures Occurs(cfg, BidSubmitted, Init)
  {
    var s, t := sc.Only(BidSubmitted, 0, Marking(sc.bid, [sc.hash], 1)), sc.Only(BidSubmitted, 0, Resetting([sc.hash], 0));
    BidLoopOn(cfg, s, BidNotSent, t);
    ResetComes(cfg, sc, BidSubmitted, 0);
  }

  lemma ReachAnswered(cfg: Config, sc: Scene)
    requires Echoes(sc.c, sc.bid) && Reached(cfg, sc.Only(BidSubmitted, 0, Marking(sc.bid, [sc.hash], 1)))
    ensures Reached(cfg, sc.Only(BidSubmitted, 0, Submitting(sc.bid, [sc.hash], [sc.c], 0)))
  {
    var s := sc.Only(BidSubmitted, 0, Marking(sc.bid, [sc.hash], 1));
    assert [] + [sc.c] == [sc.c];
    BidLoopOn(cfg, s, CommitmentArrives(sc.c), sc.Only(BidSubmitted, 0, Submitting(sc.bid, [sc.hash], [sc.c], 0)));
  }

  lemma ReachCommitted(cfg: Config, sc: Scene)
    requires |sc.c.txHashes| == 1 && HexToHash(sc.c.txHashes[0]) == sc.hash && ToUint64(sc.c.blockNumber) == 6
    requires Reached(cfg, sc.Only(BidSubmitted, 0, Submitting(sc.bid, [sc.hash], [sc.c], 0)))
    ensures Reached(cfg, sc.Only(Committed, 6, Submitting(sc.bid, [sc.hash], [sc.c], 1)))
    ensures Occurs(cfg, BidSubmitted, Committed)
  {
    var s := sc.Only(BidSubmitted, 0, Submitting(sc.bid, [sc.hash], [sc.c], 0));
    assert Last([sc.c]) == sc.c;
    BidLoopOn(cfg, s, CommitmentMarks(sc.hash, 6), sc.Only(Committed, 6, Submitting(sc.bid, [sc.hash], [sc.c], 1)));
    assert sc.hash in s.store;
  }

  lemma CommittedFallsBack(cfg: Config, sc: Scene)
    requires |sc.c.txHashes| == 1 && Reached(cfg, sc.Only(Committed, 6, Submitting(sc.bid, [sc.hash], [sc.c], 1)))
    ensures Occurs(cfg, Committed, Init)
  {
    var s := sc.Only(Committed, 6, Submitting(sc.bid, [sc.hash], [sc.c], 1));
    BidLoopOn(cfg, s, StreamExits(CtxDone), sc.Only(Committed, 6, Resetting([sc.hash], 0)));
    ResetComes(cfg, sc, Committed, 6);
  }

  lemma ReachPublishing(cfg: Config, sc: Scene)
    requires |sc.c.txHashes| == 1 && Reached(cfg, sc.Only(Committed, 6, Submitting(sc.bid, [sc.hash], [sc.c], 1)))
    ensures Reached(cfg, sc.Only(Committed, 6, Publishing([sc.hash], [sc.c], 0)))
  {
    var s := sc.Only(Committed, 6, Submitting(sc.bid, [sc.hash], [sc.c], 1));
    BidLoopOn(cfg, s, StreamExits(ChannelClosed), sc.Only(Committed, 6, Publishing([sc.hash], [sc.c], 0)));
  }

  lemma ReachPublished(cfg: Config, sc: Scene)
    requires IdentityPrefixes(sc.c.options) == Some([sc.tx.identityPrefix]) && sc.tx.decryptionKey == []
    requires Reached(cfg, sc.Only(Committed, 6, Publishing([sc.hash], [sc.c], 0)))
    ensures Reached(cfg, sc.Published(Committed, []))
  {
    var s := sc.Only(Committed, 6, Publishing([sc.hash], [sc.c], 0));
    var t := sc.Published(Committed, []).(head := 5);
    assert t.store == s.store;
    assert NextPublished(s, TickPublishes(true)) == {sc.tx.identityPrefix};
    PublicationOn(cfg, s, t);
    HeadOn(cfg, t, sc.Published(Committed, []));
  }

  lemma KeyArrivesAt(cfg: Config, sc: Scene, status: Status, key: Bytes)
    requires IdentityOfPrefix(cfg, sc.tx.identityPrefix) == sc.tx.identity == Encode(GetIdentity(cfg, Drawn()))
    requires Reached(cfg, sc.Published(status, key))
    ensures Reached(cfg, sc.Published(status, key).(handlers := map[0 := Found(sc.hash, KEY)]))
  {
    var s, preimage := sc.Published(status, key), GetIdentity(cfg, Drawn());
    assert Released(cfg, s, preimage);
    assert sc.hash in WithIdentity(s.store, Encode(preimage));
    HandlerOn(cfg, s, KeyArrives(0, preimage, KEY, sc.hash), s.(handlers := map[0 := Found(sc.hash, KEY)]));
  }

  lemma KeyIsTaken(cfg: Config, sc: Scene, status: Status, key: Bytes)
    requires Reached(cfg, sc.Published(status, key).(handlers := map[0 := Found(sc.hash, KEY)]))
    ensures Reached(cfg, sc.Published(status, KEY).(handlers := map[0 := Written(sc.hash)]))
  {
    var s := sc.Published(status, key).(handlers := map[0 := Found(sc.hash, KEY)]);
    HandlerOn(cfg, s, KeyIsWritten(0), sc.Published(status, KEY).(handlers := map[0 := Written(sc.hash)]));
  }

  lemma KeyIsMarked(cfg: Config, sc: Scene, status: Status)
    requires sc.tx.txHash == sc.hash
    requires Reached(cfg, sc.Published(status, KEY).(handlers := map[0 := Written(sc.hash)]))
    ensures Occurs(cfg, status, Decrypted) && Reached(cfg, sc.Published(Decrypted, KEY))
  {
    var s := sc.Published(status, KEY).(handlers := map[0 := Written(sc.hash)]);
    HandlerOn(cfg, s, KeyMarks(0, sc.hash), sc.Published(Decrypted, KEY));
    assert sc.hash in s.store;
  }

  /** A key for the transaction arrives, once it is published, and is marked. */
  lemma KeyComes(cfg: Config, sc: Scene, status: Status, key: Bytes)
    requires sc.Fits(cfg) && Reached(cfg, sc.Published(status, key))
    ensures Occurs(cfg, status, Decrypted) && Reached(cfg, sc.Published(Decrypted, KEY))
  {
    KeyArrivesAt(cfg, sc, status, key);
    KeyIsTaken(cfg, sc, status, key);
    KeyIsMarked(cfg, sc, status);
  }

  lemma ReachReceipted(cfg: Config, sc: Scene)
    requires sc.tx.txHash == sc.hash && Reached(cfg, sc.Published(Decrypted, KEY))
    ensures Reached(cfg, sc.Published(Decrypted, KEY).(verifier := Receipted(6, [sc.hash], 0)))
  {
    var s := sc.Published(Decrypted, KEY);
    var t, u := s.(verifier := HeadKnown(6)), s.(verifier := Checking(6, [sc.hash], 0));
    VerifierOn(cfg, s, VerifierReadsHead(6), t);
    assert IsOrderOf([sc.hash], Verifiable(s.store, 6));
    VerifierOn(cfg, t, VerifierScans([sc.hash]), u);
    VerifierOn(cfg, u, VerifierSeesReceipt(sc.hash), s.(verifier := Receipted(6, [sc.hash], 0)));
  }

  lemma ReachFinalised(cfg: Config, sc: Scene)
    requires sc.tx.txHash == sc.hash
    requires Reached(cfg, sc.Published(Decrypted, KEY).(verifier := Receipted(6, [sc.hash], 0)))
    ensures Occurs(cfg, Decrypted, Finalised) && Reached(cfg, sc.Published(Finalised, KEY))
  {
    var s := sc.Published(Decrypted, KEY).(verifier := Receipted(6, [sc.hash], 0));
    var t := sc.Published(Finalised, KEY).(verifier := Checking(6, [sc.hash], 1));
    VerifierOn(cfg, s, VerifierFinalises(sc.hash), t);
    assert sc.hash in s.store;
    VerifierOn(cfg, t, VerifierEnds, sc.Published(Finalised, KEY));
  }

  /** The head passes the deadline before the first scan. */
  lemma ReachLate(cfg: Config, sc: Scene)
    requires Reached(cfg, sc.Only(Init, 0, Idle))
    ensures Reached(cfg, sc.Only(Init, 0, HeadRead(41)).(head := 40))
  {
    var s, t := sc.Only(Init, 0, Idle), sc.Only(Init, 0, Idle).(head := 40);
    HeadOn(cfg, s, t);
    BidLoopOn(cfg, t, TickReadsHead, sc.Only(Init, 0, HeadRead(41)).(head := 40));
  }

  lemma ReachExpired(cfg: Config, sc: Scene)
    requires sc.tx.txHash == sc.hash && sc.tx.maxInclusionWindow == 35
    requires Reached(cfg, sc.Only(Init, 0, HeadRead(41)).(head := 40))
    ensures Reached(cfg, sc.Only(Init, 0, Blocking(41, [sc.hash], 0, [], [])).(head := 40))
  {
    var s := sc.Only(Init, 0, HeadRead(41)).(head := 40);
    ScanOfOne(sc, s.store, 41);
    BidLoopOn(cfg, s, TickScans([sc.hash]), s.(phase := Blocking(41, [sc.hash], 0, [], [])));
  }

  lemma ExpiryComes(cfg: Config, sc: Scene)
    requires Reached(cfg, sc.Only(Init, 0, Blocking(41, [sc.hash], 0, [], [])).(head := 40))
    ensures Occurs(cfg, Init, Blocked)
  {
    var s := sc.Only(Init, 0, Blocking(41, [sc.hash], 0, [], [])).(head := 40);
    var t := sc.Only(Blocked, 0, Blocking(41, [sc.hash], 1, [], [])).(head := 40);
    BidLoopOn(cfg, s, TickBlocks(sc.hash), t);
    assert sc.hash in s.store;
  }

  lemma FromInit(cfg: Config, sc: Scene)
    requires sc.Fits(cfg) && Reached(cfg, sc.Only(Init, 0, Idle))
    ensures Occurs(cfg, Init, BidSubmitted) && Occurs(cfg, Init, Blocked)
    ensures Reached(cfg, sc.Only(BidSubmitted, 0, Marking(sc.bid, [sc.hash], 1)))
  {
    ReachScanned(cfg, sc);
    ReachBuilt(cfg, sc);
    ReachMarked(cfg, sc);
    ReachLate(cfg, sc);
    ReachExpired(cfg, sc);
    ExpiryComes(cfg, sc);
  }

  lemma FromSubmitted(cfg: Config, sc: Scene)
    requires sc.Fits(cfg) && Reached(cfg, sc.Only(BidSubmitted, 0, Marking(sc.bid, [sc.hash], 1)))
    ensures Occurs(cfg, BidSubmitted, Init) && Occurs(cfg, BidSubmitted, Committed) && Occurs(cfg, Committed, Init)
    ensures Reached(cfg, sc.Published(Committed, []))
  {
    SubmittedFallsBack(cfg, sc);
    ReachAnswered(cfg, sc);
    ReachCommitted(cfg, sc);
    CommittedFallsBack(cfg, sc);
    ReachPublishing(cfg, sc);
    ReachPublished(cfg, sc);
  }

  lemma FromPublished(cfg: Config, sc: Scene)
    requires sc.Fits(cfg) && Reached(cfg, sc.Published(Committed, []))
    ensures Occurs(cfg, Committed, Decrypted) && Occurs(cfg, Decrypted, Finalised) && Occurs(cfg, Finalised, Decrypted)
  {
    KeyComes(cfg, sc, Committed, []);
    ReachReceipted(cfg, sc);
    ReachFinalised(cfg, sc);
    KeyComes(cfg, sc, Finalised, KEY);
  }

  lemma EveryEdgeOccurs(cfg: Config, eon: uint64)
    requires ValidEon(cfg, eon)
    ensures Occurs(cfg, Init, BidSubmitted) && Occurs(cfg, Init, Blocked)
    ensures Occurs(cfg, BidSubmitted, Committed) && Occurs(cfg, BidSubmitted, Init)
    ensures Occurs(cfg, Committed, Decrypted) && Occurs(cfg, Committed, Init)
    ensures Occurs(cfg, Decrypted, Finalised) && Occurs(cfg, Finalised, Decrypted)
  {
    var sc := TheScene(cfg, eon);
    TheSceneFits(cfg, eon);
    ReachStored(cfg, eon);
    FromInit(cfg, sc);
    FromSubmitted(cfg, sc);
    FromPublished(cfg, sc);
  }

  ghost predicate EonKeyExists(cfg: Config) {
    exists eon :: ValidEon(cfg, eon)
  }

  ghost predicate NothingStored(s: State) {
    s.store == map[] && forall p :: p in s.subs ==> s.subs[p].Encrypting?
  }

  lemma StepStoresNothing(cfg: Config, s: State, e: Event)
    requires !EonKeyExists(cfg) && Enabled(cfg, s, e) && NothingStored(s)
    ensures NothingStored(After(cfg, s, e))
  {
    if e.SubmitEncrypts? {
      assert false;
    }
  }

  /** Without a valid eon key nothing can be encrypted, so nothing is ever stored. */
  lemma {:induction false} NothingWithoutEonKey(cfg: Config, r: Run, n: nat)
    requires IsRun(cfg, r) && n < |r.states| && !EonKeyExists(cfg)
    ensures NothingStored(r.states[n])
  {
    if n > 0 {
      NothingWithoutEonKey(cfg, r, n - 1);
      assert StepAt(cfg, r, n - 1);
      StepStoresNothing(cfg, r.states[n - 1], r.events[n - 1]);
    }
  }

  lemma EdgeOccurs(cfg: Config, a: Status, b: Status)
    requires EonKeyExists(cfg) && Edge(a, b) && a != b
    ensures Occurs(cfg, a, b)
  {
    var eon :| ValidEon(cfg, eon);
    EveryEdgeOccurs(cfg, eon);
  }

  /**
   The lifecycle is exact: where anything can be encrypted at all, a change of status occurs in some
   honest run if and only if it is an edge.
   */
  lemma EdgesAreExactlyWhatOccurs(cfg: Config, a: Status, b: Status)
    requires a != b
    ensures Occurs(cfg, a, b) <==> Edge(a, b) && EonKeyExists(cfg)
  {
    if Occurs(cfg, a, b) {
      OnlyEdgesOccur(cfg, a, b);
    } else if Edge(a, b) && EonKeyExists(cfg) {
      EdgeOccurs(cfg, a, b);
    }
  }

  lemma OnlyEdgesOccur(cfg: Config, a: Status, b: Status)
    requires Occurs(cfg, a, b)
    ensures Edge(a, b) && EonKeyExists(cfg)
  {
    var r: Run, i: nat, h: Hash :| ChangesAt(cfg, r, i, h, a, b);
    LifecycleHolds(cfg, r, i, h);
    if !EonKeyExists(cfg) {
      NothingWithoutEonKey(cfg, r, i);
      assert false;
    }
  }

  // ---------------------------------------------------------------- without honesty

  ghost predicate NoCommitment(r: Run) {
    forall i :: 0 <= i < |r.events| ==> !r.events[i].CommitmentMarks?
  }

  /** Some run, honest or not, ends in the state without having marked any commitment. */
  ghost predicate Uncommitted(cfg: Config, s: State) {
    exists r: Run :: IsRun(cfg, r) && NoCommitment(r) && r.states[|r.events|] == s
  }

  lemma UncommittedOn(cfg: Config, s: State, e: Event)
    requires Uncommitted(cfg, s) && Enabled(cfg, s, e) && !e.CommitmentMarks?
    ensures Uncommitted(cfg, After(cfg, s, e))
  {
    var r: Run :| IsRun(cfg, r) && NoCommitment(r) && r.states[|r.events|] == s;
    var q := Run(r.states + [After(cfg, s, e)], r.events + [e]);
    forall i | 0 <= i < |q.events| ensures StepAt(cfg, q, i) {
      if i < |r.events| {
        assert StepAt(cfg, r, i);
      }
    }
    assert IsRun(cfg, q) && NoCommitment(q) && q.states[|q.events|] == After(cfg, s, e);
  }

  lemma UncommittedHandler(cfg: Config, s: State, e: Event, t: State)
    requires Uncommitted(cfg, s) && HandlerEnabled(s, e)
    requires t.store == Apply(s.store, Effect(s, e)) && t.handlers == NextHandlers(s, e)
    requires t == s.(store := t.store, handlers := t.handlers)
    ensures Uncommitted(cfg, t)
  {
    HandlerStep(cfg, s, e);
    UncommittedOn(cfg, s, e);
  }

  lemma UncommittedMove(cfg: Config, s: State, e: Event, t: State)
    requires Uncommitted(cfg, s) && Moves(cfg, s, e, t) && !e.CommitmentMarks?
    ensures Uncommitted(cfg, t)
  {
    UncommittedOn(cfg, s, e);
  }

  lemma UncommittedStored(cfg: Config, eon: uint64)
    requires ValidEon(cfg, eon)
    ensures Uncommitted(cfg, TheScene(cfg, eon).Only(Init, 0, Idle))
  {
    var sc := TheScene(cfg, eon);
    assert IsRun(cfg, Run([Start(5)], [])) && NoCommitment(Run([Start(5)], []));
    assert Uncommitted(cfg, Start(5));
    LookUpMoves(cfg, sc, Idle);
    UncommittedMove(cfg, Start(5), SubmitLooksUp(0, RAW), Sent(Encrypting(RAW, sc.hash), Idle));
    EncryptionMoves(cfg, eon, Idle);
    UncommittedMove(cfg, Sent(Encrypting(RAW, sc.hash), Idle), Encryption(eon), Sent(Storing(sc.hash, sc.tx), Idle));
    StoringMoves(cfg, sc, Idle);
    UncommittedMove(cfg, Sent(Storing(sc.hash, sc.tx), Idle), SubmitStores(0, sc.hash, sc.tx), sc.Only(Init, 0, Idle));
  }

  /** A key for a transaction that was never bid. */
  lemma EarlyKey(cfg: Config, sc: Scene)
    requires sc.tx.txHash == sc.hash && sc.tx.identity == Encode(GetIdentity(cfg, Drawn()))
    requires Uncommitted(cfg, sc.Only(Init, 0, Idle))
    ensures Uncommitted(cfg, sc.WithKey().Only(Decrypted, 0, Idle))
    ensures sc.hash in WithStatus(sc.WithKey().Only(Decrypted, 0, Idle).store, Decrypted)
  {
    var h, s, preimage := sc.hash, sc.Only(Init, 0, Idle), GetIdentity(cfg, Drawn());
    var t := s.(handlers := map[0 := Found(h, KEY)]);
    var u := sc.WithKey().Only(Init, 0, Idle).(handlers := map[0 := Written(h)]);
    assert h in WithIdentity(s.store, Encode(preimage));
    UncommittedHandler(cfg, s, KeyArrives(0, preimage, KEY, h), t);
    UncommittedHandler(cfg, t, KeyIsWritten(0), u);
    UncommittedHandler(cfg, u, KeyMarks(0, h), sc.WithKey().Only(Decrypted, 0, Idle));
  }

  /**
   A key that arrives too early makes a transaction `Decrypted` that nobody ever committed; it can
   happen wherever anything can be encrypted.
   */
  lemma DecryptedNeedNotBeCommitted(cfg: Config)
    ensures (exists s: State :: Uncommitted(cfg, s) && WithStatus(s.store, Decrypted) != {}) <==> EonKeyExists(cfg)
  {
    if eon :| ValidEon(cfg, eon) {
      var sc := TheScene(cfg, eon);
      TheSceneFits(cfg, eon);
      UncommittedStored(cfg, eon);
      EarlyKey(cfg, sc);
    } else {
      forall s: State | Uncommitted(cfg, s) ensures WithStatus(s.store, Decrypted) == {} {
        var r: Run :| IsRun(cfg, r) && NoCommitment(r) && r.states[|r.events|] == s;
        NothingWithoutEonKey(cfg, r, |r.events|);
      }
    }
  }
}
