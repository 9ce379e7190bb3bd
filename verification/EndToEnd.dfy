/** From the submission to the answer of the REST endpoint, over whole runs. */
module EndToEnd {
  import opened Types
  import opened Hex
  import opened StoreModel
  import opened Bids
  import opened Shutter
  import opened Rest
  import opened Protocol
  import opened Safety
  import opened Lifecycle

  /** Keypers release the right key for the identity a handler finds. */
  ghost predicate RightKeyAt(cfg: Config, s: State, e: Event) {
    e.KeyArrives? && e.hash in s.store ==> e.key == RightKey(cfg, s.store[e.hash].tx)
  }

  ghost predicate IsRightKeyRun(cfg: Config, r: Run) {
    && IsRun(cfg, r) && DecryptsWhatItEncrypts(cfg.crypto)
    && forall i :: 0 <= i < |r.events| ==> RightKeyAt(cfg, r.states[i], r.events[i])
  }

  ghost predicate HasKey(cfg: Config, m: Store, h: Hash) {
    h in m && m[h].tx.decryptionKey != []
  }

  ghost predicate KeysFit(cfg: Config, m: Store) {
    forall h :: h in m ==> m[h].tx.decryptionKey == [] || m[h].tx.decryptionKey == RightKey(cfg, m[h].tx)
  }

  ghost predicate OpenedHaveKeys(cfg: Config, m: Store) {
    forall h :: h in m && m[h].status in {Decrypted, Finalised} ==> HasKey(cfg, m, h)
  }

  ghost predicate HandlerFits(cfg: Config, m: Store, handler: Handler) {
    match handler
    case Found(h, key) => h in m && key != [] && key == RightKey(cfg, m[h].tx)
    case Written(h) => HasKey(cfg, m, h)
  }

  ghost predicate HandlersFit(cfg: Config, s: State) {
    forall k :: k in s.handlers ==> HandlerFits(cfg, s.store, s.handlers[k])
  }

  ghost predicate ChecksHaveKeys(cfg: Config, s: State) {
    s.verifier.Checking? || s.verifier.Receipted? ==>
      forall i :: 0 <= i < |s.verifier.todo| ==> HasKey(cfg, s.store, s.verifier.todo[i])
  }

  ghost predicate KeyInv(cfg: Config, s: State) {
    KeysFit(cfg, s.store) && OpenedHaveKeys(cfg, s.store) && HandlersFit(cfg, s) && ChecksHaveKeys(cfg, s)
  }

  /** A write that keeps or completes the keys of a store. */
  ghost predicate KeepsKeys(cfg: Config, m: Store, op: Op) {
    && !op.Retry?
    && (op.Insert? ==> op.tx.decryptionKey == [])
    && (op.SetKey? && op.hash in m ==> op.key != [] && op.key == RightKey(cfg, m[op.hash].tx))
    && (op.SetStatus? && op.status in {Decrypted, Finalised} ==> HasKey(cfg, m, op.hash))
  }

  lemma SameRightKey(cfg: Config, m: Store, op: Op, h: Hash)
    requires h in m && !op.Retry?
    ensures h in Apply(m, op) && RightKey(cfg, Apply(m, op)[h].tx) == RightKey(cfg, m[h].tx)
  {
  }

  lemma KeepsKeysFit(cfg: Config, m: Store, op: Op)
    requires KeysFit(cfg, m) && KeepsKeys(cfg, m, op)
    ensures KeysFit(cfg, Apply(m, op))
    ensures forall h :: HasKey(cfg, m, h) ==> HasKey(cfg, Apply(m, op), h)
  {
    var n := Apply(m, op);
    forall h | h in n ensures n[h].tx.decryptionKey == [] || n[h].tx.decryptionKey == RightKey(cfg, n[h].tx) {
      if h in m {
        SameRightKey(cfg, m, op, h);
      }
    }
  }

  lemma KeepsOpened(cfg: Config, m: Store, op: Op)
    requires OpenedHaveKeys(cfg, m) && KeepsKeys(cfg, m, op)
    ensures OpenedHaveKeys(cfg, Apply(m, op))
  {
  }

  lemma HandlerKeepsKeys(cfg: Config, s: State, e: Event)
    requires KeysMatch(s.store) && HandlersFit(cfg, s) && HandlerEnabled(s, e)
    ensures KeepsKeys(cfg, s.store, Effect(s, e))
  {
  }

  lemma VerifierKeepsKeys(cfg: Config, s: State, e: Event)
    requires KeysMatch(s.store) && ChecksHaveKeys(cfg, s) && VerifierEnabled(s, e)
    ensures KeepsKeys(cfg, s.store, Effect(s, e))
  {
  }

  lemma SubmissionKeepsKeys(cfg: Config, s: State, e: Event)
    requires (forall p :: p in s.subs ==> SubmissionOk(cfg, s.subs[p])) && SubmissionEnabled(cfg, s, e)
    ensures KeepsKeys(cfg, s.store, Effect(s, e))
  {
  }

  lemma StepKeepsKeys(cfg: Config, s: State, e: Event)
    requires Inv(cfg, s) && KeyInv(cfg, s) && Enabled(cfg, s, e)
    ensures KeepsKeys(cfg, s.store, Effect(s, e))
  {
    WellMadeHash(cfg, s.store);
    if HandlerEnabled(s, e) {
      HandlerKeepsKeys(cfg, s, e);
    } else if VerifierEnabled(s, e) {
      VerifierKeepsKeys(cfg, s, e);
    } else if SubmissionEnabled(cfg, s, e) {
      SubmissionKeepsKeys(cfg, s, e);
    } else {
      BidLoopKeepsKeys(cfg, s, e);
    }
  }

  lemma BidLoopKeepsKeys(cfg: Config, s: State, e: Event)
    requires BidLoopEnabled(s, e) || e.HeadMoves?
    ensures KeepsKeys(cfg, s.store, Effect(s, e))
  {
  }

  lemma FitStays(cfg: Config, m: Store, op: Op, handler: Handler)
    requires HandlerFits(cfg, m, handler) && KeysFit(cfg, m) && KeepsKeys(cfg, m, op)
    ensures HandlerFits(cfg, Apply(m, op), handler)
  {
    SameRightKey(cfg, m, op, handler.hash);
    KeepsKeysFit(cfg, m, op);
  }

  lemma ArrivalFits(cfg: Config, s: State, e: Event)
    requires StoreOk(cfg, s.store) && HandlerEnabled(s, e) && e.KeyArrives? && RightKeyAt(cfg, s, e)
    requires DecryptsWhatItEncrypts(cfg.crypto)
    ensures HandlerFits(cfg, s.store, Found(e.hash, e.key))
  {
    RightKeyDecrypts(cfg, s.store[e.hash].tx, e.hash);
  }

  lemma WrittenFits(cfg: Config, m: Store, h: Hash, key: Bytes)
    requires HandlerFits(cfg, m, Found(h, key))
    ensures HandlerFits(cfg, Apply(m, SetKey(h, key)), Written(h))
  {
  }

  lemma NextHandlersFit(cfg: Config, s: State, e: Event, k: nat)
    requires StoreOk(cfg, s.store) && KeysFit(cfg, s.store) && HandlersFit(cfg, s) && HandlerEnabled(s, e)
    requires KeepsKeys(cfg, s.store, Effect(s, e)) && RightKeyAt(cfg, s, e) && DecryptsWhatItEncrypts(cfg.crypto)
    requires k in NextHandlers(s, e)
    ensures HandlerFits(cfg, Apply(s.store, Effect(s, e)), NextHandlers(s, e)[k])
  {
    if e.KeyArrives? && k == e.handler {
      ArrivalFits(cfg, s, e);
    } else if e.KeyIsWritten? && k == e.handler {
      WrittenFits(cfg, s.store, s.handlers[k].hash, s.handlers[k].key);
    } else {
      FitStays(cfg, s.store, Effect(s, e), s.handlers[k]);
    }
  }

  lemma HandlersStayFit(cfg: Config, s: State, e: Event)
    requires StoreOk(cfg, s.store) && KeyInv(cfg, s) && Enabled(cfg, s, e) && RightKeyAt(cfg, s, e)
    requires KeepsKeys(cfg, s.store, Effect(s, e)) && DecryptsWhatItEncrypts(cfg.crypto)
    ensures HandlersFit(cfg, After(cfg, s, e))
  {
    var t := After(cfg, s, e);
    forall k | k in t.handlers ensures HandlerFits(cfg, t.store, t.handlers[k]) {
      if HandlerEnabled(s, e) {
        NextHandlersFit(cfg, s, e, k);
      } else {
        FitStays(cfg, s.store, Effect(s, e), s.handlers[k]);
      }
    }
  }

  lemma ScannedIsKeyed(cfg: Config, s: State, e: Event, i: nat)
    requires OpenedHaveKeys(cfg, s.store) && VerifierEnabled(s, e) && e.VerifierScans? && i < |e.order|
    ensures HasKey(cfg, s.store, e.order[i])
  {
    assert e.order[i] in Verifiable(s.store, s.verifier.head);
  }

  lemma TodoIsKeyed(cfg: Config, s: State, e: Event, i: nat)
    requires OpenedHaveKeys(cfg, s.store) && ChecksHaveKeys(cfg, s) && VerifierEnabled(s, e)
    requires (NextVerifier(s, e).Checking? || NextVerifier(s, e).Receipted?) && i < |NextVerifier(s, e).todo|
    ensures HasKey(cfg, s.store, NextVerifier(s, e).todo[i])
  {
    TodoAfter(s, e);
    if e.VerifierScans? {
      ScannedIsKeyed(cfg, s, e, i);
    }
  }

  lemma ChecksStayKeyed(cfg: Config, s: State, e: Event)
    requires KeyInv(cfg, s) && Enabled(cfg, s, e) && KeepsKeys(cfg, s.store, Effect(s, e))
    ensures ChecksHaveKeys(cfg, After(cfg, s, e))
  {
    var t := After(cfg, s, e);
    KeepsKeysFit(cfg, s.store, Effect(s, e));
    if t.verifier.Checking? || t.verifier.Receipted? {
      forall i | 0 <= i < |t.verifier.todo| ensures HasKey(cfg, t.store, t.verifier.todo[i]) {
        if VerifierEnabled(s, e) {
          TodoIsKeyed(cfg, s, e, i);
        }
        assert HasKey(cfg, s.store, t.verifier.todo[i]);
      }
    }
  }

  lemma {:induction false} KeyInvHolds(cfg: Config, r: Run, n: nat)
    requires IsRightKeyRun(cfg, r) && n < |r.states|
    ensures KeyInv(cfg, r.states[n])
  {
    if n > 0 {
      var s, e := r.states[n - 1], r.events[n - 1];
      KeyInvHolds(cfg, r, n - 1);
      InvHolds(cfg, r, n - 1);
      assert StepAt(cfg, r, n - 1);
      StepKeepsKeys(cfg, s, e);
      KeepsKeysFit(cfg, s.store, Effect(s, e));
      KeepsOpened(cfg, s.store, Effect(s, e));
      HandlersStayFit(cfg, s, e);
      ChecksStayKeyed(cfg, s, e);
    }
  }

  /**
   Where keypers release right keys, the REST endpoint can serve every transaction whose status says
   it is decrypted or final, in every state of every run, and what it serves is the transaction that
   was submitted: it hashes to the requested hash and is the payload of the raw transaction on record.
   */
  lemma DecryptedIsServed(cfg: Config, r: Run, n: nat, h: Hash)
    requires IsRightKeyRun(cfg, r) && n < |r.states| && h != ZERO_HASH
    requires h in r.states[n].store && r.states[n].store[h].status in {Decrypted, Finalised}
    ensures var answer := Answer(cfg, r.states[n].store, true, ROUTE + Encode(h));
            && answer.Success? && Decode(answer.decryptedTx).Some?
            && cfg.crypto.keccak(Decode(answer.decryptedTx).value) == h
            && Decode(answer.decryptedTx) == Payload(r.states[n].store[h].tx.rawTx)
  {
    KeyInvHolds(cfg, r, n);
    InvHolds(cfg, r, n);
    AnswerIsTheSubmittedTransaction(cfg, r.states[n].store, h, Encode(h));
  }

  /**
   The other direction, for every request: whatever is served in such a run hashes to the hash the
   path asks for, however it spells it, and is the payload that was submitted.
   */
  lemma ServedIsSubmitted(cfg: Config, r: Run, n: nat, isGet: bool, urlPath: string)
    requires IsRightKeyRun(cfg, r) && n < |r.states|
    requires Answer(cfg, r.states[n].store, isGet, urlPath).Success?
    ensures var answer, h := Answer(cfg, r.states[n].store, isGet, urlPath), RequestedHash(urlPath);
            && h in r.states[n].store && Decode(answer.decryptedTx).Some?
            && cfg.crypto.keccak(Decode(answer.decryptedTx).value) == h
            && Decode(answer.decryptedTx) == Payload(r.states[n].store[h].tx.rawTx)
  {
    var m, h := r.states[n].store, RequestedHash(urlPath);
    KeyInvHolds(cfg, r, n);
    InvHolds(cfg, r, n);
    assert h in m && m[h].tx.decryptionKey == RightKey(cfg, m[h].tx);
    RightKeyDecrypts(cfg, m[h].tx, h);
    DecodeEncode(Payload(m[h].tx.rawTx).value);
  }

  /**
   In every honest run the prefixes of a bid lead keypers back to exactly its transactions, one by
   one, in every later state of the store: whatever others store meanwhile.
   */
  lemma BidIsRouted(cfg: Config, r: Run, n: nat, k: nat)
    requires IsHonestRun(cfg, r) && n <= k < |r.states|
    requires r.states[n].phase.Marking? || r.states[n].phase.Submitting? || r.states[n].phase.Undoing?
    ensures var ph, later := r.states[n].phase, r.states[k].store;
            var published := IdentityPrefixes(ph.bid.options);
            && published.Some? && |published.value| == |ph.hashes|
            && forall i :: 0 <= i < |ph.hashes| ==>
                 WithIdentity(later, IdentityOfPrefix(cfg, published.value[i])) == {ph.hashes[i]}
  {
    var ph, later := r.states[n].phase, r.states[k].store;
    InvHolds(cfg, r, n);
    RecordsAreForever(cfg, r, n, k);
    ExtendsKeepsBid(r.states[n].store, later, ph.bid, ph.hashes);
    HonestInvHolds(cfg, r, k);
    KeyRouting(cfg, later, ph.bid, ph.hashes);
  }

  /** The same in the terms of the code: the prefix bytes of option `i`, hashed with the address, find transaction `i`. */
  lemma BidIsRoutedOnFields(cfg: Config, a: Bytes, r: Run, n: nat, k: nat, i: nat) returns (p: Hash)
    requires IsHonestRun(cfg, r) && n <= k < |r.states| && HasAddress(cfg, a)
    requires r.states[n].phase.Marking? || r.states[n].phase.Submitting? || r.states[n].phase.Undoing?
    requires i < |r.states[n].phase.hashes|
    ensures var ph := r.states[n].phase;
            && i < |ph.bid.options| && ph.bid.options[i].Shutterised? && ph.bid.options[i].identityPrefix == Encode(p)
            && WithIdentity(r.states[k].store, Encode(cfg.crypto.keccak(p + a))) == {ph.hashes[i]}
  {
    var ph, later := r.states[n].phase, r.states[k].store;
    InvHolds(cfg, r, n);
    RecordsAreForever(cfg, r, n, k);
    ExtendsKeepsBid(r.states[n].store, later, ph.bid, ph.hashes);
    HonestInvHolds(cfg, r, k);
    p := KeyRoutingOnFields(cfg, a, later, ph.bid, ph.hashes, i);
  }
}
