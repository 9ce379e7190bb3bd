/**
 The other actors, alone: a submission, a key message and a verification that nobody interrupts are
 runs of the step system, and leave the store their methods leave.
 */
module Undisturbed {
  import opened Types
  import opened Hex
  import opened StoreModel
  import opened Shutter
  import opened KeyMessages
  import opened Protocol
  import opened Safety
  import opened Refinement
  import Rpc
  import V = Verifier

  lemma OnePlays(cfg: Config, actor: Actor, s: State, a: seq<Event>, t: State, e: Event, u: State)
    requires Play(cfg, actor, s, a) == Some(t) && Enabled(cfg, t, e) && IsBy(e, actor) && After(cfg, t, e) == u
    ensures Play(cfg, actor, s, a + [e]) == Some(u)
  {
    assert (a + [e])[..|a|] == a;
  }

  // ---------------------------------------------------------------- a submission

  lemma SubmissionStep(cfg: Config, s: State, e: Event)
    requires SubmissionEnabled(cfg, s, e)
    ensures Enabled(cfg, s, e)
    ensures After(cfg, s, e) == s.(store := Apply(s.store, Effect(s, e)), subs := NextSubs(cfg, s, e))
  {
  }

  lemma SubmissionPlays(cfg: Config, sub: nat, s: State, a: seq<Event>, t: State, e: Event, u: State)
    requires Play(cfg, Submitter(sub), s, a) == Some(t) && SubmissionEnabled(cfg, t, e) && e.sub == sub
    requires u.store == Apply(t.store, Effect(t, e)) && u.subs == NextSubs(cfg, t, e)
    requires u == t.(store := u.store, subs := u.subs)
    ensures Play(cfg, Submitter(sub), s, a + [e]) == Some(u)
  {
    SubmissionStep(cfg, t, e);
    OnePlays(cfg, Submitter(sub), s, a, t, e, u);
  }

  /** A submission that nobody interrupts leaves the store the RPC method leaves. */
  lemma SubmissionAlone(cfg: Config, s: State, sub: nat, rawTx: string, inputs: Inputs) returns (events: seq<Event>)
    requires sub !in s.subs && Payload(rawTx).Some? && (inputs.head.Some? ==> inputs.head.value == s.head)
    ensures var hash := cfg.crypto.keccak(Payload(rawTx).value);
            Play(cfg, Submitter(sub), s, events) == Some(s.(store := Rpc.SubmitStore(cfg, s.store, rawTx, hash, inputs)))
  {
    var hash := cfg.crypto.keccak(Payload(rawTx).value);
    events := [];
    if hash !in s.store {
      var t := s.(subs := s.subs[sub := Encrypting(rawTx, hash)]);
      SubmissionPlays(cfg, sub, s, [], s, SubmitLooksUp(sub, rawTx), t);
      events := [] + [SubmitLooksUp(sub, rawTx)];
      if InputsSuffice(cfg, inputs) {
        var last := EncryptAndStore(cfg, s, sub, rawTx, hash, inputs);
        PlayOn(cfg, Submitter(sub), s, events, t, last);
        events := events + last;
      } else {
        assert t.subs - {sub} == s.subs;
        SubmissionPlays(cfg, sub, s, events, t, SubmitFails(sub), s);
        events := events + [SubmitFails(sub)];
      }
    }
  }

  lemma EncryptAndStore(cfg: Config, s: State, sub: nat, rawTx: string, hash: Hash, inputs: Inputs)
    returns (events: seq<Event>)
    requires sub !in s.subs && hash !in s.store && Payload(rawTx).Some?
    requires InputsSuffice(cfg, inputs) && inputs.head.value == s.head
    ensures Play(cfg, Submitter(sub), s.(subs := s.subs[sub := Encrypting(rawTx, hash)]), events) ==
            Some(s.(store := Rpc.SubmitStore(cfg, s.store, rawTx, hash, inputs)))
  {
    var eon, prefix, sigma := inputs.eon.value, inputs.identityPrefix.value, inputs.sigma.value;
    var tx := EncryptedFor(cfg, rawTx, hash, s.head, eon, prefix, sigma);
    var t := s.(subs := s.subs[sub := Encrypting(rawTx, hash)]);
    var u := s.(subs := s.subs[sub := Storing(hash, tx)]);
    var encrypts, stores := SubmitEncrypts(sub, s.head, eon, prefix, sigma), SubmitStores(sub, hash, tx);
    assert t.subs[sub := Storing(hash, tx)] == u.subs;
    SubmissionPlays(cfg, sub, t, [], t, encrypts, u);
    assert u.subs - {sub} == s.subs;
    SubmissionPlays(cfg, sub, t, [] + [encrypts], u, stores, s.(store := s.store[hash := Record(tx, Init, 0, 0)]));
    events := [] + [encrypts] + [stores];
  }

  // ---------------------------------------------------------------- a key message

  lemma HandlerPlays(cfg: Config, handler: nat, s: State, a: seq<Event>, t: State, e: Event, u: State)
    requires Play(cfg, KeyHandler(handler), s, a) == Some(t) && HandlerEnabled(t, e) && e.handler == handler
    requires u.store == Apply(t.store, Effect(t, e)) && u.handlers == NextHandlers(t, e)
    requires u == t.(store := u.store, handlers := u.handlers)
    ensures Play(cfg, KeyHandler(handler), s, a + [e]) == Some(u)
  {
    HandlerStep(cfg, t, e);
    OnePlays(cfg, KeyHandler(handler), s, a, t, e, u);
  }

  /** The state in between: the key is written, the status is not. */
  function KeyWritten(s: State, handler: nat, h: Hash, key: Bytes): State {
    s.(store := Apply(s.store, SetKey(h, key)), handlers := s.handlers[handler := Written(h)])
  }

  lemma WriteAlone(cfg: Config, s: State, handler: nat, k: Key, h: Hash) returns (events: seq<Event>)
    requires handler !in s.handlers && IsPick(s.store, k, Some(h))
    ensures Play(cfg, KeyHandler(handler), s, events) == Some(KeyWritten(s, handler, h, k.key))
  {
    var t := s.(handlers := s.handlers[handler := Found(h, k.key)]);
    var arrives := KeyArrives(handler, k.identityPreimage, k.key, h);
    HandlerPlays(cfg, handler, s, [], s, arrives, t);
    assert t.handlers[handler := Written(h)] == s.handlers[handler := Written(h)];
    HandlerPlays(cfg, handler, s, [] + [arrives], t, KeyIsWritten(handler), KeyWritten(s, handler, h, k.key));
    events := [] + [arrives] + [KeyIsWritten(handler)];
  }

  lemma KeyAlone(cfg: Config, s: State, handler: nat, k: Key, h: Hash) returns (events: seq<Event>)
    requires handler !in s.handlers && IsPick(s.store, k, Some(h))
    ensures Play(cfg, KeyHandler(handler), s, events) ==
            Some(s.(store := Apply(Apply(s.store, SetKey(h, k.key)), SetStatus(Target(s.store, h), Decrypted))))
  {
    var t, marks := KeyWritten(s, handler, h, k.key), KeyMarks(handler, Target(s.store, h));
    events := WriteAlone(cfg, s, handler, k, h);
    assert t.handlers - {handler} == s.handlers;
    HandlerPlays(cfg, handler, s, events, t, marks, s.(store := Apply(t.store, SetStatus(Target(s.store, h), Decrypted))));
    events := events + [marks];
  }

  lemma HandledOneMore(m: Store, keys: seq<Key>, picks: seq<Option<Hash>>, i: nat, n: Store, after: Store)
    requires i < |keys| == |picks| && HandledSoFar(m, keys[..i], picks[..i], n)
    requires HandlesOne(n, keys[i], picks[i], after)
    ensures HandledSoFar(m, keys[..i + 1], picks[..i + 1], after)
  {
    HandlesNext(m, keys, i, picks[..i], n, picks[i], after);
    assert picks[..i + 1] == picks[..i] + [picks[i]];
  }

  lemma OneMoreKeyAlone(cfg: Config, s: State, handler: nat, before: seq<Event>, n: Store, k: Key, pick: Option<Hash>)
    returns (events: seq<Event>, after: Store)
    requires handler !in s.handlers && SameTransactions(s.store, n) && IsPick(s.store, k, pick)
    requires Play(cfg, KeyHandler(handler), s, before) == Some(s.(store := n))
    ensures HandlesOne(n, k, pick, after)
    ensures Play(cfg, KeyHandler(handler), s, events) == Some(s.(store := after))
  {
    var more;
    more, after := NextKeyAlone(cfg, s.(store := n), handler, s.store, k, pick);
    PlayOn(cfg, KeyHandler(handler), s, before, s.(store := n), more);
    events := before + more;
  }

  lemma {:induction false} FirstKeysAlone(cfg: Config, s: State, handler: nat, keys: seq<Key>,
                                          picks: seq<Option<Hash>>, i: nat)
    returns (events: seq<Event>, n: Store)
    requires handler !in s.handlers && IsPicks(s.store, keys, picks) && i <= |keys|
    ensures HandledSoFar(s.store, keys[..i], picks[..i], n)
    ensures Play(cfg, KeyHandler(handler), s, events) == Some(s.(store := n))
    decreases i
  {
    if i == 0 {
      events, n := [], s.store;
    } else {
      var before, m := FirstKeysAlone(cfg, s, handler, keys, picks, i - 1);
      events, n := OneMoreKeyAlone(cfg, s, handler, before, m, keys[i - 1], picks[i - 1]);
      HandledOneMore(s.store, keys, picks, i - 1, m, n);
    }
  }

  /** A key message that nobody interrupts leaves the store the handler leaves, whatever its lookups find. */
  lemma MessageAlone(cfg: Config, s: State, handler: nat, keys: seq<Key>, picks: seq<Option<Hash>>)
    returns (events: seq<Event>, n: Store)
    requires handler !in s.handlers && IsPicks(s.store, keys, picks)
    ensures HandledSoFar(s.store, keys, picks, n)
    ensures Play(cfg, KeyHandler(handler), s, events) == Some(s.(store := n))
  {
    events, n := FirstKeysAlone(cfg, s, handler, keys, picks, |keys|);
    assert keys[..|keys|] == keys && picks[..|keys|] == picks;
  }

  /** One key, where earlier keys have made the store of `s` out of `m`; the pick was made in `m`. */
  lemma NextKeyAlone(cfg: Config, s: State, handler: nat, m: Store, k: Key, pick: Option<Hash>)
    returns (events: seq<Event>, n: Store)
    requires handler !in s.handlers && SameTransactions(m, s.store) && IsPick(m, k, pick)
    ensures HandlesOne(s.store, k, pick, n)
    ensures Play(cfg, KeyHandler(handler), s, events) == Some(s.(store := n))
  {
    SameLookups(m, s.store, Encode(k.identityPreimage));
    match pick {
      case None => events, n := [], s.store;
      case Some(h) =>
        events := KeyAlone(cfg, s, handler, k, h);
        n := Apply(Apply(s.store, SetKey(h, k.key)), SetStatus(Target(s.store, h), Decrypted));
    }
  }

  // ---------------------------------------------------------------- a verification

  lemma VerifierPlays(cfg: Config, s: State, a: seq<Event>, t: State, e: Event, u: State)
    requires Play(cfg, Checker, s, a) == Some(t) && VerifierEnabled(t, e)
    requires u.store == Apply(t.store, Effect(t, e)) && u == t.(store := u.store, verifier := NextVerifier(t, e))
    ensures Play(cfg, Checker, s, a + [e]) == Some(u)
  {
    VerifierStep(cfg, t, e);
    OnePlays(cfg, Checker, s, a, t, e, u);
  }

  /** The verifier at position `i` of its scan, with the store `m`. */
  function CheckingAt(s: State, m: Store, head: uint64, todo: seq<Hash>, i: nat): State {
    s.(store := m, verifier := Checking(head, todo, i))
  }

  lemma FinaliseAlone(cfg: Config, s: State, h: Hash) returns (events: seq<Event>)
    requires s.verifier.Checking? && ChecksNow(s, h)
    ensures var v := s.verifier;
            Play(cfg, Checker, s, events) == Some(s.(store := Apply(s.store, SetStatus(h, Finalised)),
                                            verifier := Checking(v.head, v.todo, v.next + 1)))
  {
    var v := s.verifier;
    var t := s.(verifier := Receipted(v.head, v.todo, v.next));
    var n := Apply(s.store, SetStatus(h, Finalised));
    VerifierPlays(cfg, s, [], s, VerifierSeesReceipt(h), t);
    VerifierPlays(cfg, s, [] + [VerifierSeesReceipt(h)], t, VerifierFinalises(h),
                  t.(store := n, verifier := Checking(v.head, v.todo, v.next + 1)));
    events := [] + [VerifierSeesReceipt(h)] + [VerifierFinalises(h)];
  }

  lemma CheckAlone(cfg: Config, s: State, m: Store, head: uint64, todo: seq<Hash>, i: nat, found: bool)
    returns (events: seq<Event>, n: Store)
    requires i < |todo| && todo[i] in m && KeysMatch(m)
    ensures n == if found then Apply(m, SetStatus(todo[i], Finalised)) else m
    ensures Play(cfg, Checker, CheckingAt(s, m, head, todo, i), events) == Some(CheckingAt(s, n, head, todo, i + 1))
  {
    var t := CheckingAt(s, m, head, todo, i);
    if found {
      n := Apply(m, SetStatus(todo[i], Finalised));
      events := FinaliseAlone(cfg, t, todo[i]);
    } else {
      n := m;
      VerifierPlays(cfg, t, [], t, VerifierSkips, CheckingAt(s, m, head, todo, i + 1));
      events := [] + [VerifierSkips];
    }
  }

  lemma FinalisingKeeps(m: Store, hashes: seq<Hash>)
    requires KeysMatch(m)
    ensures var n := ApplyAll(m, StatusOps(hashes, Finalised)); KeysMatch(n) && n.Keys == m.Keys
  {
    StatusOpsEffect(m, hashes, Finalised);
  }

  lemma {:induction false} ChecksAlone(cfg: Config, s: State, head: uint64, todo: seq<Hash>,
                                       receipts: Hash -> V.Receipt, i: nat) returns (events: seq<Event>)
    requires i <= |todo| && KeysMatch(s.store) && Known(s.store, todo)
    ensures var n := ApplyAll(s.store, StatusOps(V.FoundOnChain(todo[..i], receipts), Finalised));
            Play(cfg, Checker, CheckingAt(s, s.store, head, todo, 0), events) == Some(CheckingAt(s, n, head, todo, i))
    decreases i
  {
    if i == 0 {
      events := [];
      assert todo[..0] == [];
    } else {
      events := ChecksAlone(cfg, s, head, todo, receipts, i - 1);
      var m := ApplyAll(s.store, StatusOps(V.FoundOnChain(todo[..i - 1], receipts), Finalised));
      FinalisingKeeps(s.store, V.FoundOnChain(todo[..i - 1], receipts));
      var more, n := CheckAlone(cfg, s, m, head, todo, i - 1, receipts(todo[i - 1]) == V.OnChain);
      PlayOn(cfg, Checker, CheckingAt(s, s.store, head, todo, 0), events, CheckingAt(s, m, head, todo, i - 1), more);
      events := events + more;
      V.FoundStep(s.store, todo, i - 1, receipts);
    }
  }

  lemma ScanPlays(cfg: Config, s: State, order: seq<Hash>)
    requires s.verifier.Resting? && IsOrderOf(order, Verifiable(s.store, s.head))
    ensures Play(cfg, Checker, s, [VerifierReadsHead(s.head), VerifierScans(order)]) ==
            Some(CheckingAt(s, s.store, s.head, order, 0))
  {
    var t := s.(verifier := HeadKnown(s.head));
    VerifierPlays(cfg, s, [], s, VerifierReadsHead(s.head), t);
    VerifierPlays(cfg, s, [] + [VerifierReadsHead(s.head)], t, VerifierScans(order),
                  CheckingAt(s, s.store, s.head, order, 0));
    assert [] + [VerifierReadsHead(s.head)] + [VerifierScans(order)] == [VerifierReadsHead(s.head), VerifierScans(order)];
  }

  /** A verification that nobody interrupts finalises exactly what its method does. */
  lemma VerificationAlone(cfg: Config, s: State, order: seq<Hash>, receipts: Hash -> V.Receipt)
    returns (events: seq<Event>, n: Store)
    requires s.verifier.Resting? && KeysMatch(s.store) && IsOrderOf(order, Verifiable(s.store, s.head))
    ensures Play(cfg, Checker, s, events) == Some(s.(store := n))
    ensures n == V.AfterVerification(s.store, s.head, receipts) && V.Finalises(s.store, s.head, receipts, n)
  {
    var scan := [VerifierReadsHead(s.head), VerifierScans(order)];
    ScanPlays(cfg, s, order);
    forall i | 0 <= i < |order| ensures order[i] in s.store {
      assert order[i] in order;
    }
    var checks := ChecksAlone(cfg, s, s.head, order, receipts, |order|);
    assert order[..|order|] == order;
    n := ApplyAll(s.store, StatusOps(V.FoundOnChain(order, receipts), Finalised));
    V.VerificationEffect(s.store, s.head, order, receipts);
    V.VerificationOnFields(s.store, s.head, receipts);
    PlayOn(cfg, Checker, s, scan, CheckingAt(s, s.store, s.head, order, 0), checks);
    VerifierPlays(cfg, s, scan + checks, CheckingAt(s, n, s.head, order, |order|), VerifierEnds, s.(store := n));
    events := scan + checks + [VerifierEnds];
  }
}
