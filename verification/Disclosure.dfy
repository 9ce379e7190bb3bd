/** What a client can be served, and when: keys on record, and whose they are. */
module Disclosure {
  import opened Types
  import opened Hex
  import opened StoreModel
  import opened Shutter
  import opened Rest
  import opened Protocol
  import opened Safety
  import opened Lifecycle
  import opened History

  /** A success speaks of the hash in the path, and its record has a key. */
  lemma SuccessNeedsKey(cfg: Config, m: Store, isGet: bool, urlPath: string)
    requires Answer(cfg, m, isGet, urlPath).Success?
    ensures RequestedHash(urlPath) in m && m[RequestedHash(urlPath)].tx.decryptionKey != []
  {
  }

  // ---------------------------------------------------------------- any surroundings

  ghost predicate KeysWereDelivered(m: Store, log: seq<Event>) {
    forall h :: h in m && m[h].tx.decryptionKey != [] ==> KeyDelivered(log, m, h)
  }

  lemma KeyAfter(m: Store, op: Op, h: Hash)
    requires h in Apply(m, op) && !op.Retry?
    ensures Apply(m, op)[h].tx.decryptionKey ==
            if h !in m then (if op.Insert? then op.tx.decryptionKey else [])
            else if op.SetKey? && op.hash == h then op.key else m[h].tx.decryptionKey
    ensures h !in m ==> op.Insert?
  {
  }

  lemma NewHasNoKey(cfg: Config, s: State, e: Event)
    requires Inv(cfg, s) && Enabled(cfg, s, e)
    ensures Effect(s, e).Insert? ==> Effect(s, e).tx.decryptionKey == []
  {
  }

  lemma WrittenByHandler(s: State, e: Event)
    requires Effect(s, e).SetKey?
    ensures e.KeyIsWritten? && e.handler in s.handlers && s.handlers[e.handler].hash == Effect(s, e).hash
  {
  }

  /** A key that is on record after a step was there before, or a handler of this record has written it. */
  lemma KeyComesFrom(s: State, e: Event, h: Hash)
    requires Effect(s, e).Insert? ==> Effect(s, e).tx.decryptionKey == []
    requires h in Apply(s.store, Effect(s, e)) && Apply(s.store, Effect(s, e))[h].tx.decryptionKey != []
    ensures h in s.store
    ensures s.store[h].tx.decryptionKey != [] || (exists k :: k in s.handlers && s.handlers[k].hash == h)
  {
    KeyAfter(s.store, Effect(s, e), h);
    if Effect(s, e).SetKey? {
      WrittenByHandler(s, e);
    }
  }

  lemma KeyIsDelivered(s: State, log: seq<Event>, h: Hash)
    requires Provenance(s, log) && KeysWereDelivered(s.store, log) && h in s.store
    requires s.store[h].tx.decryptionKey != [] || (exists k :: k in s.handlers && s.handlers[k].hash == h)
    ensures KeyDelivered(log, s.store, h)
  {
  }

  lemma StepKeepsDelivered(s: State, e: Event, log: seq<Event>, h: Hash)
    requires Effect(s, e).Insert? ==> Effect(s, e).tx.decryptionKey == []
    requires Provenance(s, log) && KeysWereDelivered(s.store, log)
    requires h in Apply(s.store, Effect(s, e)) && Apply(s.store, Effect(s, e))[h].tx.decryptionKey != []
    ensures KeyDelivered(log + [e], Apply(s.store, Effect(s, e)), h)
  {
    KeyComesFrom(s, e, h);
    KeyIsDelivered(s, log, h);
    DeliveredStays(log, s.store, e, Effect(s, e), h);
  }

  lemma {:induction false} KeysAreDelivered(cfg: Config, r: Run, n: nat)
    requires IsRun(cfg, r) && n < |r.states|
    ensures KeysWereDelivered(r.states[n].store, Log(r, n))
  {
    if n > 0 {
      var s, e := r.states[n - 1], r.events[n - 1];
      KeysAreDelivered(cfg, r, n - 1);
      InvHolds(cfg, r, n - 1);
      ProvenanceHolds(cfg, r, n - 1);
      assert StepAt(cfg, r, n - 1);
      LogGrows(r, n);
      NewHasNoKey(cfg, s, e);
      forall h | h in r.states[n].store && r.states[n].store[h].tx.decryptionKey != []
        ensures KeyDelivered(Log(r, n), r.states[n].store, h)
      {
        StepKeepsDelivered(s, e, Log(r, n - 1), h);
      }
    }
  }

  /** In every run, whatever is served was preceded by the delivery of a key for its identity. */
  lemma ServedHadKey(cfg: Config, r: Run, n: nat, isGet: bool, urlPath: string)
    requires IsRun(cfg, r) && n < |r.states|
    requires Answer(cfg, r.states[n].store, isGet, urlPath).Success?
    ensures KeyDelivered(Log(r, n), r.states[n].store, RequestedHash(urlPath))
  {
    SuccessNeedsKey(cfg, r.states[n].store, isGet, urlPath);
    KeysAreDelivered(cfg, r, n);
  }

  // ---------------------------------------------------------------- honest surroundings

  ghost predicate KeyedSettled(m: Store, ph: Phase) {
    forall h :: h in m && m[h].tx.decryptionKey != [] ==> Settled(m, ph, h)
  }

  lemma KeyedStaySettled(cfg: Config, s: State, e: Event, h: Hash)
    requires HonestInv(cfg, s) && KeyedSettled(s.store, s.phase) && Enabled(cfg, s, e)
    requires h in After(cfg, s, e).store && After(cfg, s, e).store[h].tx.decryptionKey != []
    ensures Settled(After(cfg, s, e).store, After(cfg, s, e).phase, h)
  {
    NewHasNoKey(cfg, s, e);
    KeyComesFrom(s, e, h);
    SettledStays(cfg, s, e, h);
  }

  lemma {:induction false} KeyedAreSettled(cfg: Config, r: Run, n: nat)
    requires IsHonestRun(cfg, r) && n < |r.states|
    ensures KeyedSettled(r.states[n].store, r.states[n].phase)
  {
    if n > 0 {
      KeyedAreSettled(cfg, r, n - 1);
      HonestInvHolds(cfg, r, n - 1);
      assert HonestAt(cfg, r, n - 1);
      forall h | h in r.states[n].store && r.states[n].store[h].tx.decryptionKey != []
        ensures Settled(r.states[n].store, r.states[n].phase, h)
      {
        KeyedStaySettled(cfg, r.states[n - 1], r.events[n - 1], h);
      }
    }
  }

  /**
   No transaction is disclosed before a bid with it has succeeded: in every honest run, whatever is
   served, for whatever request, was committed before, is out of the bid loop's reach, and so is
   never bid again.
   */
  lemma ServedOnlyOnceSettled(cfg: Config, r: Run, n: nat, isGet: bool, urlPath: string)
    requires IsHonestRun(cfg, r) && n < |r.states|
    requires Answer(cfg, r.states[n].store, isGet, urlPath).Success?
    ensures Settled(r.states[n].store, r.states[n].phase, RequestedHash(urlPath))
    ensures WasCommitted(Log(r, n), RequestedHash(urlPath))
    ensures forall j :: n <= j < |r.events| && r.events[j].TickBuilds? ==> RequestedHash(urlPath) !in r.events[j].hashes
  {
    var h := RequestedHash(urlPath);
    SuccessNeedsKey(cfg, r.states[n].store, isGet, urlPath);
    KeyedAreSettled(cfg, r, n);
    DecryptedWasCommitted(cfg, r, n, h);
    forall j | n <= j < |r.events| && r.events[j].TickBuilds? ensures h !in r.events[j].hashes {
      ClosedForever(cfg, r, n, j, h);
    }
  }

  // ---------------------------------------------------------------- where published prefixes lead

  /** The prefix came from a bid that succeeded, and leads to this one of its transactions. */
  ghost predicate LeadsTo(cfg: Config, r: Run, n: nat, x: string, h: Hash)
    requires n < |r.states|
  {
    && h in r.states[n].store && r.states[n].store[h].tx.identity == IdentityOfPrefix(cfg, x)
    && exists i: nat :: i <= n && Succeeded(r.states[i], h)
  }

  lemma {:induction false} PublishedLeads(cfg: Config, r: Run, n: nat, x: string) returns (h: Hash)
    requires IsHonestRun(cfg, r) && n < |r.states| && x in r.states[n].published
    ensures LeadsTo(cfg, r, n, x, h)
  {
    assert n > 0;
    var s, e := r.states[n - 1], r.events[n - 1];
    assert HonestAt(cfg, r, n - 1);
    if x in s.published {
      h := PublishedLeads(cfg, r, n - 1, x);
    } else {
      HonestInvHolds(cfg, r, n - 1);
      var i := PublishedBelongs(cfg, s, e, x);
      h := s.phase.hashes[i];
      assert Succeeded(s, h);
    }
    SameIdentities(s.store, Effect(s, e));
  }

  /**
   Key routing over whole runs: in every state of every honest run each prefix the keypers know
   leads, under every map iteration order, to exactly one transaction. It was in a bid that
   succeeded and is out of the bid loop's reach.
   */
  lemma PublishedIsRouted(cfg: Config, r: Run, n: nat, x: string) returns (h: Hash)
    requires IsHonestRun(cfg, r) && n < |r.states| && x in r.states[n].published
    ensures WithIdentity(r.states[n].store, IdentityOfPrefix(cfg, x)) == {h}
    ensures exists i: nat :: i <= n && Succeeded(r.states[i], h)
    ensures Settled(r.states[n].store, r.states[n].phase, h)
  {
    h := PublishedLeads(cfg, r, n, x);
    HonestInvHolds(cfg, r, n);
  }

  /** The same in the terms of the code: the prefix is the text of some bytes, which hash with the address. */
  lemma PublishedIsRoutedOnFields(cfg: Config, a: Bytes, r: Run, n: nat, x: string) returns (h: Hash, p: Hash)
    requires IsHonestRun(cfg, r) && n < |r.states| && x in r.states[n].published && HasAddress(cfg, a)
    ensures x == Encode(p)
    ensures WithIdentity(r.states[n].store, Encode(cfg.crypto.keccak(p + a))) == {h}
    ensures h in r.states[n].store && r.states[n].store[h].tx.identityPrefix == x
  {
    h, p := PublishedPrefix(cfg, a, r, n, x);
    HonestInvHolds(cfg, r, n);
  }

  lemma {:induction false} PublishedPrefix(cfg: Config, a: Bytes, r: Run, n: nat, x: string) returns (h: Hash, p: Hash)
    requires IsHonestRun(cfg, r) && n < |r.states| && x in r.states[n].published && HasAddress(cfg, a)
    ensures h in r.states[n].store && r.states[n].store[h].tx.identityPrefix == x == Encode(p)
    ensures r.states[n].store[h].tx.identity == Encode(cfg.crypto.keccak(p + a))
  {
    assert n > 0;
    var s, e := r.states[n - 1], r.events[n - 1];
    assert HonestAt(cfg, r, n - 1);
    if x in s.published {
      h, p := PublishedPrefix(cfg, a, r, n - 1, x);
    } else {
      HonestInvHolds(cfg, r, n - 1);
      var i := PublishedBelongs(cfg, s, e, x);
      h := s.phase.hashes[i];
      var sigma;
      p, sigma := WellMadeOnFields(cfg, a, s.store[h].tx, h);
    }
    SamePrefix(s.store, Effect(s, e), h);
  }

  lemma SamePrefix(m: Store, op: Op, h: Hash)
    requires h in m && !op.Retry?
    ensures h in Apply(m, op)
    ensures Apply(m, op)[h].tx.identityPrefix == m[h].tx.identityPrefix
    ensures Apply(m, op)[h].tx.identity == m[h].tx.identity
  {
  }
}
