/**
 Where distinct identities come from: if the random source repeats no prefix and Keccak does not
 collide on the preimages of one run, every identity drawn in that run is fresh.
 */
module Freshness {
  import opened Types
  import opened Hex
  import opened StoreModel
  import opened Shutter
  import opened Protocol
  import opened Safety
  import opened Echoing
  import opened Lifecycle

  /** Commitments echo and keys are released after publication; nothing is said of identities. */
  ghost predicate EchoesAndReleases(cfg: Config, s: State, e: Event) {
    match e
    case CommitmentArrives(_) => EchoesIfAny(s, e)
    case KeyArrives(_, preimage, _, _) => Released(cfg, s, preimage)
    case _ => true
  }

  ghost predicate IsEchoingAndReleasingRun(cfg: Config, r: Run) {
    IsRun(cfg, r) && forall i :: 0 <= i < |r.events| ==> EchoesAndReleases(cfg, r.states[i], r.events[i])
  }

  predicate Draws(r: Run, i: nat, prefix: Hash) {
    i < |r.events| && r.events[i].SubmitEncrypts? && r.events[i].prefix == prefix
  }

  ghost predicate DrawsDiffer(r: Run) {
    forall i, j, p, q :: Draws(r, i, p) && Draws(r, j, q) && i != j ==> p != q
  }

  /** Keccak is injective on the identity preimages of the run. */
  ghost predicate NoCollision(cfg: Config, r: Run) {
    forall i, j, p: Hash, q: Hash ::
      Draws(r, i, p) && Draws(r, j, q) ==> DoNotCollide(cfg, Preimage(cfg, p), Preimage(cfg, q))
  }

  predicate DoNotCollide(cfg: Config, x: Bytes, y: Bytes) {
    cfg.crypto.keccak(x) == cfg.crypto.keccak(y) ==> x == y
  }

  // ---------------------------------------------------------------- every prefix was drawn

  ghost predicate WasDrawn(r: Run, n: nat, x: string) {
    exists i: nat, p: Hash :: i < n && Draws(r, i, p) && x == Encode(p)
  }

  ghost predicate AllDrawn(r: Run, n: nat, s: State) {
    && (forall h :: h in s.store ==> WasDrawn(r, n, s.store[h].tx.identityPrefix))
    && (forall p :: p in s.subs && s.subs[p].Storing? ==> WasDrawn(r, n, s.subs[p].tx.identityPrefix))
    && (forall x :: x in s.published ==> WasDrawn(r, n, x))
  }

  lemma DrawnStays(r: Run, n: nat, x: string)
    requires WasDrawn(r, n, x)
    ensures WasDrawn(r, n + 1, x)
  {
    var i: nat, p: Hash :| i < n && Draws(r, i, p) && x == Encode(p);
  }

  lemma PrefixAfter(m: Store, op: Op, h: Hash)
    requires !op.Retry? && h in Apply(m, op)
    ensures if h in m then Apply(m, op)[h].tx.identityPrefix == m[h].tx.identityPrefix
            else op == Insert(h, Apply(m, op)[h].tx)
  {
  }

  lemma StoreStaysDrawn(cfg: Config, r: Run, n: nat, s: State, e: Event, h: Hash)
    requires AllDrawn(r, n, s) && Enabled(cfg, s, e) && h in Apply(s.store, Effect(s, e))
    ensures WasDrawn(r, n + 1, Apply(s.store, Effect(s, e))[h].tx.identityPrefix)
  {
    PrefixAfter(s.store, Effect(s, e), h);
    if h !in s.store {
      assert e.SubmitStores? && s.subs[e.sub] == Storing(h, e.tx);
    }
    DrawnStays(r, n, Apply(s.store, Effect(s, e))[h].tx.identityPrefix);
  }

  lemma SubmissionStaysDrawn(cfg: Config, r: Run, n: nat, s: State, e: Event, p: nat)
    requires AllDrawn(r, n, s) && SubmissionEnabled(cfg, s, e) && n < |r.events| && r.events[n] == e
    requires p in NextSubs(cfg, s, e) && NextSubs(cfg, s, e)[p].Storing?
    ensures WasDrawn(r, n + 1, NextSubs(cfg, s, e)[p].tx.identityPrefix)
  {
    if e.SubmitEncrypts? && p == e.sub {
      assert Draws(r, n, e.prefix);
    } else {
      DrawnStays(r, n, s.subs[p].tx.identityPrefix);
    }
  }

  lemma PublishedStaysDrawn(cfg: Config, r: Run, n: nat, s: State, e: Event, x: string)
    requires AllDrawn(r, n, s) && StoreOk(cfg, s.store) && Link(s.store, s.phase) && Enabled(cfg, s, e)
    requires x in NextPublished(s, e)
    ensures WasDrawn(r, n + 1, x)
  {
    if x !in s.published {
      var i := PublishedBelongs(cfg, s, e, x);
    }
    DrawnStays(r, n, x);
  }

  lemma StepStaysDrawn(cfg: Config, r: Run, n: nat, s: State, e: Event)
    requires AllDrawn(r, n, s) && StoreOk(cfg, s.store) && Link(s.store, s.phase) && Enabled(cfg, s, e)
    requires n < |r.events| && r.events[n] == e
    ensures AllDrawn(r, n + 1, After(cfg, s, e))
  {
    var t := After(cfg, s, e);
    forall h | h in t.store ensures WasDrawn(r, n + 1, t.store[h].tx.identityPrefix) {
      StoreStaysDrawn(cfg, r, n, s, e, h);
    }
    forall p | p in t.subs && t.subs[p].Storing? ensures WasDrawn(r, n + 1, t.subs[p].tx.identityPrefix) {
      if SubmissionEnabled(cfg, s, e) {
        SubmissionStaysDrawn(cfg, r, n, s, e, p);
      } else {
        DrawnStays(r, n, t.subs[p].tx.identityPrefix);
      }
    }
    forall x | x in t.published ensures WasDrawn(r, n + 1, x) {
      PublishedStaysDrawn(cfg, r, n, s, e, x);
    }
  }

  // ---------------------------------------------------------------- so every draw is fresh

  lemma OtherDrawOtherIdentity(cfg: Config, r: Run, n: nat, prefix: Hash, x: string)
    requires DrawsDiffer(r) && NoCollision(cfg, r) && Draws(r, n, prefix) && WasDrawn(r, n, x)
    ensures IdentityOfPrefix(cfg, x) != Encode(GetIdentity(cfg, prefix))
  {
    var i: nat, p: Hash :| i < n && Draws(r, i, p) && x == Encode(p);
    DecodeEncode(p);
    assert p != prefix && DoNotCollide(cfg, Preimage(cfg, p), Preimage(cfg, prefix));
    if GetIdentity(cfg, p) == GetIdentity(cfg, prefix) {
      IdentityCollision(cfg, p, prefix);
      assert false;
    }
    if Encode(GetIdentity(cfg, p)) == Encode(GetIdentity(cfg, prefix)) {
      EncodeInjective(GetIdentity(cfg, p), GetIdentity(cfg, prefix));
    }
  }

  lemma DrawIsFresh(cfg: Config, r: Run, n: nat, s: State, prefix: Hash)
    requires DrawsDiffer(r) && NoCollision(cfg, r) && Draws(r, n, prefix)
    requires Inv(cfg, s) && AllDrawn(r, n, s)
    ensures FreshIdentity(cfg, s, Encode(GetIdentity(cfg, prefix)))
  {
    var identity := Encode(GetIdentity(cfg, prefix));
    forall h | h in s.store ensures s.store[h].tx.identity != identity {
      PrefixLeadsToIdentity(cfg, s.store[h].tx, h);
      OtherDrawOtherIdentity(cfg, r, n, prefix, s.store[h].tx.identityPrefix);
    }
    forall p | p in s.subs && s.subs[p].Storing? ensures s.subs[p].tx.identity != identity {
      assert SubmissionOk(cfg, s.subs[p]);
      PrefixLeadsToIdentity(cfg, s.subs[p].tx, s.subs[p].hash);
      OtherDrawOtherIdentity(cfg, r, n, prefix, s.subs[p].tx.identityPrefix);
    }
    forall x | x in s.published ensures IdentityOfPrefix(cfg, x) != identity {
      OtherDrawOtherIdentity(cfg, r, n, prefix, x);
    }
  }

  lemma NextIsHonest(cfg: Config, r: Run, n: nat)
    requires IsEchoingAndReleasingRun(cfg, r) && DrawsDiffer(r) && NoCollision(cfg, r)
    requires n < |r.events| && Inv(cfg, r.states[n]) && AllDrawn(r, n, r.states[n])
    ensures HonestAt(cfg, r, n)
  {
    var s, e := r.states[n], r.events[n];
    assert StepAt(cfg, r, n) && EchoesAndReleases(cfg, s, e);
    if e.SubmitEncrypts? {
      assert Draws(r, n, e.prefix);
      DrawIsFresh(cfg, r, n, s, e.prefix);
    }
  }

  lemma OneMoreFresh(cfg: Config, r: Run, n: nat)
    requires IsEchoingAndReleasingRun(cfg, r) && DrawsDiffer(r) && NoCollision(cfg, r) && n < |r.events|
    requires HonestUpTo(cfg, r, n) && AllDrawn(r, n, r.states[n])
    ensures HonestAt(cfg, r, n) && AllDrawn(r, n + 1, r.states[n + 1])
  {
    HonestInvUpTo(cfg, r, n);
    NextIsHonest(cfg, r, n);
    assert StepAt(cfg, r, n);
    StepStaysDrawn(cfg, r, n, r.states[n], r.events[n]);
  }

  lemma HonestOneMore(cfg: Config, r: Run, n: nat)
    requires HonestUpTo(cfg, r, n) && n < |r.events| && HonestAt(cfg, r, n)
    ensures HonestUpTo(cfg, r, n + 1)
  {
  }

  lemma {:induction false} HonestSoFar(cfg: Config, r: Run, n: nat)
    requires IsEchoingAndReleasingRun(cfg, r) && DrawsDiffer(r) && NoCollision(cfg, r) && n <= |r.events|
    ensures HonestUpTo(cfg, r, n) && AllDrawn(r, n, r.states[n])
  {
    if n > 0 {
      HonestSoFar(cfg, r, n - 1);
      OneMoreFresh(cfg, r, n - 1);
      HonestOneMore(cfg, r, n - 1);
    }
  }

  /**
   What is assumed of identities comes down to two facts about the source of randomness and the hash:
   a run in which no prefix is drawn twice and Keccak does not collide on the drawn preimages is an
   honest run, provided that commitments echo and keys are released only after publication.
   */
  lemma DistinctDrawsSuffice(cfg: Config, r: Run)
    requires IsEchoingAndReleasingRun(cfg, r) && DrawsDiffer(r) && NoCollision(cfg, r)
    ensures IsHonestRun(cfg, r)
    ensures forall n :: 0 <= n < |r.states| ==> DistinctIdentities(r.states[n].store)
  {
    HonestSoFar(cfg, r, |r.events|);
    forall n | 0 <= n < |r.states| ensures DistinctIdentities(r.states[n].store) {
      HonestInvHolds(cfg, r, n);
    }
  }
}
