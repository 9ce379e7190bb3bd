/** What the past of a run says about its present. */
module History {
  import opened Types
  import opened Hex
  import opened StoreModel
  import opened Shutter
  import opened Protocol
  import opened Safety
  import opened Echoing
  import opened Lifecycle

  /** The events before state `n`. */
  function Log(r: Run, n: nat): seq<Event>
    requires n <= |r.events|
  {
    r.events[..n]
  }

  lemma LogGrows(r: Run, n: nat)
    requires 0 < n <= |r.events|
    ensures Log(r, n) == Log(r, n - 1) + [r.events[n - 1]]
  {
  }

  // ---------------------------------------------------------------- committed blocks

  /** The block of the last commitment worked off for the hash since it was stored, 0 if none. */
  function LastCommit(log: seq<Event>, h: Hash): uint64 {
    if log == [] then 0 else
    var e := log[|log| - 1];
    if e.CommitmentMarks? && e.hash == h then e.block
    else if e.SubmitStores? && e.hash == h then 0
    else LastCommit(log[..|log| - 1], h)
  }

  lemma {:induction false} LastCommitHappened(log: seq<Event>, h: Hash)
    ensures LastCommit(log, h) != 0 ==> CommitmentMarks(h, LastCommit(log, h)) in log
  {
    if log != [] {
      LastCommitHappened(log[..|log| - 1], h);
    }
  }

  lemma StepCommits(cfg: Config, s: State, e: Event, log: seq<Event>, h: Hash)
    requires Enabled(cfg, s, e) && h in After(cfg, s, e).store
    requires h in s.store ==> s.store[h].commitedBlock == LastCommit(log, h)
    ensures After(cfg, s, e).store[h].commitedBlock == LastCommit(log + [e], h)
  {
    assert (log + [e])[..|log|] == log;
  }

  /** The committed block on record is that of the last commitment processed, in every run. */
  lemma {:induction false} BlockIsLastCommit(cfg: Config, r: Run, n: nat, h: Hash)
    requires IsRun(cfg, r) && n < |r.states| && h in r.states[n].store
    ensures r.states[n].store[h].commitedBlock == LastCommit(Log(r, n), h)
  {
    assert n > 0;
    assert StepAt(cfg, r, n - 1);
    LogGrows(r, n);
    if h in r.states[n - 1].store {
      BlockIsLastCommit(cfg, r, n - 1, h);
    }
    StepCommits(cfg, r.states[n - 1], r.events[n - 1], Log(r, n - 1), h);
  }

  // ---------------------------------------------------------------- where Finalised comes from

  ghost predicate KeyDelivered(log: seq<Event>, m: Store, h: Hash) {
    h in m && exists e :: e in log && e.KeyArrives? && e.hash == h && Encode(e.preimage) == m[h].tx.identity
  }

  ghost predicate CommittedBy(log: seq<Event>, h: Hash, head: uint64) {
    exists b: uint64 :: 0 < b <= head && CommitmentMarks(h, b) in log
  }

  ghost predicate Provenance(s: State, log: seq<Event>) {
    && (forall h :: h in s.store && s.store[h].status == Decrypted ==> KeyDelivered(log, s.store, h))
    && (forall k :: k in s.handlers ==> KeyDelivered(log, s.store, s.handlers[k].hash))
  }

  lemma DeliveredStays(log: seq<Event>, m: Store, e: Event, op: Op, h: Hash)
    requires KeyDelivered(log, m, h) && !op.Retry?
    ensures KeyDelivered(log + [e], Apply(m, op), h)
  {
    var key :| key in log && key.KeyArrives? && key.hash == h && Encode(key.preimage) == m[h].tx.identity;
    SameIdentities(m, op);
    assert key in log + [e];
  }

  lemma ScannedIsCommitted(s: State, log: seq<Event>, h: Hash, head: uint64)
    requires h in Verifiable(s.store, head) && s.store[h].commitedBlock == LastCommit(log, h)
    ensures CommittedBy(log, h, head)
  {
    LastCommitHappened(log, h);
  }

  lemma HandlersKeepProvenance(cfg: Config, s: State, e: Event, log: seq<Event>)
    requires Enabled(cfg, s, e) && Provenance(s, log)
    ensures var t := After(cfg, s, e);
            forall k :: k in t.handlers ==> KeyDelivered(log + [e], t.store, t.handlers[k].hash)
  {
    var t, op := After(cfg, s, e), Effect(s, e);
    SameIdentities(s.store, op);
    forall k | k in t.handlers ensures KeyDelivered(log + [e], t.store, t.handlers[k].hash) {
      if e.KeyArrives? && k == e.handler {
        assert e in log + [e];
      } else {
        DeliveredStays(log, s.store, e, op, t.handlers[k].hash);
      }
    }
  }

  /** Only a handler's mark makes a transaction `Decrypted`. */
  lemma DecryptedBefore(m: Store, op: Op, h: Hash)
    requires h in Apply(m, op) && Apply(m, op)[h].status == Decrypted && !op.Retry?
    ensures h in m && (m[h].status == Decrypted || op == SetStatus(h, Decrypted))
  {
  }

  lemma DecryptedWasDelivered(s: State, e: Event, log: seq<Event>, h: Hash)
    requires KeysMatch(s.store) && HandlerEnabled(s, e) && Provenance(s, log) && e.KeyMarks? && h == e.hash
    ensures KeyDelivered(log, s.store, h)
  {
    assert h == s.handlers[e.handler].hash;
  }

  lemma DecryptedKeepProvenance(cfg: Config, s: State, e: Event, log: seq<Event>, h: Hash)
    requires KeysMatch(s.store) && Enabled(cfg, s, e) && Provenance(s, log)
    requires h in After(cfg, s, e).store && After(cfg, s, e).store[h].status == Decrypted
    ensures KeyDelivered(log + [e], After(cfg, s, e).store, h)
  {
    DecryptedBefore(s.store, Effect(s, e), h);
    if e.KeyMarks? && h == e.hash {
      DecryptedWasDelivered(s, e, log, h);
    }
    DeliveredStays(log, s.store, e, Effect(s, e), h);
  }

  lemma StepKeepsProvenance(cfg: Config, s: State, e: Event, log: seq<Event>)
    requires KeysMatch(s.store) && Enabled(cfg, s, e) && Provenance(s, log)
    ensures Provenance(After(cfg, s, e), log + [e])
  {
    var t := After(cfg, s, e);
    HandlersKeepProvenance(cfg, s, e, log);
    forall h | h in t.store && t.store[h].status == Decrypted ensures KeyDelivered(log + [e], t.store, h) {
      DecryptedKeepProvenance(cfg, s, e, log, h);
    }
  }

  lemma {:induction false} ProvenanceHolds(cfg: Config, r: Run, n: nat)
    requires IsRun(cfg, r) && n < |r.states|
    ensures Provenance(r.states[n], Log(r, n))
  {
    if n > 0 {
      ProvenanceHolds(cfg, r, n - 1);
      InvHolds(cfg, r, n - 1);
      assert StepAt(cfg, r, n - 1);
      LogGrows(r, n);
      WellMadeHash(cfg, r.states[n - 1].store);
      StepKeepsProvenance(cfg, r.states[n - 1], r.events[n - 1], Log(r, n - 1));
    }
  }

  /** The steps by which a round of the verifier starts and ends. */
  predicate TurnsRound(e: Event) {
    e.VerifierReadsHead? || e.VerifierScans? || e.VerifierEnds?
  }

  /** How the verifier came to hold a head or a list: by the last step, or it held it before. */
  lemma VerifierCameFrom(cfg: Config, s: State, e: Event)
    requires Enabled(cfg, s, e)
    ensures var v, w := s.verifier, After(cfg, s, e).verifier;
            && (w.HeadKnown? ==> (e == VerifierReadsHead(w.head) && s.head == w.head) || (v == w && !TurnsRound(e)))
            && (w.Checking? || w.Receipted? ==>
                  || (e == VerifierScans(w.todo) && v == HeadKnown(w.head))
                  || ((v.Checking? || v.Receipted?) && v.head == w.head && v.todo == w.todo && !TurnsRound(e)))
            && (w.Receipted? ==>
                  || (v == Checking(w.head, w.todo, w.next) && e.VerifierSeesReceipt? && ChecksNow(s, e.hash))
                  || v == w)
  {
  }

  /** The head the verifier holds was read by it, as the current head, and no other since. */
  lemma {:induction false} HeadWasRead(cfg: Config, r: Run, n: nat) returns (l: nat)
    requires IsRun(cfg, r) && n < |r.states| && r.states[n].verifier.HeadKnown?
    ensures l < n && r.events[l] == VerifierReadsHead(r.states[n].verifier.head)
    ensures r.states[l].head == r.states[n].verifier.head
    ensures forall k :: l < k < n ==> !TurnsRound(r.events[k])
  {
    assert n > 0;
    assert StepAt(cfg, r, n - 1);
    VerifierCameFrom(cfg, r.states[n - 1], r.events[n - 1]);
    if r.events[n - 1].VerifierReadsHead? {
      l := n - 1;
    } else {
      l := HeadWasRead(cfg, r, n - 1);
    }
  }

  /** The list the verifier works through was found by one scan, at the head it holds. */
  lemma {:induction false} ListWasScanned(cfg: Config, r: Run, n: nat) returns (k: nat)
    requires IsRun(cfg, r) && n < |r.states| && (r.states[n].verifier.Checking? || r.states[n].verifier.Receipted?)
    ensures k < n && r.events[k] == VerifierScans(r.states[n].verifier.todo)
    ensures r.states[k].verifier == HeadKnown(r.states[n].verifier.head)
    ensures forall j :: k < j < n ==> !TurnsRound(r.events[j])
  {
    assert n > 0;
    assert StepAt(cfg, r, n - 1);
    VerifierCameFrom(cfg, r.states[n - 1], r.events[n - 1]);
    if r.events[n - 1].VerifierScans? {
      k := n - 1;
    } else {
      k := ListWasScanned(cfg, r, n - 1);
    }
  }

  /** The receipt the verifier holds was seen for the transaction at hand, in the same round. */
  lemma {:induction false} ReceiptWasSeen(cfg: Config, r: Run, n: nat) returns (j: nat)
    requires IsRun(cfg, r) && n < |r.states| && r.states[n].verifier.Receipted?
    ensures j < n && r.events[j].VerifierSeesReceipt? && ChecksNow(r.states[j], r.events[j].hash)
    ensures var v := r.states[n].verifier; r.states[j].verifier == Checking(v.head, v.todo, v.next)
    ensures forall i :: j <= i < n ==> !TurnsRound(r.events[i])
  {
    assert n > 0;
    assert StepAt(cfg, r, n - 1);
    VerifierCameFrom(cfg, r.states[n - 1], r.events[n - 1]);
    if r.states[n - 1].verifier == r.states[n].verifier {
      j := ReceiptWasSeen(cfg, r, n - 1);
    } else {
      j := n - 1;
    }
  }

  /** What a scan finds has been committed and given a key before. */
  lemma ScannedHasPast(cfg: Config, r: Run, k: nat, h: Hash)
    requires IsRun(cfg, r) && k < |r.events| && r.events[k].VerifierScans? && h in r.events[k].order
    ensures r.states[k].verifier.HeadKnown?
    ensures KeyDelivered(Log(r, k), r.states[k].store, h)
    ensures CommittedBy(Log(r, k), h, r.states[k].verifier.head)
  {
    assert StepAt(cfg, r, k);
    ProvenanceHolds(cfg, r, k);
    assert h in Verifiable(r.states[k].store, r.states[k].verifier.head);
    BlockIsLastCommit(cfg, r, k, h);
    ScannedIsCommitted(r.states[k], Log(r, k), h, r.states[k].verifier.head);
  }

  lemma FinalisingRound(cfg: Config, r: Run, i: nat, h: Hash)
    requires IsRun(cfg, r) && i < |r.events| && r.events[i] == VerifierFinalises(h)
    ensures var v := r.states[i].verifier; v.Receipted? && v.next < |v.todo| && v.todo[v.next] == h
  {
    InvHolds(cfg, r, i);
    WellMadeHash(cfg, r.states[i].store);
    assert StepAt(cfg, r, i);
  }

  /**
   Whenever `Finalised` is written, one and the same round of the verifier has, in this order, read
   the head, found the transaction in its scan and seen a receipt for it. Before the scan the run had
   worked off a commitment for the transaction, with a nonzero block the head had reached, and
   delivered a key for its identity. However stale the scan is by then, that past is certain.
   */
  lemma FinalisedProvenance(cfg: Config, r: Run, i: nat, h: Hash) returns (l: nat, k: nat, j: nat)
    requires IsRun(cfg, r) && i < |r.events| && r.events[i] == VerifierFinalises(h)
    ensures l < k < j < i
    ensures r.states[i].verifier.Receipted? && r.states[i].verifier.head == r.states[l].head
    ensures r.events[l] == VerifierReadsHead(r.states[l].head)
    ensures r.events[k].VerifierScans? && h in r.events[k].order
    ensures r.events[j] == VerifierSeesReceipt(h)
    ensures forall n :: l < n < i && n != k ==> !TurnsRound(r.events[n])
    ensures KeyDelivered(Log(r, k), r.states[k].store, h)
    ensures CommittedBy(Log(r, k), h, r.states[l].head)
  {
    FinalisingRound(cfg, r, i, h);
    j := ReceiptWasSeen(cfg, r, i);
    k := ListWasScanned(cfg, r, j);
    l := HeadWasRead(cfg, r, k);
    InvHolds(cfg, r, j);
    WellMadeHash(cfg, r.states[j].store);
    assert r.states[j].verifier.todo[r.states[j].verifier.next] == h;
    ScannedHasPast(cfg, r, k, h);
  }

  // ---------------------------------------------------------------- decrypted means committed

  ghost predicate WasCommitted(log: seq<Event>, h: Hash) {
    exists b: uint64 :: CommitmentMarks(h, b) in log
  }

  lemma OnlyCommitsCommit(m: Store, ph: Phase, op: Op, h: Hash)
    requires RightWrite(m, ph, op) && h in Apply(m, op) && Apply(m, op)[h].status in AFTER_COMMIT
    ensures (h in m && m[h].status in AFTER_COMMIT) || (op.Commit? && op.hash == h)
  {
  }

  lemma CommitsAreMarks(s: State, e: Event)
    requires Effect(s, e).Commit?
    ensures e == CommitmentMarks(Effect(s, e).hash, Effect(s, e).block)
  {
  }

  lemma StepCommitsOnlyMarked(cfg: Config, s: State, e: Event, h: Hash)
    requires HonestInv(cfg, s) && Enabled(cfg, s, e)
    requires h in After(cfg, s, e).store && After(cfg, s, e).store[h].status in AFTER_COMMIT
    ensures (h in s.store && s.store[h].status in AFTER_COMMIT) || (e.CommitmentMarks? && e.hash == h)
  {
    StatusWrites(cfg, s, e);
    OnlyCommitsCommit(s.store, s.phase, Effect(s, e), h);
    if Effect(s, e).Commit? {
      CommitsAreMarks(s, e);
    }
  }

  lemma WasCommittedStays(log: seq<Event>, e: Event, h: Hash)
    requires WasCommitted(log, h) || (e.CommitmentMarks? && e.hash == h)
    ensures WasCommitted(log + [e], h)
  {
    if e.CommitmentMarks? && e.hash == h {
      assert CommitmentMarks(h, e.block) in log + [e];
    } else {
      var b: uint64 :| CommitmentMarks(h, b) in log;
      assert CommitmentMarks(h, b) in log + [e];
    }
  }

  /** In an honest run no transaction is decrypted or final without a commitment for it before. */
  lemma {:induction false} DecryptedWasCommitted(cfg: Config, r: Run, n: nat, h: Hash)
    requires IsHonestRun(cfg, r) && n < |r.states|
    requires h in r.states[n].store && r.states[n].store[h].status in AFTER_COMMIT
    ensures WasCommitted(Log(r, n), h)
  {
    assert n > 0;
    var s := r.states[n - 1];
    HonestInvHolds(cfg, r, n - 1);
    assert HonestAt(cfg, r, n - 1);
    LogGrows(r, n);
    if h in s.store && s.store[h].status in AFTER_COMMIT {
      DecryptedWasCommitted(cfg, r, n - 1, h);
    }
    StepCommitsOnlyMarked(cfg, s, r.events[n - 1], h);
    WasCommittedStays(Log(r, n - 1), r.events[n - 1], h);
  }

  // ---------------------------------------------------------------- decrypted without a commitment

  /** Some commitment naming the transaction, for that block, has found it in the store before state `n`. */
  ghost predicate LandedFor(r: Run, n: nat, h: Hash, block: uint64)
    requires n <= |r.events| < |r.states|
  {
    exists i: nat :: i < n && r.events[i] == CommitmentMarks(h, block) && h in r.states[i].store
  }

  ghost predicate Landed(r: Run, n: nat, h: Hash)
    requires n <= |r.events| < |r.states|
  {
    exists block :: LandedFor(r, n, h, block)
  }

  lemma LandedNext(r: Run, n: nat, h: Hash, block: uint64)
    requires 0 < n <= |r.events| < |r.states|
    ensures LandedFor(r, n, h, block) <==>
            LandedFor(r, n - 1, h, block) || (r.events[n - 1] == CommitmentMarks(h, block) && h in r.states[n - 1].store)
  {
  }

  lemma NotYetStored(cfg: Config, r: Run, n: nat, h: Hash, block: uint64)
    requires IsRun(cfg, r) && n < |r.states| && h !in r.states[n].store
    ensures !LandedFor(r, n, h, block)
  {
    if LandedFor(r, n, h, block) {
      var i: nat :| i < n && r.events[i] == CommitmentMarks(h, block) && h in r.states[i].store;
      RecordsAreForever(cfg, r, i, n);
      assert false;
    }
  }

  lemma BlockAfter(m: Store, op: Op, h: Hash)
    requires h in Apply(m, op) && !op.Retry?
    ensures Apply(m, op)[h].commitedBlock ==
            if h !in m then 0 else if op.Commit? && op.hash == h then op.block else m[h].commitedBlock
  {
  }

  lemma OnlyMarksCommit(s: State, e: Event, h: Hash)
    ensures Effect(s, e).Commit? && Effect(s, e).hash == h <==> e.CommitmentMarks? && e.hash == h
    ensures e.CommitmentMarks? ==> Effect(s, e) == Commit(e.hash, e.block)
  {
  }

  /** The block on record is 0, or some commitment for it has landed. */
  lemma {:induction false} BlockLanded(cfg: Config, r: Run, n: nat, h: Hash)
    requires IsRun(cfg, r) && n < |r.states| && h in r.states[n].store
    ensures r.states[n].store[h].commitedBlock != 0 ==> LandedFor(r, n, h, r.states[n].store[h].commitedBlock)
    ensures r.states[n].store[h].commitedBlock == 0 && Landed(r, n, h) ==> LandedFor(r, n, h, 0)
  {
    assert n > 0;
    var s, e := r.states[n - 1], r.events[n - 1];
    assert StepAt(cfg, r, n - 1);
    BlockAfter(s.store, Effect(s, e), h);
    OnlyMarksCommit(s, e, h);
    if h in s.store {
      BlockLanded(cfg, r, n - 1, h);
      LandedNext(r, n, h, r.states[n].store[h].commitedBlock);
      LandedNext(r, n, h, 0);
      if block :| LandedFor(r, n, h, block) {
        LandedNext(r, n, h, block);
      }
    } else if block :| LandedFor(r, n, h, block) {
      LandedNext(r, n, h, block);
      NotYetStored(cfg, r, n - 1, h, block);
      assert false;
    }
  }

  /** In every run: no commitment has reached the record exactly if its block is 0 and none for block 0 has. */
  lemma NeverCommittedIff(cfg: Config, r: Run, n: nat, h: Hash)
    requires IsRun(cfg, r) && n < |r.states| && h in r.states[n].store
    ensures !Landed(r, n, h) <==> r.states[n].store[h].commitedBlock == 0 && !LandedFor(r, n, h, 0)
  {
    BlockLanded(cfg, r, n, h);
  }

  lemma NoneForZero(r: Run, n: nat, h: Hash)
    requires n <= |r.events| < |r.states| && NonzeroBlocks(r)
    ensures !LandedFor(r, n, h, 0)
  {
    forall i: nat | i < n ensures r.events[i] != CommitmentMarks(h, 0) {
    }
  }

  /**
   When a key makes a transaction `Decrypted` that was never committed, whatever keypers, providers and
   interleavings: exactly when, as the key handler writes, the block on record is 0 and that is not
   the block of a commitment. Where no commitment is for block 0, the block on record alone decides.
   */
  lemma DecryptedUncommittedIff(cfg: Config, r: Run, i: nat, h: Hash)
    requires IsRun(cfg, r) && i < |r.events| && r.events[i].KeyMarks? && r.events[i].hash == h
    ensures h in r.states[i].store && h in r.states[i + 1].store
    ensures r.states[i + 1].store[h].status == Decrypted
    ensures !Landed(r, i + 1, h) <==> r.states[i].store[h].commitedBlock == 0 && !LandedFor(r, i, h, 0)
    ensures NonzeroBlocks(r) ==> (!Landed(r, i + 1, h) <==> r.states[i].store[h].commitedBlock == 0)
  {
    KeyMarkLands(cfg, r, i, h);
    NeverCommittedIff(cfg, r, i, h);
    if NonzeroBlocks(r) {
      NoneForZero(r, i, h);
    }
    LandedUnchanged(r, i + 1, h);
  }

  lemma LandedUnchanged(r: Run, n: nat, h: Hash)
    requires 0 < n <= |r.events| < |r.states| && !r.events[n - 1].CommitmentMarks?
    ensures Landed(r, n, h) <==> Landed(r, n - 1, h)
  {
    var before: nat := n - 1;
    if block: uint64 :| LandedFor(r, n, h, block) {
      LandedNext(r, n, h, block);
      assert LandedFor(r, before, h, block);
    }
    if block: uint64 :| LandedFor(r, before, h, block) {
      LandedNext(r, n, h, block);
      assert LandedFor(r, n, h, block);
    }
  }

  lemma KeyMarkLands(cfg: Config, r: Run, i: nat, h: Hash)
    requires IsRun(cfg, r) && i < |r.events| && r.events[i].KeyMarks? && r.events[i].hash == h
    ensures h in r.states[i].store && h in r.states[i + 1].store
    ensures r.states[i + 1].store[h].status == Decrypted
  {
    InvHolds(cfg, r, i);
    WellMadeHash(cfg, r.states[i].store);
    assert StepAt(cfg, r, i);
  }
}
