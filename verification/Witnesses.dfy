/** Runs that show two bounds of the code are met: a submission that is refused, and all 31 blocks. */
module Witnesses {
  import opened Types
  import opened StoreModel
  import opened Bids
  import opened Shutter
  import opened Protocol
  import opened Rebidding
  import opened Refinement
  import opened Undisturbed
  import opened Edges

  // ---------------------------------------------------------------- a refused submission

  ghost predicate RunTo(cfg: Config, r: Run, s: State) {
    IsRun(cfg, r) && r.states[|r.events|] == s
  }

  lemma SubmitOn(cfg: Config, r: Run, s: State, e: Event, t: State) returns (q: Run)
    requires RunTo(cfg, r, s) && SubmissionEnabled(cfg, s, e)
    requires t.store == Apply(s.store, Effect(s, e)) && t.subs == NextSubs(cfg, s, e)
    requires t == s.(store := t.store, subs := t.subs)
    ensures RunTo(cfg, q, t) && q.events == r.events + [e]
  {
    SubmissionStep(cfg, s, e);
    q := OneStepOn(cfg, r, e);
  }

  /** Both submissions of the one raw transaction have passed their lookup. */
  function Racing(first: Submission, second: Submission): State {
    Start(5).(subs := map[0 := first, 1 := second])
  }

  lemma BothLookUp(cfg: Config, h: Hash) returns (r: Run)
    requires h == cfg.crypto.keccak([0])
    ensures RunTo(cfg, r, Racing(Encrypting(RAW, h), Encrypting(RAW, h)))
  {
    RawPayload();
    var t := Start(5).(subs := map[0 := Encrypting(RAW, h)]);
    r := Run([Start(5)], []);
    r := SubmitOn(cfg, r, Start(5), SubmitLooksUp(0, RAW), t);
    assert t.subs[1 := Encrypting(RAW, h)] == map[0 := Encrypting(RAW, h), 1 := Encrypting(RAW, h)];
    r := SubmitOn(cfg, r, t, SubmitLooksUp(1, RAW), Racing(Encrypting(RAW, h), Encrypting(RAW, h)));
  }

  function OtherDrawn(): Hash {
    seq(32, _ => 8)
  }

  /** One of the submissions is encrypted, at head 5. */
  lemma EncryptOn(cfg: Config, r: Run, subs: map<nat, Submission>, sub: nat, rawTx: string, h: Hash,
                  eon: uint64, prefix: Hash, sigma: Hash)
    returns (q: Run, tx: Encrypted)
    requires sub in subs && subs[sub] == Encrypting(rawTx, h) && Payload(rawTx).Some? && ValidEon(cfg, eon)
    requires RunTo(cfg, r, Start(5).(subs := subs))
    ensures RunTo(cfg, q, Start(5).(subs := subs[sub := Storing(h, tx)]))
  {
    var s := Start(5).(subs := subs);
    tx := EncryptedFor(cfg, rawTx, h, 5, eon, prefix, sigma);
    q := SubmitOn(cfg, r, s, SubmitEncrypts(sub, 5, eon, prefix, sigma), s.(subs := subs[sub := Storing(h, tx)]));
  }

  lemma BothEncrypt(cfg: Config, eon: uint64, h: Hash) returns (r: Run, a: Encrypted, b: Encrypted)
    requires h == cfg.crypto.keccak([0]) && ValidEon(cfg, eon)
    ensures RunTo(cfg, r, Racing(Storing(h, a), Storing(h, b)))
  {
    RawPayload();
    var e := Encrypting(RAW, h);
    r := BothLookUp(cfg, h);
    r, a := EncryptOn(cfg, r, map[0 := e, 1 := e], 0, RAW, h, eon, Drawn(), Drawn());
    assert map[0 := e, 1 := e][0 := Storing(h, a)] == map[0 := Storing(h, a), 1 := e];
    r, b := EncryptOn(cfg, r, map[0 := Storing(h, a), 1 := e], 1, RAW, h, eon, OtherDrawn(), Drawn());
    assert map[0 := Storing(h, a), 1 := e][1 := Storing(h, b)] == map[0 := Storing(h, a), 1 := Storing(h, b)];
  }

  lemma OneIsRefused(cfg: Config, eon: uint64) returns (r: Run)
    requires ValidEon(cfg, eon)
    ensures IsRun(cfg, r) && |r.events| > 0 && r.events[|r.events| - 1] == SubmitFindsDuplicate(1)
  {
    var h := cfg.crypto.keccak([0]);
    var a, b;
    r, a, b := BothEncrypt(cfg, eon, h);
    var s := Racing(Storing(h, a), Storing(h, b));
    var t := Start(5).(store := map[h := Record(a, Init, 0, 0)], subs := map[1 := Storing(h, b)]);
    assert s.subs - {0} == t.subs;
    r := SubmitOn(cfg, r, s, SubmitStores(0, h, a), t);
    assert t.subs - {1} == map[];
    r := SubmitOn(cfg, r, t, SubmitFindsDuplicate(1), t.(subs := map[]));
  }

  /** Refusals do occur, wherever anything can be encrypted. */
  lemma RefusalOccursIff(cfg: Config)
    ensures (exists r: Run, i: nat :: RefusesAt(cfg, r, i)) <==> EonKeyExists(cfg)
  {
    if eon :| ValidEon(cfg, eon) {
      var r := OneIsRefused(cfg, eon);
      assert RefusesAt(cfg, r, |r.events| - 1);
    } else {
      forall r: Run, i: nat ensures !RefusesAt(cfg, r, i) {
        if RefusesAt(cfg, r, i) {
          assert StepAt(cfg, r, i);
          NothingWithoutEonKey(cfg, r, i);
          assert false;
        }
      }
    }
  }

  ghost predicate RefusesAt(cfg: Config, r: Run, i: nat) {
    IsRun(cfg, r) && i < |r.events| && r.events[i].SubmitFindsDuplicate?
  }

  // ---------------------------------------------------------------- all 31 blocks

  /** Some run with a steady head comes to the state, having bid for the transaction for these blocks. */
  ghost predicate BidFor(cfg: Config, h: Hash, s: State, blocks: seq<uint64>) {
    exists r: Run :: IsSteadyRun(cfg, r) && r.states[|r.events|] == s && BidBlocks(r.events, h) == blocks
  }

  function BlocksAfter(blocks: seq<uint64>, e: Event, h: Hash): seq<uint64> {
    if e.TickBuilds? && h in e.hashes then blocks + [ToUint64(e.bid.blockNumber)] else blocks
  }

  lemma SteadyStepOn(cfg: Config, r: Run, e: Event) returns (q: Run)
    requires IsSteadyRun(cfg, r)
    requires Enabled(cfg, r.states[|r.events|], e) && SteadyHead(r.states[|r.events|], e)
    ensures IsSteadyRun(cfg, q) && q.events == r.events + [e]
    ensures q.states[|q.events|] == After(cfg, r.states[|r.events|], e)
  {
    q := OneStepOn(cfg, r, e);
    forall i | 0 <= i < |q.events| ensures SteadyAt(q, i) {
      if i < |r.events| {
        assert SteadyAt(r, i);
      }
    }
  }

  lemma SteadyOn(cfg: Config, h: Hash, s: State, e: Event, blocks: seq<uint64>)
    requires BidFor(cfg, h, s, blocks) && Enabled(cfg, s, e) && SteadyHead(s, e)
    ensures BidFor(cfg, h, After(cfg, s, e), BlocksAfter(blocks, e, h))
  {
    var r: Run :| IsSteadyRun(cfg, r) && r.states[|r.events|] == s && BidBlocks(r.events, h) == blocks;
    var q := SteadyStepOn(cfg, r, e);
    BidBlocksStep(r.events, e, h);
    assert BidBlocks(q.events, h) == BlocksAfter(blocks, e, h);
  }

  lemma TickOn(cfg: Config, h: Hash, s: State, e: Event, t: State, blocks: seq<uint64>)
    requires BidFor(cfg, h, s, blocks) && s.head < 100 && BidLoopEnabled(s, e) && !e.TickPublishes?
    requires t.store == Apply(s.store, Effect(s, e)) && t == s.(store := t.store, phase := NextPhase(s, e))
    ensures BidFor(cfg, h, t, BlocksAfter(blocks, e, h))
  {
    BidLoopStep(cfg, s, e);
    SteadyOn(cfg, h, s, e, blocks);
  }

  /** The one transaction waits, with the chain at `head`. */
  function Waiting(sc: Scene, head: uint64, ph: Phase): State {
    sc.Only(Init, 0, ph).(head := head)
  }

  lemma HeadOnTo(cfg: Config, sc: Scene, head: uint64, next: uint64, blocks: seq<uint64>)
    requires BidFor(cfg, sc.hash, Waiting(sc, head, Idle), blocks) && head <= next && head < 100
    ensures BidFor(cfg, sc.hash, Waiting(sc, next, Idle), blocks)
  {
    SteadyOn(cfg, sc.hash, Waiting(sc, head, Idle), HeadMoves(next), blocks);
    assert After(cfg, Waiting(sc, head, Idle), HeadMoves(next)) == Waiting(sc, next, Idle);
  }

  lemma BidScanned(cfg: Config, sc: Scene, head: uint64, block: uint64, blocks: seq<uint64>)
    requires sc.tx.txHash == sc.hash && sc.tx.maxInclusionWindow == 35 && head < 100 && block <= 35
    requires BidFor(cfg, sc.hash, Waiting(sc, head, HeadRead(block)), blocks)
    ensures BidFor(cfg, sc.hash, Waiting(sc, head, Blocking(block, [], 0, [sc.hash], [sc.hash])), blocks)
  {
    var s, h := Waiting(sc, head, HeadRead(block)), sc.hash;
    ScanOfOne(sc, s.store, block);
    TickOn(cfg, h, s, TickScans([h]), Waiting(sc, head, Blocking(block, [], 0, [h], [h])), blocks);
  }

  lemma BidBuilt(cfg: Config, sc: Scene, head: uint64, block: uint64, blocks: seq<uint64>)
    returns (bid: Bid)
    requires head < 100
    requires BidFor(cfg, sc.hash, Waiting(sc, head, Blocking(block, [], 0, [sc.hash], [sc.hash])), blocks)
    ensures BidFor(cfg, sc.hash, Waiting(sc, head, Marking(bid, [sc.hash], 0)), blocks + [block])
  {
    var s, h := Waiting(sc, head, Blocking(block, [], 0, [sc.hash], [sc.hash])), sc.hash;
    bid := MakeBid(DEFAULT_SLASH_AMOUNT, block, [sc.tx]);
    assert Transactions(s.store, [h]) == [sc.tx];
    TickOn(cfg, h, s, TickBuilds(bid, [h]), Waiting(sc, head, Marking(bid, [h], 0)), blocks);
  }

  /** The bid is not sent, and the transaction waits again. */
  lemma BidFails(cfg: Config, sc: Scene, head: uint64, bid: Bid, blocks: seq<uint64>)
    requires head < 100 && BidFor(cfg, sc.hash, Waiting(sc, head, Marking(bid, [sc.hash], 0)), blocks)
    ensures BidFor(cfg, sc.hash, Waiting(sc, head, Idle), blocks)
  {
    var h := sc.hash;
    var s := Waiting(sc, head, Marking(bid, [h], 0));
    var t := sc.Only(BidSubmitted, 0, Marking(bid, [h], 1)).(head := head);
    TickOn(cfg, h, s, TickMarks(h), t, blocks);
    var u := t.(phase := Resetting([h], 0));
    TickOn(cfg, h, t, BidNotSent, u, blocks);
    TickOn(cfg, h, u, TickResets(h), Waiting(sc, head, Resetting([h], 1)), blocks);
    TickOn(cfg, h, Waiting(sc, head, Resetting([h], 1)), TickEnds, Waiting(sc, head, Idle), blocks);
  }

  lemma BidOnce(cfg: Config, sc: Scene, head: uint64, block: uint64, blocks: seq<uint64>)
    requires sc.tx.txHash == sc.hash && sc.tx.maxInclusionWindow == 35 && head < 100 && block <= 35
    requires BidFor(cfg, sc.hash, Waiting(sc, head, HeadRead(block)), blocks)
    ensures BidFor(cfg, sc.hash, Waiting(sc, head, Idle), blocks + [block])
  {
    BidScanned(cfg, sc, head, block, blocks);
    var bid := BidBuilt(cfg, sc, head, block, blocks);
    BidFails(cfg, sc, head, bid, blocks + [block]);
  }

  /** The blocks 5, 6, 7 and so on. */
  function UpTo(count: nat): (blocks: seq<uint64>)
    requires count <= 31
    ensures |blocks| == count && forall i :: 0 <= i < count ==> blocks[i] == 5 + i
  {
    if count == 0 then [] else UpTo(count - 1) + [4 + count]
  }

  /** The tick reads head 4, then the chain moves to 5. */
  lemma HeadReadEarly(cfg: Config, h: Hash)
    ensures BidFor(cfg, h, Start(5).(phase := HeadRead(5)), [])
  {
    var s, ph := Start(4), HeadRead(5);
    assert IsSteadyRun(cfg, Run([s], [])) && BidBlocks([], h) == [];
    assert BidFor(cfg, h, s, []);
    TickOn(cfg, h, s, TickReadsHead, s.(phase := ph), []);
    SteadyOn(cfg, h, s.(phase := ph), HeadMoves(5), []);
    assert After(cfg, s.(phase := ph), HeadMoves(5)) == Start(5).(phase := ph);
  }

  lemma MoveOn(cfg: Config, h: Hash, s: State, e: Event, t: State)
    requires BidFor(cfg, h, s, []) && Moves(cfg, s, e, t) && !e.TickBuilds? && !e.HeadMoves? && s.head < 100
    ensures BidFor(cfg, h, t, [])
  {
    SteadyOn(cfg, h, s, e, []);
  }

  /** Only now is the transaction encrypted, at head 5, and stored. */
  lemma StoredMeanwhile(cfg: Config, eon: uint64)
    requires ValidEon(cfg, eon)
    ensures var sc := TheScene(cfg, eon); BidFor(cfg, sc.hash, Waiting(sc, 5, HeadRead(5)), [])
  {
    var sc, ph := TheScene(cfg, eon), HeadRead(5);
    HeadReadEarly(cfg, sc.hash);
    LookUpMoves(cfg, sc, ph);
    MoveOn(cfg, sc.hash, Start(5).(phase := ph), SubmitLooksUp(0, RAW), Sent(Encrypting(RAW, sc.hash), ph));
    EncryptionMoves(cfg, eon, ph);
    MoveOn(cfg, sc.hash, Sent(Encrypting(RAW, sc.hash), ph), Encryption(eon), Sent(Storing(sc.hash, sc.tx), ph));
    StoringMoves(cfg, sc, ph);
    MoveOn(cfg, sc.hash, Sent(Storing(sc.hash, sc.tx), ph), SubmitStores(0, sc.hash, sc.tx), Waiting(sc, 5, ph));
  }

  /** One more tick, for the block after the head, and the next block of the chain. */
  lemma BidOnceMore(cfg: Config, sc: Scene, head: uint64, blocks: seq<uint64>)
    requires sc.tx.txHash == sc.hash && sc.tx.maxInclusionWindow == 35 && head < 35
    requires BidFor(cfg, sc.hash, Waiting(sc, head, Idle), blocks)
    ensures BidFor(cfg, sc.hash, Waiting(sc, head + 1, Idle), blocks + [head + 1])
  {
    TickOn(cfg, sc.hash, Waiting(sc, head, Idle), TickReadsHead, Waiting(sc, head, HeadRead(head + 1)), blocks);
    BidOnce(cfg, sc, head, head + 1, blocks);
    HeadOnTo(cfg, sc, head, head + 1, blocks + [head + 1]);
  }

  lemma {:induction false} BidUpTo(cfg: Config, sc: Scene, count: nat)
    requires sc.tx.txHash == sc.hash && sc.tx.maxInclusionWindow == 35 && 1 <= count <= 31
    requires BidFor(cfg, sc.hash, Waiting(sc, 5, HeadRead(5)), [])
    ensures BidFor(cfg, sc.hash, Waiting(sc, 4 + count, Idle), UpTo(count))
  {
    if count == 1 {
      BidOnce(cfg, sc, 5, 5, []);
      assert UpTo(1) == [] + [5];
    } else {
      BidUpTo(cfg, sc, count - 1);
      BidOnceMore(cfg, sc, 3 + count, UpTo(count - 1));
    }
  }

  /**
   The bound of 31 is met: in some run with a steady head a transaction encrypted at head 5 is bid for
   31 different blocks, the first of which is block 5 itself.
   */
  lemma All31BlocksOccur(cfg: Config)
    requires EonKeyExists(cfg)
    ensures exists r: Run, h: Hash ::
              IsSteadyRun(cfg, r) && NoDuplicates(BidBlocks(r.events, h)) && |BidBlocks(r.events, h)| == 31
  {
    var eon :| ValidEon(cfg, eon);
    StoredMeanwhile(cfg, eon);
    TheSceneFits(cfg, eon);
    BidUpTo(cfg, TheScene(cfg, eon), 31);
  }
}
