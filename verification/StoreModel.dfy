/**
 The contents of the transaction store as a value, and each atomic store operation as a
 function on it. The classes refine these functions; the interleaved system steps by them.
 */
module StoreModel {
  import opened Types
  import opened Hex

  datatype Status = Init | BidSubmitted | Committed | Decrypted | Finalised | Blocked

  datatype Encrypted = Encrypted(
    eon: uint64,
    maxInclusionWindow: uint64,
    encryptedTx: Bytes,
    txHash: Bytes,
    identity: string,
    identityPrefix: string,
    decryptionKey: Bytes,
    rawTx: string)
  {
    /** Everything but the decryption key, which arrives later. */
    function Frozen(): Encrypted {
      this.(decryptionKey := [])
    }
  }

  datatype Record = Record(tx: Encrypted, status: Status, commitedBlock: uint64, retries: nat)

  type Store = map<Hash, Record>

  /** One critical section of the store; `SetKey` is the write made outside the lock. */
  datatype Op =
    | NoOp
    | Insert(hash: Hash, tx: Encrypted)
    | SetStatus(hash: Hash, status: Status)
    | Commit(hash: Hash, block: uint64)
    | SetKey(hash: Hash, key: Bytes)
    | Retry(hash: Hash, tx: Encrypted)

  const MAX_RETRIES := 3

  function Retried(r: Record, tx: Encrypted): Record {
    Record(
      r.tx.(encryptedTx := tx.encryptedTx, identity := tx.identity, identityPrefix := tx.identityPrefix),
      if r.retries + 1 >= MAX_RETRIES then Blocked else Init,
      r.commitedBlock,
      r.retries + 1)
  }

  /** An operation that does not land leaves the store as it was. */
  function Apply(m: Store, op: Op): Store {
    if op.NoOp? || !Lands(m, op) then m else
    match op
    case Insert(h, tx) => m[h := Record(tx, Init, 0, 0)]
    case SetStatus(h, status) => m[h := m[h].(status := status)]
    case Commit(h, block) => m[h := m[h].(status := Committed, commitedBlock := block)]
    case SetKey(h, key) => m[h := m[h].(tx := m[h].tx.(decryptionKey := key))]
    case Retry(h, tx) => m[h := Retried(m[h], tx)]
  }

  /** Whether the operation reports no error: an insertion wants a new hash, an update a known one. */
  predicate Lands(m: Store, op: Op) {
    op.NoOp? || (op.Insert? <==> op.hash !in m)
  }

  function ApplyAll(m: Store, ops: seq<Op>): Store {
    if ops == [] then m else Apply(ApplyAll(m, ops[..|ops| - 1]), ops[|ops| - 1])
  }

  lemma {:induction false} ApplyAllConcat(m: Store, a: seq<Op>, b: seq<Op>)
    ensures ApplyAll(m, a + b) == ApplyAll(ApplyAll(m, a), b)
  {
    if b == [] {
      assert a + b == a;
    } else {
      var last := |b| - 1;
      assert (a + b)[..|a + b| - 1] == a + b[..last];
      ApplyAllConcat(m, a, b[..last]);
    }
  }

  /** A retry on the fields: the new ciphertext, identity and prefix, and nothing else of the transaction. */
  lemma RetryOnFields(m: Store, h: Hash, tx: Encrypted)
    requires h in m
    ensures var before, after := m[h], Apply(m, Retry(h, tx))[h];
            && after.tx.encryptedTx == tx.encryptedTx && after.tx.identity == tx.identity
            && after.tx.identityPrefix == tx.identityPrefix
            && after.tx.eon == before.tx.eon && after.tx.txHash == before.tx.txHash
            && after.tx.maxInclusionWindow == before.tx.maxInclusionWindow
            && after.tx.decryptionKey == before.tx.decryptionKey && after.tx.rawTx == before.tx.rawTx
            && after.commitedBlock == before.commitedBlock && after.retries == before.retries + 1
            && after.status == if before.retries >= 2 then Blocked else Init
    ensures forall g :: g in m && g != h ==> g in Apply(m, Retry(h, tx)) && Apply(m, Retry(h, tx))[g] == m[g]
  {
  }

  /** No operation removes a record, and none but a retry changes more of its transaction than the key. */
  ghost predicate Extends(m: Store, n: Store) {
    forall h :: h in m ==> h in n && n[h].tx.Frozen() == m[h].tx.Frozen()
  }

  function StatusOps(hashes: seq<Hash>, status: Status): seq<Op> {
    seq(|hashes|, i requires 0 <= i < |hashes| => SetStatus(hashes[i], status))
  }

  function CommitOps(hashes: seq<Hash>, block: uint64): seq<Op> {
    seq(|hashes|, i requires 0 <= i < |hashes| => Commit(hashes[i], block))
  }

  function MarkAll(m: Store, hashes: seq<Hash>, status: Status): (n: Store) {
    map h | h in m :: if h in hashes then m[h].(status := status) else m[h]
  }

  function CommitAll(m: Store, hashes: seq<Hash>, block: uint64): (n: Store) {
    map h | h in m :: if h in hashes then m[h].(status := Committed, commitedBlock := block) else m[h]
  }

  /** A list of status updates reaches exactly the listed records, and changes only their status. */
  lemma {:induction false} StatusOpsEffect(m: Store, hashes: seq<Hash>, status: Status)
    ensures ApplyAll(m, StatusOps(hashes, status)) == MarkAll(m, hashes, status)
  {
    if hashes != [] {
      var last := |hashes| - 1;
      StatusOpsEffect(m, hashes[..last], status);
      assert StatusOps(hashes, status)[..last] == StatusOps(hashes[..last], status);
      assert hashes == hashes[..last] + [hashes[last]];
    }
  }

  lemma {:induction false} CommitOpsEffect(m: Store, hashes: seq<Hash>, block: uint64)
    ensures ApplyAll(m, CommitOps(hashes, block)) == CommitAll(m, hashes, block)
  {
    if hashes != [] {
      var last := |hashes| - 1;
      CommitOpsEffect(m, hashes[..last], block);
      assert CommitOps(hashes, block)[..last] == CommitOps(hashes[..last], block);
      assert hashes == hashes[..last] + [hashes[last]];
    }
  }

  /** Every map key is the transaction hash its record carries. */
  ghost predicate KeysMatch(m: Store) {
    forall h :: h in m ==> m[h].tx.txHash == h
  }

  /** The hash the actors compute from a record they hold a pointer to. */
  function Target(m: Store, k: Hash): (h: Hash)
    requires k in m
    ensures m[k].tx.txHash == k ==> h == k
  {
    BytesToHash(m[k].tx.txHash)
  }

  function Targets(m: Store, keys: seq<Hash>): (hs: seq<Hash>)
    requires forall k :: k in keys ==> k in m
    ensures |hs| == |keys|
    ensures KeysMatch(m) ==> hs == keys
  {
    seq(|keys|, i requires 0 <= i < |keys| => Target(m, keys[i]))
  }

  function WithStatus(m: Store, status: Status): set<Hash> {
    set h | h in m && m[h].status == status
  }

  /** What the verifier scans for: decrypted, and committed for a block the chain has reached. */
  function Verifiable(m: Store, head: uint64): set<Hash> {
    set h | h in m && m[h].commitedBlock != 0 && m[h].commitedBlock <= head && m[h].status == Decrypted
  }

  function WithIdentity(m: Store, identity: string): set<Hash> {
    set h | h in m && m[h].tx.identity == identity
  }

  ghost predicate DistinctIdentities(m: Store) {
    forall g, h :: g in m && h in m && m[g].tx.identity == m[h].tx.identity ==> g == h
  }
}

/** Laws of whole sequences of store operations on a store that starts empty. */
module StoreLaws {
  import opened Types
  import opened StoreModel

  const EMPTY: Store := map[]

  function CountOf(m: Store, status: Status): nat {
    |WithStatus(m, status)|
  }

  /** The status an operation gives its record, when it lands. */
  function StatusAfter(m: Store, op: Op): Status
    requires !op.NoOp? && Lands(m, op)
  {
    match op
    case Insert(_, _) => Init
    case SetStatus(_, status) => status
    case Commit(_, _) => Committed
    case SetKey(h, _) => m[h].status
    case Retry(h, _) => if m[h].retries >= 2 then Blocked else Init
  }

  function Indicator(b: bool): int {
    if b then 1 else 0
  }

  /** How a counter for `status`, kept up to date by each operation, has to move. */
  function CounterStep(m: Store, op: Op, status: Status): int {
    if op.NoOp? || !Lands(m, op) then 0
    else Indicator(StatusAfter(m, op) == status) - Indicator(op.hash in m && m[op.hash].status == status)
  }

  function Counter(ops: seq<Op>, status: Status): int {
    if ops == [] then 0
    else
      var before := ops[..|ops| - 1];
      Counter(before, status) + CounterStep(ApplyAll(EMPTY, before), ops[|ops| - 1], status)
  }

  lemma ApplyTouchesOne(m: Store, op: Op)
    requires !op.NoOp? && Lands(m, op)
    ensures Apply(m, op).Keys == m.Keys + {op.hash}
    ensures Apply(m, op)[op.hash].status == StatusAfter(m, op)
    ensures forall h :: h in m && h != op.hash ==> Apply(m, op)[h] == m[h]
  {
  }

  lemma SetSizes<T>(x: T, s: set<T>)
    ensures |s - {x}| == |s| - Indicator(x in s)
    ensures |s + {x}| == |s - {x}| + 1
  {
    assert s + {x} == (s - {x}) + {x};
  }

  lemma WithStatusMoves(m: Store, n: Store, h: Hash, status: Status)
    requires n.Keys == m.Keys + {h}
    requires forall g :: g in m && g != h ==> n[g] == m[g]
    ensures WithStatus(n, status) ==
            if n[h].status == status then WithStatus(m, status) + {h} else WithStatus(m, status) - {h}
  {
  }

  lemma CountMoves(m: Store, op: Op, status: Status)
    ensures CountOf(Apply(m, op), status) == CountOf(m, status) + CounterStep(m, op, status)
  {
    if !op.NoOp? && Lands(m, op) {
      ApplyTouchesOne(m, op);
      WithStatusMoves(m, Apply(m, op), op.hash, status);
      SetSizes(op.hash, WithStatus(m, status));
    }
  }

  /** Scanning the store for a status gives what counters maintained along the way would hold. */
  lemma {:induction false} ScannedCountsAreMaintainedCounts(ops: seq<Op>, status: Status)
    ensures CountOf(ApplyAll(EMPTY, ops), status) == Counter(ops, status)
  {
    if ops == [] {
      assert WithStatus(EMPTY, status) == {};
    } else {
      var before := ops[..|ops| - 1];
      ScannedCountsAreMaintainedCounts(before, status);
      CountMoves(ApplyAll(EMPTY, before), ops[|ops| - 1], status);
    }
  }

  function WithStatusIn(m: Store, statuses: set<Status>): set<Hash> {
    set h | h in m && m[h].status in statuses
  }

  lemma AnotherStatus(m: Store, statuses: set<Status>, status: Status)
    requires status !in statuses
    ensures |WithStatusIn(m, statuses + {status})| == |WithStatusIn(m, statuses)| + CountOf(m, status)
  {
    assert WithStatusIn(m, statuses + {status}) == WithStatusIn(m, statuses) + WithStatus(m, status);
    assert WithStatusIn(m, statuses) !! WithStatus(m, status);
  }

  /** The six counts always sum to the number of transactions. */
  lemma CountsSumToSize(m: Store)
    ensures CountOf(m, Init) + CountOf(m, BidSubmitted) + CountOf(m, Committed)
            + CountOf(m, Decrypted) + CountOf(m, Finalised) + CountOf(m, Blocked) == |m|
  {
    var none: set<Status> := {};
    AnotherStatus(m, none, Init);
    AnotherStatus(m, none + {Init}, BidSubmitted);
    AnotherStatus(m, none + {Init} + {BidSubmitted}, Committed);
    AnotherStatus(m, none + {Init} + {BidSubmitted} + {Committed}, Decrypted);
    AnotherStatus(m, none + {Init} + {BidSubmitted} + {Committed} + {Decrypted}, Finalised);
    AnotherStatus(m, none + {Init} + {BidSubmitted} + {Committed} + {Decrypted} + {Finalised}, Blocked);
    var all := none + {Init} + {BidSubmitted} + {Committed} + {Decrypted} + {Finalised} + {Blocked};
    forall status: Status ensures status in all {
      match status {
        case Init => case BidSubmitted => case Committed => case Decrypted => case Finalised => case Blocked =>
      }
    }
    assert WithStatusIn(m, none) == {};
    assert WithStatusIn(m, all) == m.Keys;
  }

  /** How many retries of `h` found their record. */
  function LandedRetries(ops: seq<Op>, h: Hash): nat {
    if ops == [] then 0
    else
      var before, op := ops[..|ops| - 1], ops[|ops| - 1];
      LandedRetries(before, h) +
      if op.Retry? && op.hash == h && h in ApplyAll(EMPTY, before) then 1 else 0
  }

  /** How many of them put the transaction back to `Init`. */
  function Revivals(ops: seq<Op>, h: Hash): nat {
    if ops == [] then 0
    else
      var before, op := ops[..|ops| - 1], ops[|ops| - 1];
      Revivals(before, h) +
      if op.Retry? && op.hash == h && h in ApplyAll(EMPTY, before) && ApplyAll(EMPTY, ops)[h].status == Init
      then 1 else 0
  }

  lemma {:induction false} RetriesAreCounted(ops: seq<Op>, h: Hash)
    ensures LandedRetries(ops, h) == if h in ApplyAll(EMPTY, ops) then ApplyAll(EMPTY, ops)[h].retries else 0
  {
    if ops != [] {
      RetriesAreCounted(ops[..|ops| - 1], h);
    }
  }

  /** Whatever happens in between, only the first two retries revive a transaction. */
  lemma {:induction false} RetryBound(ops: seq<Op>, h: Hash)
    ensures Revivals(ops, h) == if LandedRetries(ops, h) < 2 then LandedRetries(ops, h) else 2
    ensures forall i {:trigger ops[i]} ::
              0 <= i < |ops| && ops[i].Retry? && ops[i].hash == h && h in ApplyAll(EMPTY, ops[..i]) ==>
              h in ApplyAll(EMPTY, ops[..i + 1]) &&
              ApplyAll(EMPTY, ops[..i + 1])[h].status == if LandedRetries(ops[..i], h) < 2 then Init else Blocked
  {
    if ops != [] {
      var last := |ops| - 1;
      var before := ops[..last];
      RetryBound(before, h);
      RetriesAreCounted(before, h);
      forall i | 0 <= i < |ops| && ops[i].Retry? && ops[i].hash == h && h in ApplyAll(EMPTY, ops[..i])
        ensures h in ApplyAll(EMPTY, ops[..i + 1])
        ensures ApplyAll(EMPTY, ops[..i + 1])[h].status == if LandedRetries(ops[..i], h) < 2 then Init else Blocked
      {
        if i < last {
          assert before[i] == ops[i];
          assert before[..i] == ops[..i] && before[..i + 1] == ops[..i + 1];
        } else {
          assert ops[..i + 1] == ops;
        }
      }
    }
  }
}
