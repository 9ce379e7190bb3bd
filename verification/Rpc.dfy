/** `eth_sendRawTransaction`: look the hash up, encrypt, store. */
module Rpc {
  import opened Types
  import opened Hex
  import opened StoreModel
  import opened TxStore
  import opened Shutter

  datatype Param = Text(s: string) | NotText

  datatype Reply =
    | Accepted(result: string)
    | InvalidParams
    | InvalidData
    | EncryptionFailed
    | SubmissionFailed
    | Panicked // slicing the first two characters off a shorter string

  /** What a submission makes of its parameters before it looks at the store. */
  datatype Parsed = Rejected(reply: Reply) | Submission(rawTx: string, hash: Hash)

  function Parse(cfg: Config, params: Option<seq<Param>>): (p: Parsed)
    ensures p.Submission? ==> Payload(p.rawTx).Some? && p.hash == cfg.crypto.keccak(Payload(p.rawTx).value)
  {
    match params
    case None => Rejected(InvalidParams)
    case Some(ps) =>
      if |ps| != 1 || ps[0].NotText? then Rejected(if |ps| != 1 then InvalidParams else InvalidData)
      else if |ps[0].s| < 2 then Rejected(Panicked)
      else match Payload(ps[0].s)
           case None => Rejected(InvalidData)
           case Some(data) => Submission(ps[0].s, cfg.crypto.keccak(data))
  }

  function SubmitReply(cfg: Config, m: Store, hash: Hash, inputs: Inputs): Reply {
    if hash in m || InputsSuffice(cfg, inputs) then Accepted("0x" + Encode(hash)) else EncryptionFailed
  }

  function SubmitStore(cfg: Config, m: Store, rawTx: string, hash: Hash, inputs: Inputs): Store
    requires Payload(rawTx).Some?
  {
    if hash in m || !InputsSuffice(cfg, inputs) then m else
    m[hash := Record(EncryptedFor(cfg, rawTx, hash, inputs.head.value, inputs.eon.value,
                                  inputs.identityPrefix.value, inputs.sigma.value), Init, 0, 0)]
  }

  /** What every kind of request gets, and what it leaves in the store. */
  ghost predicate HandlesRequest(cfg: Config, m: Store, params: Option<seq<Param>>, inputs: Inputs, reply: Reply, n: Store) {
    if params.None? || |params.value| != 1 then reply == InvalidParams && n == m
    else if params.value[0].NotText? then reply == InvalidData && n == m
    else if |params.value[0].s| < 2 then reply == Panicked && n == m
    else match Decode(params.value[0].s[2..])
         case None => reply == InvalidData && n == m
         case Some(data) => HandlesData(cfg, m, params.value[0].s, data, inputs, reply, n)
  }

  /**
   A known transaction is accepted and nothing changes. An unknown one is accepted exactly if the
   head, the eon, its key and both draws are there and the key is valid, and is then on record as
   `Init`, for 30 blocks from the head; all other records stay as they were.
   */
  ghost predicate HandlesData(cfg: Config, m: Store, rawTx: string, data: Bytes, inputs: Inputs, reply: Reply, n: Store) {
    var h := cfg.crypto.keccak(data);
    if h in m then reply == Accepted("0x" + Encode(h)) && n == m
    else if inputs.head.Some? && inputs.eon.Some? && inputs.keyFetched && inputs.identityPrefix.Some? &&
            inputs.sigma.Some? && cfg.crypto.validEonKey(cfg.crypto.eonKey(inputs.eon.value))
    then
      && reply == Accepted("0x" + Encode(h))
      && h in n && n == m[h := n[h]]
      && n[h].status == Init && n[h].commitedBlock == 0 && n[h].retries == 0
      && Holds(cfg, n[h].tx, rawTx, data, h, inputs.head.value, inputs.eon.value,
               inputs.identityPrefix.value, inputs.sigma.value)
    else reply == EncryptionFailed && n == m
  }

  /** The encrypted transaction, field by field. */
  ghost predicate Holds(cfg: Config, tx: Encrypted, rawTx: string, data: Bytes, h: Hash, head: uint64, eon: uint64,
                        p: Hash, sigma: Hash) {
    && tx.rawTx == rawTx && tx.txHash == h && tx.eon == eon && tx.decryptionKey == []
    && tx.maxInclusionWindow == Add64(head, 30) && tx.identityPrefix == Encode(p)
    && forall a :: HasAddress(cfg, a) ==>
         && tx.identity == Encode(cfg.crypto.keccak(p + a))
         && tx.encryptedTx == cfg.crypto.encrypt(data, cfg.crypto.eonKey(eon), cfg.crypto.keccak(p + a), sigma)
  }

  lemma HoldsAll(cfg: Config, rawTx: string, data: Bytes, h: Hash, head: uint64, eon: uint64, p: Hash, sigma: Hash)
    requires Payload(rawTx) == Some(data)
    ensures Holds(cfg, EncryptedFor(cfg, rawTx, h, head, eon, p, sigma), rawTx, data, h, head, eon, p, sigma)
  {
    forall a | HasAddress(cfg, a) ensures GetIdentity(cfg, p) == cfg.crypto.keccak(p + a) {
      IdentityIsHashed(cfg, a, p);
    }
  }

  lemma RequestOnFields(cfg: Config, m: Store, params: Option<seq<Param>>, inputs: Inputs)
    ensures match Parse(cfg, params)
            case Rejected(r) => HandlesRequest(cfg, m, params, inputs, r, m)
            case Submission(rawTx, h) =>
              HandlesRequest(cfg, m, params, inputs, SubmitReply(cfg, m, h, inputs), SubmitStore(cfg, m, rawTx, h, inputs))
  {
    match Parse(cfg, params) {
      case Rejected(_) =>
      case Submission(rawTx, h) =>
        if h !in m && InputsSuffice(cfg, inputs) {
          HoldsAll(cfg, rawTx, Payload(rawTx).value, h, inputs.head.value, inputs.eon.value,
                   inputs.identityPrefix.value, inputs.sigma.value);
        }
    }
  }

  /** Two characters and the hexadecimal text of the payload make a request for that payload. */
  lemma EncodedPayloadIsHandled(cfg: Config, m: Store, prefix: string, data: Bytes, inputs: Inputs, reply: Reply, n: Store)
    requires |prefix| == 2
    ensures HandlesRequest(cfg, m, Some([Text(prefix + Encode(data))]), inputs, reply, n) <==>
            HandlesData(cfg, m, prefix + Encode(data), data, inputs, reply, n)
  {
    var text := prefix + Encode(data);
    assert text[2..] == Encode(data);
    DecodeEncode(data);
  }

  class RpcServer {
    const txStore: TransactionStore
    const cfg: Config

    constructor (txStore: TransactionStore, cfg: Config)
      ensures this.txStore == txStore && this.cfg == cfg
    {
      this.txStore := txStore;
      this.cfg := cfg;
    }

    /**
     Undisturbed by others: parameters that do not parse change nothing; a known hash is accepted
     again without a change, an unknown one is stored under its own hash or rejected.
     */
    method HandleSendRawTransaction(params: Option<seq<Param>>, inputs: Inputs) returns (reply: Reply)
      requires txStore.Valid()
      modifies txStore
      ensures txStore.Valid()
      ensures match Parse(cfg, params)
              case Rejected(r) => reply == r && txStore.View() == old(txStore.View())
              case Submission(rawTx, hash) =>
                && reply == SubmitReply(cfg, old(txStore.View()), hash, inputs)
                && txStore.View() == SubmitStore(cfg, old(txStore.View()), rawTx, hash, inputs)
      ensures HandlesRequest(cfg, old(txStore.View()), params, inputs, reply, txStore.View())
    {
      RequestOnFields(cfg, txStore.View(), params, inputs);
      if params.None? || |params.value| != 1 {
        return InvalidParams;
      }
      if params.value[0].NotText? {
        return InvalidData;
      }
      var rawTx := params.value[0].s;
      if |rawTx| < 2 {
        return Panicked;
      }
      var txData := Decode(rawTx[2..]);
      if txData.None? {
        return InvalidData;
      }
      var txHash := cfg.crypto.keccak(txData.value);
      reply := Submit(rawTx, txHash, inputs);
    }

    /** From the lookup on. The insertion checks again, as others may have stored the hash meanwhile. */
    method Submit(rawTx: string, txHash: Hash, inputs: Inputs) returns (reply: Reply)
      requires txStore.Valid() && Payload(rawTx).Some?
      modifies txStore
      ensures txStore.Valid()
      ensures reply == SubmitReply(cfg, old(txStore.View()), txHash, inputs)
      ensures txStore.View() == SubmitStore(cfg, old(txStore.View()), rawTx, txHash, inputs)
    {
      var known := txStore.GetTransaction(txHash);
      if known.Some? {
        return Accepted("0x" + Encode(txHash));
      }
      ghost var m := txStore.View();
      var encryptedTx := EncryptTransaction(cfg, rawTx, txHash, inputs);
      assert txStore.View() == m;
      if encryptedTx == null {
        return EncryptionFailed;
      }
      var ok := txStore.StoreTransaction(txHash, encryptedTx);
      if !ok {
        return SubmissionFailed;
      }
      return Accepted("0x" + Encode(txHash));
    }
  }
}
