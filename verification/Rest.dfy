/** The REST endpoint that hands out a decrypted transaction. */
module Rest {
  import opened Types
  import opened Hex
  import opened StoreModel
  import opened TxStore
  import opened Shutter

  const ROUTE := "/decrypted_tx/"

  datatype Response =
    | MethodNotAllowed
    | HashMissing
    | HashInvalid
    | NotFound
    | NotDecrypted(txHash: string, identity: string)
    | Success(txHash: string, identity: string, decryptionKey: string, decryptedTx: string)

  const ZERO_HASH: Hash := seq(32, _ => 0)

  /** The hash a path asks for. */
  function RequestedHash(urlPath: string): Hash {
    HexToHash(TrimPrefix(urlPath, ROUTE))
  }

  function Answer(cfg: Config, m: Store, isGet: bool, urlPath: string): Response {
    var path := TrimPrefix(urlPath, ROUTE);
    if !isGet then MethodNotAllowed
    else if path == "" || path == urlPath then HashMissing
    else
      var h := RequestedHash(urlPath);
      if h == ZERO_HASH then HashInvalid
      else if h !in m then NotFound
      else
        var tx := m[h].tx;
        var unavailable := NotDecrypted("0x" + Encode(h), tx.identity);
        if tx.decryptionKey == [] || !cfg.crypto.validEpochKey(tx.decryptionKey) then unavailable
        else if !cfg.crypto.validMessage(tx.encryptedTx) then unavailable
        else match cfg.crypto.decrypt(tx.encryptedTx, tx.decryptionKey)
             case None => unavailable
             case Some(message) =>
               Success("0x" + Encode(h), tx.identity, Encode(tx.decryptionKey), Encode(message))
  }

  /** Every answer, case by case. */
  lemma AnswerOnFields(cfg: Config, m: Store, isGet: bool, path: string, other: string)
    requires !("/decrypted_tx/" <= other)
    ensures !isGet ==> Answer(cfg, m, isGet, other) == MethodNotAllowed
    ensures !isGet ==> Answer(cfg, m, isGet, "/decrypted_tx/" + path) == MethodNotAllowed
    ensures isGet ==> Answer(cfg, m, isGet, other) == HashMissing && Answer(cfg, m, isGet, "/decrypted_tx/") == HashMissing
    ensures isGet && path != "" ==>
              var h, answer := HexToHash(path), Answer(cfg, m, isGet, "/decrypted_tx/" + path);
              if forall i :: 0 <= i < 32 ==> h[i] == 0 then answer == HashInvalid
              else if h !in m then answer == NotFound
              else if CanBeServed(cfg, m[h].tx)
              then answer == Success("0x" + Encode(h), m[h].tx.identity, Encode(m[h].tx.decryptionKey),
                                     Encode(cfg.crypto.decrypt(m[h].tx.encryptedTx, m[h].tx.decryptionKey).value))
              else answer == NotDecrypted("0x" + Encode(h), m[h].tx.identity)
  {
    var urlPath := "/decrypted_tx/" + path;
    assert urlPath[|ROUTE|..] == path && ROUTE[|ROUTE|..] == "";
    assert path != "" ==> |path| < |urlPath|;
    ZeroIff(HexToHash(path));
  }

  /** There is a key, key and ciphertext are well formed, and decryption succeeds. */
  predicate CanBeServed(cfg: Config, tx: Encrypted) {
    && tx.decryptionKey != [] && cfg.crypto.validEpochKey(tx.decryptionKey)
    && cfg.crypto.validMessage(tx.encryptedTx)
    && cfg.crypto.decrypt(tx.encryptedTx, tx.decryptionKey).Some?
  }

  /**
   The decrypted answer is the submitted transaction: with the right key on record, asking for a
   hash, with or without 0x, returns bytes that hash to it and are those of the raw transaction.
   */
  lemma AnswerIsTheSubmittedTransaction(cfg: Config, m: Store, h: Hash, spelling: string)
    requires h in m && h != ZERO_HASH && WellMade(cfg, m[h].tx, h) && DecryptsWhatItEncrypts(cfg.crypto)
    requires m[h].tx.decryptionKey == RightKey(cfg, m[h].tx)
    requires spelling == Encode(h) || spelling == "0x" + Encode(h)
    ensures var r := Answer(cfg, m, true, ROUTE + spelling);
            && r.Success? && r.txHash == "0x" + Encode(h)
            && Decode(r.decryptedTx).Some?
            && cfg.crypto.keccak(Decode(r.decryptedTx).value) == h
            && Decode(r.decryptedTx) == Payload(m[h].tx.rawTx)
  {
    HashRoundTrip(h);
    RightKeyDecrypts(cfg, m[h].tx, h);
    ZeroIff(h);
    AnswerOnFields(cfg, m, true, spelling, "");
    DecodeEncode(Payload(m[h].tx.rawTx).value);
  }

  lemma ZeroIff(h: Hash)
    ensures h == ZERO_HASH <==> forall i :: 0 <= i < 32 ==> h[i] == 0
  {
    if forall i :: 0 <= i < 32 ==> h[i] == 0 {
      assert h == ZERO_HASH;
    }
  }

  class RestAPI {
    const txStore: TransactionStore
    const cfg: Config

    constructor (txStore: TransactionStore, cfg: Config)
      ensures this.txStore == txStore && this.cfg == cfg
    {
      this.txStore := txStore;
      this.cfg := cfg;
    }

    method GetDecryptedTx(isGet: bool, urlPath: string) returns (r: Response)
      requires txStore.Valid()
      ensures r == Answer(cfg, txStore.View(), isGet, urlPath)
    {
      if !isGet {
        return MethodNotAllowed;
      }
      var path := TrimPrefix(urlPath, ROUTE);
      if path == "" || path == urlPath {
        return HashMissing;
      }
      var txHash := HexToHash(path);
      if txHash == ZERO_HASH {
        return HashInvalid;
      }
      var found := txStore.GetTransaction(txHash);
      if found.None? {
        return NotFound;
      }
      var tx := found.value.encryptedTx;
      var unavailable := NotDecrypted("0x" + Encode(txHash), tx.identity);
      if tx.decryptionKey == [] {
        return unavailable;
      }
      if !cfg.crypto.validEpochKey(tx.decryptionKey) {
        return unavailable;
      }
      if !cfg.crypto.validMessage(tx.encryptedTx) {
        return unavailable;
      }
      var message := cfg.crypto.decrypt(tx.encryptedTx, tx.decryptionKey);
      if message.None? {
        return unavailable;
      }
      return Success("0x" + Encode(txHash), tx.identity, Encode(tx.decryptionKey), Encode(message.value));
    }
  }
}
