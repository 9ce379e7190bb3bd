/** Identities and encryption. Keccak and the Shutter scheme stay uninterpreted parameters. */
module Shutter {
  import opened Types
  import opened Hex
  import opened StoreModel
  import opened TxStore
  import opened Bids

  datatype Crypto = Crypto(
    keccak: Bytes -> Hash,
    eonKey: uint64 -> Bytes,                        // the public key broadcast for an eon
    validEonKey: Bytes -> bool,                     // whether it unmarshals
    encrypt: (Bytes, Bytes, Bytes, Bytes) -> Bytes, // message, eon key, identity, sigma
    epochKey: (Bytes, Bytes) -> Bytes,              // eon key, identity: the decryption key
    validEpochKey: Bytes -> bool,
    validMessage: Bytes -> bool,
    decrypt: (Bytes, Bytes) -> Option<Bytes>)       // ciphertext, decryption key

  datatype Config = Config(crypto: Crypto, bidderNodeAddress: string)

  /** Decrypting with the key of the identity one encrypted for gives the message back. */
  ghost predicate DecryptsWhatItEncrypts(c: Crypto) {
    forall message, eonKey, identity, sigma ::
      var ciphertext, key := c.encrypt(message, eonKey, identity, sigma), c.epochKey(eonKey, identity);
      && key != [] && c.validEpochKey(key) && c.validMessage(ciphertext)
      && c.decrypt(ciphertext, key) == Some(message)
  }

  /** The assumption about the scheme can be met. */
  lemma SchemeExists()
    ensures exists c: Crypto :: DecryptsWhatItEncrypts(c)
  {
    var c := Crypto(_ => seq(32, _ => 0), _ => [], _ => true,
                    (message, _, _, _) => message, (_, _) => [0], _ => true, _ => true,
                    (ciphertext, _) => Some(ciphertext));
    assert DecryptsWhatItEncrypts(c);
  }

  /** Keccak256 of the prefix followed by the 20 bytes of the bidder's address. */
  function GetIdentity(cfg: Config, identityPrefix: Bytes): Hash {
    cfg.crypto.keccak(Preimage(cfg, identityPrefix))
  }

  /** The identity keypers derive from a published prefix, as the store writes it. */
  function IdentityOfPrefix(cfg: Config, prefix: string): string {
    Encode(GetIdentity(cfg, DecodePrefix(prefix)))
  }

  /** What is hashed to an identity. */
  function Preimage(cfg: Config, identityPrefix: Bytes): Bytes {
    identityPrefix + HexToAddress(cfg.bidderNodeAddress)
  }

  /** Two prefixes that share an identity are a collision of Keccak: these very preimages. */
  lemma IdentityCollision(cfg: Config, a: Bytes, b: Bytes)
    requires a != b && GetIdentity(cfg, a) == GetIdentity(cfg, b)
    ensures Preimage(cfg, a) != Preimage(cfg, b)
    ensures cfg.crypto.keccak(Preimage(cfg, a)) == cfg.crypto.keccak(Preimage(cfg, b))
  {
    var address := HexToAddress(cfg.bidderNodeAddress);
    assert Preimage(cfg, a)[..|Preimage(cfg, a)| - |address|] == a;
    assert Preimage(cfg, b)[..|Preimage(cfg, b)| - |address|] == b;
  }

  /** The payload of a raw transaction: its hexadecimal digits after the first two characters. */
  function Payload(rawTx: string): Option<Bytes> {
    if |rawTx| < 2 then None else Decode(rawTx[2..])
  }

  predicate ValidEon(cfg: Config, eon: uint64) {
    cfg.crypto.validEonKey(cfg.crypto.eonKey(eon))
  }

  function EncryptedFor(cfg: Config, rawTx: string, txHash: Hash, head: uint64, eon: uint64,
                        identityPrefix: Hash, sigma: Hash): Encrypted
    requires Payload(rawTx).Some?
  {
    var identity := GetIdentity(cfg, identityPrefix);
    Encrypted(
      eon,
      Add64(head, MAX_INCLUSION_WINDOW),
      cfg.crypto.encrypt(Payload(rawTx).value, cfg.crypto.eonKey(eon), identity, sigma),
      txHash,
      Encode(identity),
      Encode(identityPrefix),
      [],
      rawTx)
  }

  /**
   What one encryption learns from the chain and the random source, which gives 32 bytes each for
   the prefix and for sigma; `None` stands for an error.
   */
  datatype Inputs = Inputs(head: Option<uint64>, eon: Option<uint64>, keyFetched: bool,
                           identityPrefix: Option<Hash>, sigma: Option<Hash>)

  predicate InputsSuffice(cfg: Config, inputs: Inputs) {
    && inputs.head.Some? && inputs.eon.Some? && inputs.keyFetched
    && inputs.identityPrefix.Some? && inputs.sigma.Some?
    && ValidEon(cfg, inputs.eon.value)
  }

  /** A new record for the store, or null if the text is not hexadecimal or an input is missing. */
  method EncryptTransaction(cfg: Config, rawTx: string, txHash: Hash, inputs: Inputs)
    returns (tx: EncryptedTransaction?)
    requires |rawTx| >= 2
    ensures tx != null <==> Payload(rawTx).Some? && InputsSuffice(cfg, inputs)
    ensures tx != null ==>
              fresh(tx) && tx.Value() == EncryptedFor(cfg, rawTx, txHash, inputs.head.value, inputs.eon.value,
                                                      inputs.identityPrefix.value, inputs.sigma.value)
  {
    if inputs.head.None? {
      return null;
    }
    var scheduledBlock := Add64(inputs.head.value, MAX_INCLUSION_WINDOW);
    if inputs.eon.None? || !inputs.keyFetched {
      return null;
    }
    var eonPublicKey := cfg.crypto.eonKey(inputs.eon.value);
    var txData := Decode(rawTx[2..]);
    if txData.None? || inputs.identityPrefix.None? {
      return null;
    }
    var identity := GetIdentity(cfg, inputs.identityPrefix.value);
    if inputs.sigma.None? || !cfg.crypto.validEonKey(eonPublicKey) {
      return null;
    }
    var ciphertext := cfg.crypto.encrypt(txData.value, eonPublicKey, identity, inputs.sigma.value);
    tx := new EncryptedTransaction(
      Encrypted(inputs.eon.value, scheduledBlock, ciphertext, txHash, Encode(identity),
                Encode(inputs.identityPrefix.value), [], rawTx));
  }

  /** The record was made by an encryption of the raw transaction it carries, under its own hash. */
  ghost predicate WellMade(cfg: Config, tx: Encrypted, h: Hash) {
    && Payload(tx.rawTx).Some?
    && h == cfg.crypto.keccak(Payload(tx.rawTx).value)
    && exists head: uint64, prefix: Hash, sigma: Hash ::
         tx.Frozen() == EncryptedFor(cfg, tx.rawTx, h, head, tx.eon, prefix, sigma)
  }

  lemma EncryptedIsWellMade(cfg: Config, rawTx: string, h: Hash, head: uint64, eon: uint64, prefix: Hash, sigma: Hash)
    requires Payload(rawTx).Some? && h == cfg.crypto.keccak(Payload(rawTx).value)
    ensures WellMade(cfg, EncryptedFor(cfg, rawTx, h, head, eon, prefix, sigma), h)
  {
    var tx := EncryptedFor(cfg, rawTx, h, head, eon, prefix, sigma);
    assert tx.Frozen() == EncryptedFor(cfg, tx.rawTx, h, head, tx.eon, prefix, sigma);
  }

  /** The prefix in a record leads to its identity, and publishing does not alter it. */
  lemma PrefixLeadsToIdentity(cfg: Config, tx: Encrypted, h: Hash)
    requires WellMade(cfg, tx, h)
    ensures IdentityOfPrefix(cfg, tx.identityPrefix) == tx.identity
    ensures TrimPrefix(tx.identityPrefix, "0x") == tx.identityPrefix
    ensures tx.txHash == h
  {
    var head: uint64, prefix: Hash, sigma: Hash :|
      tx.Frozen() == EncryptedFor(cfg, tx.rawTx, h, head, tx.eon, prefix, sigma);
    assert tx.identity == tx.Frozen().identity && tx.identityPrefix == tx.Frozen().identityPrefix;
    DecodeEncode(prefix);
    EncodedHasNoPrefix(prefix);
  }

  // ---------------------------------------------------------------- with the bidder's address

  /** The configuration holds these 20 bytes, written with or without 0x. */
  predicate HasAddress(cfg: Config, a: Bytes) {
    |a| == 20 && (cfg.bidderNodeAddress == Encode(a) || cfg.bidderNodeAddress == "0x" + Encode(a))
  }

  /** The identity of a prefix is the hash of the prefix, then the address. */
  lemma IdentityIsHashed(cfg: Config, a: Bytes, p: Bytes)
    requires HasAddress(cfg, a)
    ensures GetIdentity(cfg, p) == cfg.crypto.keccak(p + a)
    ensures IdentityOfPrefix(cfg, Encode(p)) == Encode(cfg.crypto.keccak(p + a))
  {
    EncodedHasNoPrefix(a);
    FromHexPrefixed(a);
    DecodeEncode(p);
  }

  /** Every field of a new record. */
  lemma EncryptedOnFields(cfg: Config, a: Bytes, data: Bytes, rawTx: string, h: Hash, head: uint64, eon: uint64,
                          p: Hash, sigma: Hash)
    requires HasAddress(cfg, a) && |rawTx| >= 2 && rawTx[2..] == Encode(data)
    ensures Payload(rawTx) == Some(data)
    ensures var tx, identity := EncryptedFor(cfg, rawTx, h, head, eon, p, sigma), cfg.crypto.keccak(p + a);
            && tx.identity == Encode(identity) && tx.identityPrefix == Encode(p)
            && tx.encryptedTx == cfg.crypto.encrypt(data, cfg.crypto.eonKey(eon), identity, sigma)
            && tx.eon == eon && tx.txHash == h && tx.rawTx == rawTx && tx.decryptionKey == []
            && tx.maxInclusionWindow == Add64(head, 30)
  {
    DecodeEncode(data);
    IdentityIsHashed(cfg, a, p);
  }

  /** A record was made from some prefix and sigma, for the identity that prefix and address hash to. */
  lemma WellMadeOnFields(cfg: Config, a: Bytes, tx: Encrypted, h: Hash) returns (p: Hash, sigma: Hash)
    requires HasAddress(cfg, a) && WellMade(cfg, tx, h)
    ensures tx.identityPrefix == Encode(p) && tx.identity == Encode(cfg.crypto.keccak(p + a))
    ensures Payload(tx.rawTx).Some?
    ensures tx.encryptedTx ==
            cfg.crypto.encrypt(Payload(tx.rawTx).value, cfg.crypto.eonKey(tx.eon), cfg.crypto.keccak(p + a), sigma)
  {
    var head: uint64;
    head, p, sigma :| tx.Frozen() == EncryptedFor(cfg, tx.rawTx, h, head, tx.eon, p, sigma);
    assert tx.identity == tx.Frozen().identity && tx.identityPrefix == tx.Frozen().identityPrefix;
    assert tx.encryptedTx == tx.Frozen().encryptedTx;
    IdentityIsHashed(cfg, a, p);
  }

  /** Whoever has the key for prefix and address reads the submitted payload off the option of a bid. */
  lemma OptionDecrypts(cfg: Config, a: Bytes, option: BidOption, tx: Encrypted, h: Hash)
    requires HasAddress(cfg, a) && WellMade(cfg, tx, h) && Carries(option, tx) && DecryptsWhatItEncrypts(cfg.crypto)
    ensures Decode(option.identityPrefix).Some? && Decode(option.encryptedTx).Some?
    ensures var identity := cfg.crypto.keccak(Decode(option.identityPrefix).value + a);
            var key := cfg.crypto.epochKey(cfg.crypto.eonKey(ToUint64(option.eonId)), identity);
            cfg.crypto.decrypt(Decode(option.encryptedTx).value, key) == Payload(tx.rawTx)
  {
    var p, sigma := WellMadeOnFields(cfg, a, tx, h);
    DecodeEncode(p);
    var c, eonKey, identity := cfg.crypto, cfg.crypto.eonKey(tx.eon), cfg.crypto.keccak(p + a);
    assert c.decrypt(c.encrypt(Payload(tx.rawTx).value, eonKey, identity, sigma), c.epochKey(eonKey, identity)) ==
           Some(Payload(tx.rawTx).value);
  }

  /** Key routing in the same terms: the prefix bytes of option `i`, hashed with the address, find transaction `i`. */
  lemma KeyRoutingOnFields(cfg: Config, a: Bytes, m: Store, bid: Bid, hashes: seq<Hash>, i: nat) returns (p: Hash)
    requires HasAddress(cfg, a) && Aligned(m, bid, hashes) && DistinctIdentities(m) && i < |hashes|
    requires forall h :: h in m ==> WellMade(cfg, m[h].tx, h)
    ensures bid.options[i].Shutterised? && bid.options[i].identityPrefix == Encode(p)
    ensures IdentityPrefixes(bid.options).Some? && IdentityPrefixes(bid.options).value[i] == Encode(p)
    ensures WithIdentity(m, Encode(cfg.crypto.keccak(p + a))) == {hashes[i]}
  {
    var sigma;
    p, sigma := WellMadeOnFields(cfg, a, m[hashes[i]].tx, hashes[i]);
    EncodedHasNoPrefix(p);
  }

  /** The key keypers release for the identity of a record. */
  function RightKey(cfg: Config, tx: Encrypted): Bytes {
    cfg.crypto.epochKey(cfg.crypto.eonKey(tx.eon), DecodePrefix(tx.identity))
  }

  lemma RightKeyDecrypts(cfg: Config, tx: Encrypted, h: Hash)
    requires WellMade(cfg, tx, h) && DecryptsWhatItEncrypts(cfg.crypto)
    ensures RightKey(cfg, tx) != [] && cfg.crypto.validEpochKey(RightKey(cfg, tx))
    ensures cfg.crypto.validMessage(tx.encryptedTx)
    ensures cfg.crypto.decrypt(tx.encryptedTx, RightKey(cfg, tx)) == Payload(tx.rawTx)
  {
    var head: uint64, prefix: Hash, sigma: Hash :|
      tx.Frozen() == EncryptedFor(cfg, tx.rawTx, h, head, tx.eon, prefix, sigma);
    var identity := GetIdentity(cfg, prefix);
    assert tx.identity == tx.Frozen().identity && tx.encryptedTx == tx.Frozen().encryptedTx;
    DecodeEncode(identity);
    assert tx.encryptedTx == cfg.crypto.encrypt(Payload(tx.rawTx).value, cfg.crypto.eonKey(tx.eon), identity, sigma);
  }

  /**
   The deadline is 30 blocks ahead, and a transaction encrypted at the head is in time for a bid
   made at that same head, exactly while the sums do not wrap around.
   */
  lemma DeadlineIff(head: uint64)
    ensures Add64(head, MAX_INCLUSION_WINDOW) == head + 30 <==> head < TWO_TO_THE_64 - 30
    ensures Add64(head, MAX_INCLUSION_WINDOW) >= Add64(head, INCLUSION_WINDOW) <==>
            head < TWO_TO_THE_64 - 30 || head == TWO_TO_THE_64 - 1
  {
  }

  /**
   End-to-end key routing: what a commitment echoing the bid publishes lines up with the hashes of
   the bid, and the identity derived from each published prefix finds that very transaction.
   */
  lemma KeyRouting(cfg: Config, m: Store, bid: Bid, hashes: seq<Hash>)
    requires Aligned(m, bid, hashes) && DistinctIdentities(m)
    requires forall h :: h in m ==> WellMade(cfg, m[h].tx, h)
    ensures var published := IdentityPrefixes(bid.options);
            && published.Some? && |published.value| == |hashes|
            && forall i :: 0 <= i < |hashes| ==>
                 WithIdentity(m, IdentityOfPrefix(cfg, published.value[i])) == {hashes[i]}
  {
    var published := IdentityPrefixes(bid.options).value;
    forall i | 0 <= i < |hashes| ensures WithIdentity(m, IdentityOfPrefix(cfg, published[i])) == {hashes[i]} {
      PrefixLeadsToIdentity(cfg, m[hashes[i]].tx, hashes[i]);
      assert published[i] == TrimPrefix(bid.options[i].identityPrefix, "0x");
    }
  }
}
