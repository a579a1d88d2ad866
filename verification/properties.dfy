/**
 * What the validator can and cannot detect, stated over snapshots of a chain.
 * Every lemma that relies on SHA-256 telling inputs apart says so with an
 * explicit `Injective` hypothesis.
 */
module ChainProperties {
  import opened Encoding
  import opened Blocks

  /** A block whose cached hash has been recomputed from its current fields. */
  function Rehashed(h: Hasher, v: BlockValue): (r: BlockValue)
    ensures r.hash == Digest(h, r)
    ensures r.(hash := v.hash) == v
  {
    v.(hash := Digest(h, v))
  }

  /**
   * The hash a block is given at construction is taken over the nonce text
   * "undefined", so it is not the digest of any block at all, whatever its
   * fields are later set to.
   */
  lemma ConstructionHashStale(h: Hasher, index: nat, timestamp: string, data: Json, previousHash: string, later: BlockValue)
    requires Injective(h.sha256)
    ensures Constructed(h, index, timestamp, data, previousHash).hash != Digest(h, later)
  {
    UndefinedIsNotDecimal(
      Decimal(index) + previousHash + timestamp + h.stringify(data),
      Decimal(later.index) + later.previousHash + later.timestamp + h.stringify(later.data),
      later.nonce);
  }

  /**
   * The genesis block never passes the hash check; a chain holding only the
   * genesis block is valid because position 0 is never checked.
   */
  lemma GenesisOnlyByExemption(h: Hasher)
    requires Injective(h.sha256)
    ensures GenesisValue(h).hash != Digest(h, GenesisValue(h))
    ensures ChainValid(h, [GenesisValue(h)])
  {
  }

  /**
   * If mining did not iterate, the appended block keeps its construction
   * hash, and the extended chain fails validation.
   */
  lemma UnminedBlockBreaksChain(h: Hasher, vs: seq<BlockValue>, b: BlockValue,
                                index: nat, timestamp: string, data: Json, previousHash: string)
    requires Injective(h.sha256)
    requires |vs| > 0
    requires b.hash == Constructed(h, index, timestamp, data, previousHash).hash
    ensures !ChainValid(h, vs + [b])
  {
    ConstructionHashStale(h, index, timestamp, data, previousHash, b);
    ChainValidAppend(h, vs, b);
  }

  /** An outside write to one field of a block; the cached `hash` is left as it was. */
  datatype Edit =
    | SetIndex(index: nat)
    | SetPreviousHash(previousHash: string)
    | SetTimestamp(timestamp: string)
    | SetData(data: Json)
    | SetNonce(nonce: nat)

  /** The block after the write, e.g. `chain[1].data = { amount: 100 }`. */
  function Tamper(v: BlockValue, e: Edit): (r: BlockValue)
    ensures r.hash == v.hash
    ensures r.index == if e.SetIndex? then e.index else v.index
    ensures r.previousHash == if e.SetPreviousHash? then e.previousHash else v.previousHash
    ensures r.timestamp == if e.SetTimestamp? then e.timestamp else v.timestamp
    ensures r.data == if e.SetData? then e.data else v.data
    ensures r.nonce == if e.SetNonce? then e.nonce else v.nonce
  {
    match e
    case SetIndex(index) => v.(index := index)
    case SetPreviousHash(previousHash) => v.(previousHash := previousHash)
    case SetTimestamp(timestamp) => v.(timestamp := timestamp)
    case SetData(data) => v.(data := data)
    case SetNonce(nonce) => v.(nonce := nonce)
  }

  /** The write changes the text its field contributes to the hash input. */
  predicate Alters(h: Hasher, v: BlockValue, e: Edit)
  {
    match e
    case SetIndex(index) => index != v.index
    case SetPreviousHash(previousHash) => previousHash != v.previousHash
    case SetTimestamp(timestamp) => timestamp != v.timestamp
    case SetData(data) => h.stringify(data) != h.stringify(v.data)
    case SetNonce(nonce) => nonce != v.nonce
  }

  /**
   * Changing any one field of a block changes the string its hash is taken
   * over: the fields sit in a fixed order and every other part stays put.
   */
  lemma PreimageSeparates(h: Hasher, v: BlockValue, e: Edit)
    requires Alters(h, v, e)
    ensures HashInput(h, Tamper(v, e)) != HashInput(h, v)
  {
    match e
    case SetIndex(index) => IndexSeparates(h, v, index);
    case SetPreviousHash(previousHash) => PreviousHashSeparates(h, v, previousHash);
    case SetTimestamp(timestamp) => TimestampSeparates(h, v, timestamp);
    case SetData(data) => DataSeparates(h, v, data);
    case SetNonce(nonce) => NonceSeparates(h, v, nonce);
  }

  /** A different index gives a different hash input. */
  lemma IndexSeparates(h: Hasher, v: BlockValue, index: nat)
    requires index != v.index
    ensures HashInput(h, v.(index := index)) != HashInput(h, v)
  {
    var rest := v.previousHash + v.timestamp + h.stringify(v.data) + Decimal(v.nonce);
    if HashInput(h, v.(index := index)) == HashInput(h, v) {
      assert HashInput(h, v.(index := index)) == [] + Decimal(index) + rest;
      assert HashInput(h, v) == [] + Decimal(v.index) + rest;
      ConcatCancel([], Decimal(index), Decimal(v.index), rest);
      DecimalInjective(index, v.index);
    }
  }

  /** A different previous hash gives a different hash input. */
  lemma PreviousHashSeparates(h: Hasher, v: BlockValue, previousHash: string)
    requires previousHash != v.previousHash
    ensures HashInput(h, v.(previousHash := previousHash)) != HashInput(h, v)
  {
    var front, rest := Decimal(v.index), v.timestamp + h.stringify(v.data) + Decimal(v.nonce);
    if HashInput(h, v.(previousHash := previousHash)) == HashInput(h, v) {
      assert HashInput(h, v.(previousHash := previousHash)) == front + previousHash + rest;
      assert HashInput(h, v) == front + v.previousHash + rest;
      ConcatCancel(front, previousHash, v.previousHash, rest);
    }
  }

  /** A different timestamp gives a different hash input. */
  lemma TimestampSeparates(h: Hasher, v: BlockValue, timestamp: string)
    requires timestamp != v.timestamp
    ensures HashInput(h, v.(timestamp := timestamp)) != HashInput(h, v)
  {
    var front, rest := Decimal(v.index) + v.previousHash, h.stringify(v.data) + Decimal(v.nonce);
    if HashInput(h, v.(timestamp := timestamp)) == HashInput(h, v) {
      assert HashInput(h, v.(timestamp := timestamp)) == front + timestamp + rest;
      assert HashInput(h, v) == front + v.timestamp + rest;
      ConcatCancel(front, timestamp, v.timestamp, rest);
    }
  }

  /** A different serialised payload gives a different hash input. */
  lemma DataSeparates(h: Hasher, v: BlockValue, data: Json)
    requires h.stringify(data) != h.stringify(v.data)
    ensures HashInput(h, v.(data := data)) != HashInput(h, v)
  {
    var front := Decimal(v.index) + v.previousHash + v.timestamp;
    if HashInput(h, v.(data := data)) == HashInput(h, v) {
      ConcatCancel(front, h.stringify(data), h.stringify(v.data), Decimal(v.nonce));
    }
  }

  /** A different nonce gives a different hash input. */
  lemma NonceSeparates(h: Hasher, v: BlockValue, nonce: nat)
    requires nonce != v.nonce
    ensures HashInput(h, v.(nonce := nonce)) != HashInput(h, v)
  {
    var front := Decimal(v.index) + v.previousHash + v.timestamp + h.stringify(v.data);
    if HashInput(h, v.(nonce := nonce)) == HashInput(h, v) {
      assert HashInput(h, v.(nonce := nonce)) == front + Decimal(nonce) + [];
      assert HashInput(h, v) == front + Decimal(v.nonce) + [];
      ConcatCancel(front, Decimal(nonce), Decimal(v.nonce), []);
      DecimalInjective(nonce, v.nonce);
    }
  }

  /** With SHA-256 injective, changing any one field changes `calculateHash()`. */
  lemma DigestSeparates(h: Hasher, v: BlockValue, e: Edit)
    requires Injective(h.sha256)
    requires Alters(h, v, e)
    ensures Digest(h, Tamper(v, e)) != Digest(h, v)
  {
    PreimageSeparates(h, v, e);
  }

  /**
   * Writing to any field of a block after the genesis block without
   * recomputing its hash is caught by the hash check at that block.
   */
  lemma UnrehashedTamperDetected(h: Hasher, vs: seq<BlockValue>, i: nat, e: Edit)
    requires Injective(h.sha256)
    requires ChainValid(h, vs)
    requires 1 <= i < |vs|
    requires Alters(h, vs[i], e)
    ensures var ws := vs[i := Tamper(vs[i], e)];
            ws[i].hash != Digest(h, ws[i]) && !ChainValid(h, ws)
  {
    var ws := vs[i := Tamper(vs[i], e)];
    DigestSeparates(h, vs[i], e);
    assert LinkOk(h, vs[i - 1], vs[i]);
    assert !LinkOk(h, ws[i - 1], ws[i]);
  }

  /**
   * The tamper of main.js lines 107-108, for any field: a block after the
   * genesis block is changed and its hash recomputed. Its own hash check
   * passes, but its successor's previous-hash link no longer matches.
   */
  lemma RehashedTamperDetected(h: Hasher, vs: seq<BlockValue>, i: nat, e: Edit)
    requires Injective(h.sha256)
    requires ChainValid(h, vs)
    requires 1 <= i && i + 1 < |vs|
    requires Alters(h, vs[i], e)
    ensures var ws := vs[i := Rehashed(h, Tamper(vs[i], e))];
            ws[i].hash == Digest(h, ws[i]) && ws[i + 1].previousHash != ws[i].hash && !ChainValid(h, ws)
  {
    var ws := vs[i := Rehashed(h, Tamper(vs[i], e))];
    DigestSeparates(h, vs[i], e);
    assert LinkOk(h, vs[i - 1], vs[i]) && LinkOk(h, vs[i], vs[i + 1]);
    assert !LinkOk(h, ws[i], ws[i + 1]);
  }

  /**
   * What the validator cannot see: position 0 is never checked, so any write
   * to the genesis block that leaves its cached hash alone keeps a valid
   * chain valid.
   */
  lemma GenesisTamperUndetected(h: Hasher, vs: seq<BlockValue>, e: Edit)
    requires ChainValid(h, vs)
    requires |vs| > 0
    ensures ChainValid(h, vs[0 := Tamper(vs[0], e)])
  {
    var ws := vs[0 := Tamper(vs[0], e)];
    forall j | 1 <= j < |ws|
      ensures LinkOk(h, ws[j - 1], ws[j])
    {
      assert LinkOk(h, vs[j - 1], vs[j]);
    }
  }

  /**
   * Nor can it see a change to the last block when its hash is recomputed:
   * no later block records that hash.
   */
  lemma RehashedTipTamperUndetected(h: Hasher, vs: seq<BlockValue>, e: Edit)
    requires ChainValid(h, vs)
    requires |vs| > 1
    requires Tamper(vs[|vs| - 1], e).previousHash == vs[|vs| - 1].previousHash
    ensures ChainValid(h, vs[|vs| - 1 := Rehashed(h, Tamper(vs[|vs| - 1], e))])
  {
    var last := |vs| - 1;
    var ws := vs[last := Rehashed(h, Tamper(vs[last], e))];
    forall j | 1 <= j < |ws|
      ensures LinkOk(h, ws[j - 1], ws[j])
    {
      assert LinkOk(h, vs[j - 1], vs[j]);
    }
  }
}
