/**
 * The hash-linked chain of main.js: `Block` (fields, `calculateHash`,
 * `mineBlock`) and `Blockchain` (genesis, `getLatestBlock`, `addBlock`,
 * `isChainValid`). Blocks are objects whose fields change in place; the
 * chain is a growing sequence of references to them.
 */
module Blocks {
  import opened Encoding

  /** A snapshot of a block's six fields, for stating properties over whole chains. */
  datatype BlockValue = BlockValue(
    index: nat,
    timestamp: string,
    data: Json,
    previousHash: string,
    nonce: nat,
    hash: string)

  /**
   * The string `calculateHash` feeds to SHA-256:
   * index + previousHash + timestamp + JSON.stringify(data) + nonce.
   * `nonceText` is the nonce as JavaScript writes it into the string.
   */
  function Preimage(h: Hasher, index: nat, previousHash: string, timestamp: string, data: Json, nonceText: string): string
  {
    Decimal(index) + previousHash + timestamp + h.stringify(data) + nonceText
  }

  /** The digest the block would have with its nonce set to `k`; the cached `hash` plays no part. */
  function DigestAt(h: Hasher, v: BlockValue, k: nat): string
  {
    h.sha256(Preimage(h, v.index, v.previousHash, v.timestamp, v.data, Decimal(k)))
  }

  /** The string `calculateHash` feeds to SHA-256 for a block with these fields. */
  function HashInput(h: Hasher, v: BlockValue): string
  {
    Preimage(h, v.index, v.previousHash, v.timestamp, v.data, Decimal(v.nonce))
  }

  /** `calculateHash()` of a block with these fields; the same as `DigestAt` its own nonce. */
  function Digest(h: Hasher, v: BlockValue): string
  {
    h.sha256(HashInput(h, v))
  }

  /** No nonce strictly between `lo` and `hi` gives a digest that meets the difficulty. */
  ghost predicate MissedBetween(h: Hasher, v: BlockValue, lo: nat, hi: nat, difficulty: nat)
  {
    forall k :: lo < k < hi ==> !MeetsDifficulty(DigestAt(h, v, k), difficulty)
  }

  /**
   * The state of `mineBlock`'s search, begun at block `start` and bound to
   * stop by nonce `target`: only `nonce` and `hash` have moved; the hash is
   * the original one until the nonce first rises and the digest of the
   * current nonce afterwards; every nonce tried so far missed the target.
   */
  ghost predicate Searching(h: Hasher, start: BlockValue, difficulty: nat, target: nat, v: BlockValue)
  {
    && v.index == start.index && v.timestamp == start.timestamp
    && v.data == start.data && v.previousHash == start.previousHash
    && start.nonce <= v.nonce <= target
    && (v.nonce == start.nonce ==> v.hash == start.hash)
    && (v.nonce > start.nonce ==> v.hash == DigestAt(h, start, v.nonce) && !MeetsDifficulty(start.hash, difficulty))
    && (MeetsDifficulty(start.hash, difficulty) || (start.nonce < target && MeetsDifficulty(DigestAt(h, start, target), difficulty)))
    && (start.nonce < target ==> target <= NonceLimit)
    && MissedBetween(h, start, start.nonce, v.nonce, difficulty)
  }

  /** One iteration of the search: a hash that misses the target means the bound is not reached yet, and the next nonce keeps the search state. */
  lemma SearchStep(h: Hasher, start: BlockValue, difficulty: nat, target: nat, v: BlockValue)
    requires Searching(h, start, difficulty, target, v)
    requires !MeetsDifficulty(v.hash, difficulty)
    ensures v.nonce < target
    ensures Searching(h, start, difficulty, target, v.(nonce := v.nonce + 1, hash := DigestAt(h, start, v.nonce + 1)))
  {
  }

  /**
   * What `mineBlock` does to a block, from `before` to `after`: only `nonce`
   * and `hash` change; the final hash meets the difficulty; the nonce never
   * decreases. If it did not move, the hash is the one the block came with,
   * possibly stale. If it rose, the hash is the digest of the final fields,
   * the original hash missed the target, and the nonce is still one a
   * JavaScript increment can reach. Every nonce strictly in between missed
   * the target, so the first satisfying nonce is the one taken.
   */
  ghost predicate Mined(h: Hasher, before: BlockValue, difficulty: nat, after: BlockValue)
  {
    && after.index == before.index && after.timestamp == before.timestamp
    && after.data == before.data && after.previousHash == before.previousHash
    && MeetsDifficulty(after.hash, difficulty)
    && before.nonce <= after.nonce
    && (after.nonce == before.nonce ==> after.hash == before.hash)
    && (after.nonce > before.nonce ==>
          after.hash == Digest(h, after) && !MeetsDifficulty(before.hash, difficulty) && after.nonce <= NonceLimit)
    && MissedBetween(h, before, before.nonce, after.nonce, difficulty)
  }

  /** The search stops when the hash meets the target, and what it has done by then is mining. */
  lemma SearchDone(h: Hasher, start: BlockValue, difficulty: nat, target: nat, v: BlockValue)
    requires Searching(h, start, difficulty, target, v)
    requires MeetsDifficulty(v.hash, difficulty)
    ensures Mined(h, start, difficulty, v)
  {
  }

  /** Mining is deterministic: from the same block and difficulty there is one outcome. */
  lemma MinedUnique(h: Hasher, before: BlockValue, difficulty: nat, a: BlockValue, b: BlockValue)
    requires Mined(h, before, difficulty, a) && Mined(h, before, difficulty, b)
    ensures a == b
  {
    assert a.nonce > before.nonce ==> a.hash == DigestAt(h, before, a.nonce);
    assert b.nonce > before.nonce ==> b.hash == DigestAt(h, before, b.nonce);
  }

  /** With difficulty 0 mining changes nothing, stale hash included. */
  lemma MinedAtZeroUnchanged(h: Hasher, before: BlockValue, after: BlockValue)
    requires Mined(h, before, 0, after)
    ensures after == before
  {
    ZeroDifficultyAlwaysMet(before.hash);
  }

  /**
   * The fields right after `new Block(index, timestamp, data, previousHash)`:
   * the hash is taken while `nonce` is still unassigned, so its text is
   * "undefined", and only then is `nonce` set to 0.
   */
  function Constructed(h: Hasher, index: nat, timestamp: string, data: Json, previousHash: string): BlockValue
  {
    BlockValue(index, timestamp, data, previousHash, 0,
               h.sha256(Preimage(h, index, previousHash, timestamp, data, Undefined)))
  }

  /** The block `createGenesisBlock` builds. */
  function GenesisValue(h: Hasher): BlockValue
  {
    Constructed(h, 0, "01/01/2017", JString("Genesis block"), "0")
  }

  /**
   * `nonce++` on a JavaScript number stops advancing at 2^53: from there on
   * the increment rounds back to the same value, so no larger nonce is ever
   * tried.
   */
  const NonceLimit: nat := 0x20_0000_0000_0000

  /** The difficulty every `Blockchain` is created with. */
  const InitialDifficulty: nat := 5

  /**
   * Mining terminates: either the cached hash already meets the target, or
   * some larger nonce the increment can still reach yields a digest that
   * does. `mineBlock` itself has no such guard and searches forever when
   * neither holds.
   */
  ghost predicate Mineable(h: Hasher, v: BlockValue, difficulty: nat)
  {
    MeetsDifficulty(v.hash, difficulty) ||
    exists k: nat :: v.nonce < k <= NonceLimit && MeetsDifficulty(DigestAt(h, v, k), difficulty)
  }

  /** The fields of the blocks `bs`, in order. */
  ghost function ValuesOf(bs: seq<Block>): (vs: seq<BlockValue>)
    reads bs
    ensures |vs| == |bs|
    ensures forall i :: 0 <= i < |bs| ==> vs[i] == bs[i].Value()
  {
    if bs == [] then [] else ValuesOf(bs[..|bs| - 1]) + [bs[|bs| - 1].Value()]
  }

  /** The two checks `isChainValid` makes of block `cur` and its predecessor `prev`. */
  predicate LinkOk(h: Hasher, prev: BlockValue, cur: BlockValue)
  {
    cur.hash == Digest(h, cur) && cur.previousHash == prev.hash
  }

  /** What `isChainValid` accepts: every block after the genesis block passes both checks. */
  predicate ChainValid(h: Hasher, vs: seq<BlockValue>)
  {
    forall i :: 1 <= i < |vs| ==> LinkOk(h, vs[i - 1], vs[i])
  }

  class Block {
    var index: nat
    var timestamp: string
    var data: Json
    var previousHash: string
    var nonce: nat
    var hash: string

    function Value(): BlockValue
      reads this
    {
      BlockValue(index, timestamp, data, previousHash, nonce, hash)
    }

    /** `new Block(index, timestamp, data, previousHash = '')`. */
    constructor (h: Hasher, index: nat, timestamp: string, data: Json, previousHash: string := "")
      ensures Value() == Constructed(h, index, timestamp, data, previousHash)
    {
      this.index := index;
      this.timestamp := timestamp;
      this.data := data;
      this.previousHash := previousHash;
      this.hash := h.sha256(Preimage(h, index, previousHash, timestamp, data, Undefined));
      this.nonce := 0;
    }

    function CalculateHash(h: Hasher): string
      reads this
    {
      Digest(h, Value())
    }

    /**
     * `mineBlock(difficulty)`: while the cached hash misses the target,
     * increment the nonce and recompute the hash. The loop tests the cached
     * hash first, so a hash that already meets the target is kept even if it
     * is stale.
     */
    method MineBlock(h: Hasher, difficulty: nat)
      requires Mineable(h, Value(), difficulty)
      modifies this
      ensures Mined(h, old(Value()), difficulty, Value())
    {
      ghost var start := Value();
      var stringOfZeros := Zeros(difficulty);
      ghost var target: nat := nonce;
      if !MeetsDifficulty(hash, difficulty) {
        target :| start.nonce < target <= NonceLimit && MeetsDifficulty(DigestAt(h, start, target), difficulty);
      }
      while Prefix(hash, difficulty) != stringOfZeros
        invariant Searching(h, start, difficulty, target, BlockValue(index, timestamp, data, previousHash, nonce, hash))
        decreases target - nonce
      {
        SearchStep(h, start, difficulty, target, BlockValue(index, timestamp, data, previousHash, nonce, hash));
        nonce := nonce + 1;
        hash := CalculateHash(h);
        assert hash == DigestAt(h, start, nonce);
      }
      SearchDone(h, start, difficulty, target, BlockValue(index, timestamp, data, previousHash, nonce, hash));
    }
  }

  class Blockchain {
    var chain: seq<Block>
    var difficulty: nat

    /** The chain is never empty: the constructor seeds it and nothing removes blocks. */
    ghost predicate Valid()
      reads this
    {
      |chain| > 0
    }

    /** The fields of every block on the chain, in order. */
    ghost function Values(): (vs: seq<BlockValue>)
      reads this, chain
      ensures |vs| == |chain|
      ensures forall i :: 0 <= i < |chain| ==> vs[i] == chain[i].Value()
    {
      ValuesOf(chain)
    }

    constructor (h: Hasher)
      ensures Valid() && |chain| == 1 && fresh(chain[0])
      ensures chain[0].Value() == GenesisValue(h)
      ensures difficulty == InitialDifficulty
      ensures ChainValid(h, Values())
    {
      var genesis := CreateGenesisBlock(h);
      chain := [genesis];
      difficulty := InitialDifficulty;
    }

    /** `createGenesisBlock()`: index 0, the fixed date and payload, previous hash "0", never mined. */
    static method CreateGenesisBlock(h: Hasher) returns (genesis: Block)
      ensures fresh(genesis)
      ensures genesis.Value() == GenesisValue(h)
    {
      genesis := new Block(h, 0, "01/01/2017", JString("Genesis block"), "0");
    }

    /** `getLatestBlock()`: the last element of the chain. */
    function GetLatestBlock(): (latest: Block)
      reads this
      requires Valid()
    {
      chain[|chain| - 1]
    }

    /**
     * `addBlock(newBlock)`: link the block to the current tip, mine it at
     * the chain's difficulty and push it. The caller owns `newBlock`; if it
     * is already on the chain, the fields of that position change too.
     */
    method AddBlock(h: Hasher, newBlock: Block)
      requires Valid()
      requires Mineable(h, newBlock.Value().(previousHash := GetLatestBlock().hash), difficulty)
      modifies this, newBlock
      ensures Valid() && difficulty == old(difficulty)
      ensures chain == old(chain) + [newBlock]
      ensures Mined(h, old(newBlock.Value()).(previousHash := old(GetLatestBlock().hash)), difficulty, newBlock.Value())
      ensures GetLatestBlock() == newBlock
      ensures forall b :: b in old(chain) && b != newBlock ==> b.Value() == old(b.Value())
      ensures newBlock !in old(chain) ==> Values() == old(Values()) + [newBlock.Value()]
      ensures newBlock !in old(chain) ==>
                (ChainValid(h, Values()) <==> old(ChainValid(h, Values())) && newBlock.hash == newBlock.CalculateHash(h))
      ensures old(ChainValid(h, Values())) && newBlock !in old(chain) && newBlock.nonce > old(newBlock.nonce)
              ==> ChainValid(h, Values())
    {
      ghost var before := Values();
      newBlock.previousHash := GetLatestBlock().hash;
      ghost var linked := newBlock.Value();
      assert linked == old(newBlock.Value()).(previousHash := old(GetLatestBlock().hash));
      newBlock.MineBlock(h, difficulty);
      assert Mined(h, linked, difficulty, newBlock.Value());
      chain := chain + [newBlock];
      if newBlock !in old(chain) {
        forall i | 0 <= i < |before|
          ensures Values()[i] == before[i]
        {
          assert chain[i] == old(chain)[i] != newBlock;
        }
        assert Values() == before + [newBlock.Value()];
        AppendMined(h, before, linked, difficulty, newBlock.Value());
      }
    }

    /**
     * `isChainValid()`: scan positions 1 .. length-1, returning false at the
     * first block whose cached hash is not its digest or whose previous hash
     * is not its predecessor's hash. Reads the chain and changes nothing.
     */
    method IsChainValid(h: Hasher) returns (valid: bool)
      ensures valid <==> forall i :: 1 <= i < |chain| ==>
                chain[i].hash == chain[i].CalculateHash(h) && chain[i].previousHash == chain[i - 1].hash
      ensures valid == ChainValid(h, Values())
    {
      var i := 1;
      while i < |chain|
        invariant 1 <= i <= |chain| || (|chain| == 0 && i == 1)
        invariant forall j :: 1 <= j < i ==>
                    chain[j].hash == chain[j].CalculateHash(h) && chain[j].previousHash == chain[j - 1].hash
      {
        var currentBlock := chain[i];
        var previousBlock := chain[i - 1];
        if currentBlock.hash != currentBlock.CalculateHash(h) {
          return false;
        }
        if currentBlock.previousHash != previousBlock.hash {
          return false;
        }
        i := i + 1;
      }
      return true;
    }
  }

  /**
   * A chain extended by one block is valid exactly when the shorter chain is
   * valid and the new block passes both checks against the old tip.
   */
  lemma {:induction false} ChainValidAppend(h: Hasher, vs: seq<BlockValue>, b: BlockValue)
    ensures ChainValid(h, vs + [b]) <==> ChainValid(h, vs) && (|vs| > 0 ==> LinkOk(h, vs[|vs| - 1], b))
  {
    var ws := vs + [b];
    assert forall i :: 0 <= i < |vs| ==> ws[i] == vs[i];
    if ChainValid(h, vs) && (|vs| > 0 ==> LinkOk(h, vs[|vs| - 1], b)) {
      forall i | 1 <= i < |ws|
        ensures LinkOk(h, ws[i - 1], ws[i])
      {
        if i < |vs| {
          assert LinkOk(h, vs[i - 1], vs[i]);
        }
      }
    }
    if ChainValid(h, ws) {
      forall i | 1 <= i < |vs|
        ensures LinkOk(h, vs[i - 1], vs[i])
      {
        assert LinkOk(h, ws[i - 1], ws[i]);
      }
      if |vs| > 0 {
        assert LinkOk(h, ws[|vs| - 1], ws[|vs|]);
      }
    }
  }

  /**
   * What `addBlock` does to validity, on values: a block linked to the tip
   * and then mined extends a chain to a valid one exactly when the chain was
   * valid and the mined block's hash is its digest, which mining that
   * iterated at least once guarantees.
   */
  lemma AppendMined(h: Hasher, vs: seq<BlockValue>, linked: BlockValue, difficulty: nat, mined: BlockValue)
    requires |vs| > 0 && linked.previousHash == vs[|vs| - 1].hash
    requires Mined(h, linked, difficulty, mined)
    ensures ChainValid(h, vs + [mined]) <==> ChainValid(h, vs) && mined.hash == Digest(h, mined)
    ensures ChainValid(h, vs) && mined.nonce > linked.nonce ==> ChainValid(h, vs + [mined])
  {
    ChainValidAppend(h, vs, mined);
  }
}
