# Hash-linked block chain with proof-of-work mining

A Dafny model of the block chain in `main.js`: a `Block` object whose cached
`hash` is a SHA-256 digest of its index, previous hash, timestamp, serialised
payload and nonce; a `mineBlock` loop that increments the nonce until the hash
starts with `difficulty` zeros; and a `Blockchain` object that seeds itself
with a fixed genesis block, links and mines each new block before pushing it,
and validates the chain by re-deriving every non-genesis block's hash and
checking every previous-hash link.

Files:

- `encoding.dfy` (module `Encoding`): the JavaScript string machinery the
  hash is built from — the decimal text of a number (`Decimal`), the string of
  `d` zeros (`Zeros`, i.e. `Array(d + 1).join("0")`), `substring(0, d)`
  (`Prefix`), the mining exit test (`MeetsDifficulty`), a JSON payload type
  and the `Hasher` pair standing for crypto-js `SHA256` and `JSON.stringify`.
- `blockchain.dfy` (module `Blocks`): `BlockValue` (a snapshot of a block's
  six fields), the hash input `HashInput` (built by `Preimage`) and digest `Digest`, the `Block` and
  `Blockchain` classes with their fields updated in place, the outcome of
  mining `Mined`, the validity predicate `ChainValid` and the lemmas that
  relate appending to validity.
- `properties.dfy` (module `ChainProperties`): what the validator detects and
  what it cannot, stated over chain snapshots and single-field writes
  (`Edit`, `Tamper`).

How the model treats the library calls: SHA-256 and `JSON.stringify` are
function values in a `Hasher` that every hashing operation takes as a
parameter; nothing is assumed about them except where a lemma says
`Injective(h.sha256)` explicitly. The concatenation
`index + previousHash + timestamp + JSON.stringify(data) + nonce` is modelled
part by part: a number contributes `Decimal(n)`, which is proved to be the
canonical decimal numeral of `n` (it reads back as `n`, has no leading zero,
and every such numeral is the `Decimal` of its value), so two different
numbers never contribute the same text. The constructor hashes before `nonce`
is assigned, so that hash is taken over the text `"undefined"`.
`Block.CalculateHash` is `Digest` of the block's current fields; what it
depends on is stated by `PreimageSeparates`, `DigestSeparates` and `Rehashed`.

Consequences the model makes precise:

- Assuming SHA-256 is injective, a construction-time hash is never the
  digest of any block (`ConstructionHashStale`), so the genesis block never
  passes the hash check and a genesis-only chain is valid only because
  position 0 is exempt (`GenesisOnlyByExemption`).
- `mineBlock` tests the cached hash before recomputing it. `AddBlock` promises
  that when mining did not iterate the appended block keeps the hash it came
  with, and that the extended chain is valid exactly when the old one was and
  the appended block's hash is its digest. For a block fresh from `new Block`,
  whose construction hash happens to meet the target, that hash is stale
  (assuming SHA-256 is injective, `ConstructionHashStale`), so the chain fails
  validation (`UnminedBlockBreaksChain`). `AddBlock` therefore promises a
  valid chain only when mining iterated at least once.
- Assuming SHA-256 is injective, the validator sees any single-field write to
  a block after the genesis block that is not followed by rehashing
  (`UnrehashedTamperDetected`), and any rehashed one as long as a later block
  links to it (`RehashedTamperDetected`). Without
  any assumption, it cannot see a write to the genesis block that keeps the
  cached hash, or a rehashed write to the last block that keeps its previous
  hash (`GenesisTamperUndetected`, `RehashedTipTamperUndetected`).

## Model

| member | source | states |
|---|---|---|
| `Encoding.Decimal` | main.js:24 | the text a non-negative integer contributes to the hash input is a canonical numeral: non-empty, digits only, no leading zero unless it is `"0"`, one character exactly for numbers below 10 |
| `Encoding.DecimalRoundTrip` | main.js:24 | reading the numeral back as a decimal number gives the number |
| `Encoding.CanonicalRoundTrip` | main.js:24 | every canonical numeral is the text of the number it denotes, so for integers up to 2^53, where a JavaScript number is exact, `Decimal` produces exactly the numeral JavaScript writes |
| `Encoding.DecimalInjective` | main.js:24 | two different numbers never have the same text |
| `Encoding.Zeros` | main.js:29 | `Array(d + 1).join("0")` is exactly `d` characters, all `'0'` |
| `Encoding.PrefixIsSubstring` | main.js:30 | `hash.substring(0, d)` is a prefix of the hash, of length `d` or the whole hash when it is shorter |
| `Encoding.MeetsDifficultyIff` | main.js:29-30 | the loop's exit test `hash.substring(0, d) === zeros` holds iff the hash has at least `d` characters and the first `d` are all `'0'` |
| `Encoding.ZeroDifficultyAlwaysMet` | main.js:29-30 | with difficulty 0 every hash meets the target, so the loop exits at once |
| `Blocks.Block.constructor` | main.js:11-18 | fields set from the arguments, `previousHash` defaulting to `''`, `nonce` 0, and `hash` the digest taken over the nonce text `"undefined"` |
| `Blocks.SearchStep` | main.js:30-33 | one pass of the loop body: while the hash misses the target the bounding nonce is not yet reached, and incrementing the nonce and recomputing the hash keeps every field but `nonce` and `hash`, with every nonce tried so far missing the target |
| `Blocks.SearchDone` | main.js:30 | when the exit test holds, the search so far is a complete mining run |
| `Blocks.Block.MineBlock` | main.js:27-36 | the block is `Mined`: only `nonce` and `hash` change; the hash meets the difficulty; the nonce never decreases; if it did not move the hash is the one the block came with, possibly stale; if it rose the hash is `calculateHash()` of the final fields, the old hash missed the target, the nonce is at most 2^53, and every nonce in between missed the target, so the first satisfying nonce is taken |
| `Blocks.MinedUnique` | main.js:27-36 | mining is deterministic: from the same block and difficulty there is exactly one outcome |
| `Blocks.MinedAtZeroUnchanged` | main.js:29-33 | with difficulty 0 mining changes nothing, a stale hash included |
| `Blocks.Blockchain.constructor` | main.js:41-44 | a new chain holds exactly one fresh block, the genesis block, has difficulty 5 and is valid |
| `Blocks.Blockchain.CreateGenesisBlock` | main.js:47-50 | a fresh block with index 0, timestamp "01/01/2017", payload "Genesis block", previous hash "0", nonce 0 and its construction-time hash |
| `Blocks.Blockchain.AddBlock` | main.js:55-71 | the chain becomes the old chain plus the new block, so `getLatestBlock()` then returns it and the next `addBlock` links to it; the block is first given the old tip's hash as previous hash and then `Mined` at the chain's difficulty (stale hash kept when mining did not iterate, first satisfying nonce otherwise); no other block changes; when the block was not already on the chain, the chain is valid afterwards iff it was valid before and the block's hash is its digest, so a valid chain stays valid when mining iterated |
| `Blocks.Blockchain.IsChainValid` | main.js:76-94 | returns true iff every block at positions 1..length-1 has `hash == calculateHash()` and `previousHash` equal to its predecessor's `hash`; position 0 is never checked; nothing is modified |
| `Blocks.ChainValidAppend` | main.js:62-94 | a chain extended by one block is valid iff the shorter chain is valid and the new block passes both checks against the old tip |
| `Blocks.AppendMined` | main.js:62-71 | a block linked to the tip and then mined makes the extended chain valid iff the chain was valid and the block's hash is its digest; if mining iterated, a valid chain stays valid |
| `ChainProperties.Rehashed` | main.js:108 | recomputing the hash makes a block hash-consistent and changes no other field |
| `ChainProperties.ConstructionHashStale` | main.js:16-17 | assuming SHA-256 is injective, the hash set at construction differs from `calculateHash()` of any block, whatever its fields later become |
| `ChainProperties.GenesisOnlyByExemption` | main.js:47-49 | assuming SHA-256 is injective, the genesis block fails the hash check, yet the genesis-only chain is valid |
| `ChainProperties.UnminedBlockBreaksChain` | main.js:62-67 | assuming SHA-256 is injective, appending a block that still carries a construction-time hash to a non-empty chain makes it invalid |
| `ChainProperties.Tamper` | main.js:107 | an outside write to one field of a block gives that field the written value and leaves the other four fields and the cached hash as they were |
| `ChainProperties.PreimageSeparates` | main.js:23-25 | changing any one field (index, previous hash, timestamp, serialised payload or nonce) changes the string `calculateHash` hashes |
| `ChainProperties.DigestSeparates` | main.js:24 | assuming SHA-256 is injective, changing any one field changes `calculateHash()` |
| `ChainProperties.UnrehashedTamperDetected` | main.js:82-85 | assuming SHA-256 is injective, a write to any one field of a non-genesis block without recomputing its hash fails that block's hash check and makes a valid chain invalid |
| `ChainProperties.RehashedTamperDetected` | main.js:107-110 | assuming SHA-256 is injective, a write to any one field of a non-genesis, non-tip block followed by recomputing its hash leaves it hash-consistent but breaks its successor's previous-hash link, so a valid chain becomes invalid |
| `ChainProperties.GenesisTamperUndetected` | main.js:77-78 | a write to the genesis block that keeps its cached hash leaves a valid chain valid, because position 0 is never checked |
| `ChainProperties.RehashedTipTamperUndetected` | main.js:78-91 | a write to the last block that keeps its previous hash, followed by recomputing its hash, leaves a valid chain valid, because no later block records that hash |

## Left out

- The body of crypto-js `SHA256` (main.js:1, 24) and of `JSON.stringify`: both are parameters (`Hasher`); injectivity of SHA-256 is a hypothesis of the lemmas that need it.
- JavaScript number formatting beyond non-negative integers up to 2^53: `index` and `nonce` are naturals written in plain decimal. The nonce never exceeds 2^53 (`Mineable`, `Mined`), but `index` is unbounded: above 2^53 the model writes an index with its exact digits, while JavaScript first rounds it to a double and prints the shortest digits that round-trip, padded with zeros (so `String(2**64)` is `"18446744073709552000"`), and from 1e21 on uses exponent notation. For such indices the model hashes a different string from the source. Fractions and negative or omitted indices are not modelled.
- Payloads are a JSON tree with integer numbers; floating-point numbers are not modelled.
- The `console.log` calls (main.js:35, 99, 101, 104, 110) are observational and left out.
- The driver statements (main.js:97-110) are not modelled as a program; their tamper scenario is the lemma `RehashedTamperDetected` with a `SetData` edit at position 1.
- Blocks.Block.MineBlock: requires that the cached hash already meets the target or that some nonce above the current one and at most 2^53 yields a digest that does. The source has no such guard and searches forever otherwise; in particular `nonce++` on a JavaScript number stops advancing at 2^53, after which the source re-hashes the same text forever. That saturated state, and termination of the search in general, are not modelled.
- Blocks.Blockchain.AddBlock: carries the same mining hypothesis, for the block after its previous hash is set; its "other blocks unchanged" and validity promises are conditional on the block not already being on the chain, since the source lets a caller pass a block that is.
- Blocks.Block.MineBlock: difficulty is a natural number; negative or fractional difficulties (which make `Array(difficulty + 1)` throw or `substring` clamp) are not modelled.
- Blocks.Blockchain.GetLatestBlock: requires a non-empty chain; on an empty array the source returns `undefined`, which no sequence of operations here can reach. It carries no contract of its own; what it returns after `addBlock` is stated by `AddBlock`.
- Any outside code writing to block fields or to `difficulty` other than the tamper writes is not modelled; the tamper writes are modelled on chain snapshots, one field at a time (a write to several fields at once can, in principle, leave the hash input unchanged).
