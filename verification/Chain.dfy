/** Blocks, their parsed bodies, and atomic chain updates. */
module Chain {
  import opened Prelude

  /** Compared for equality only, so the text is kept in a wrapper. */
  datatype Hash = Hash(text: string)

  /** The empty string, which stands for "no block". */
  const NO_HASH := Hash("")

  datatype RawOutpoint = RawOutpoint(txHash: string, index: nat)

  datatype RawTxIn = RawTxIn(previousOutPoint: RawOutpoint, pubKey: string)

  datatype RawTxOut = RawTxOut(address: string, denomination: nat, lock: Option<nat>)

  datatype RawTx = RawTx(
    hash: string,
    txType: nat,
    etxType: Option<nat>,
    to: Option<string>,
    value: Option<nat>,
    gas: Option<nat>,
    input: Option<Bytes>,
    inputs: seq<RawTxIn>,
    outputs: seq<RawTxOut>)

  /** `raw` is None when the body is absent (a block read back from the blocks
      table) or does not parse. */
  datatype Block = Block(height: nat, hash: Hash, parentHash: Hash, raw: Option<seq<RawTx>>)

  /** What the blocks table keeps of a block. */
  function Spine(b: Block): Block { b.(raw := None) }

  /** Rollback is ordered from the tip down, apply from the ancestor up. */
  datatype Update = Update(rollback: seq<Block>, apply: seq<Block>)

  /** Every block the node ever serves, by hash. */
  type Universe = map<Hash, Block>

  /** The environment assumptions: a hash is not empty and determines its block,
      and a child is one higher than its parent. */
  ghost predicate ValidUniverse(world: Universe) {
    && (forall h | h in world :: h != NO_HASH && world[h].hash == h)
    && (forall h {:trigger world[h].parentHash in world} | h in world && world[h].parentHash in world ::
          world[h].height == world[world[h].parentHash].height + 1)
  }

  /** What BlocksByRange(from, to) answers; None is a failed call. */
  type Ranges = (nat, nat) -> Option<seq<Block>>

  /** How many heights the catch-up and the backfill ask for at a time. */
  const BATCH := 100

  /** b was served by the node, body included. */
  ghost predicate Served(world: Universe, b: Block) {
    b.hash in world && b == world[b.hash]
  }

  /** b has the hash, parent and height of a served block; the body may be gone. */
  ghost predicate Known(world: Universe, b: Block) {
    b.hash in world && Spine(b) == Spine(world[b.hash])
  }

  /** Each block's parent is the block before it. */
  ghost predicate Linked(blocks: seq<Block>) {
    forall i | 0 < i < |blocks| :: blocks[i].parentHash == blocks[i - 1].hash
  }

  /** A canonical chain: served blocks, each the child of the one before. */
  ghost predicate Canonical(world: Universe, chain: seq<Block>) {
    && (forall i | 0 <= i < |chain| :: Served(world, chain[i]))
    && Linked(chain)
  }

  function TipHash(chain: seq<Block>): Hash {
    if chain == [] then NO_HASH else chain[|chain| - 1].hash
  }

  function TipHeight(chain: seq<Block>): nat {
    if chain == [] then 0 else chain[|chain| - 1].height
  }

  /** Heights along a chain are consecutive, so no two positions share a hash. */
  lemma {:induction false} CanonicalHeights(world: Universe, chain: seq<Block>, i: nat, j: nat)
    requires ValidUniverse(world) && Canonical(world, chain)
    requires i <= j < |chain|
    ensures chain[j].height == chain[i].height + (j - i)
    ensures i < j ==> chain[i].hash != chain[j].hash
    decreases j
  {
    if i < j {
      CanonicalHeights(world, chain, i, j - 1);
      assert chain[j].parentHash == chain[j - 1].hash;
      assert Served(world, chain[j]) && Served(world, chain[j - 1]);
    }
  }
}
