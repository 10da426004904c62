/** The in-process store: a map of blocks and a tip hash. */
module MemoryStore {
  import opened Prelude
  import opened Chain
  import opened Stores

  class Memory {
    var blocks: map<Hash, Block>
    var tip: Hash
    ghost var chain: seq<Block>

    ghost predicate Valid(world: Universe)
      reads this
    {
      && Canonical(world, chain)
      && Holds(blocks, chain)
      && tip == TipHash(chain)
    }

    constructor ()
      ensures forall world :: Valid(world)
      ensures chain == []
    {
      blocks, tip := map[], NO_HASH;
      chain := [];
    }

    method Tip() returns (b: Option<Block>)
      ensures forall world | ValidUniverse(world) && Valid(world) ::
                if chain == [] then b.None? else b.Some? && Spine(b.value) == Spine(chain[|chain| - 1])
    {
      if tip == NO_HASH || tip !in blocks {
        b := None;
      } else {
        b := Some(blocks[tip]);
      }
      TipIsSet();
    }

    lemma {:induction false} TipIsSet()
      ensures forall world | ValidUniverse(world) && Valid(world) && chain != [] :: tip != NO_HASH && tip in blocks
    {}

    method RecentBlocks(ghost world: Universe, n: nat) returns (out: seq<Block>)
      requires ValidUniverse(world) && Valid(world)
      ensures Spines(out) == Spines(Recent(chain, n))
    {
      out := [];
      var cur := tip;
      WalkStep(world, blocks, chain, out, cur);
      while |out| < n && cur != NO_HASH && cur in blocks
        invariant |out| <= n && Walked(chain, out, cur)
        invariant cur in blocks <==> |out| < |chain|
        invariant |out| < |chain| ==> cur != NO_HASH
        decreases n - |out|
      {
        WalkStep(world, blocks, chain, out, cur);
        out := out + [blocks[cur]];
        cur := blocks[cur].parentHash;
        WalkStep(world, blocks, chain, out, cur);
      }
      WalkEnd(chain, out, cur, n);
    }

    method ApplyUpdate(ghost world: Universe, u: Update) returns (err: bool)
      requires ValidUniverse(world) && Valid(world) && UpdateFrom(world, u)
      modifies this
      ensures Valid(world)
      ensures err <==> !Connects(TipHash(old(chain)), u)
      ensures err ==> blocks == old(blocks) && tip == old(tip) && chain == old(chain)
      ensures !err ==> chain == NextChain(old(chain), u)
    {
      if |u.apply| == 0 {
        return true;
      }
      var ok := Validate(tip, u);
      if !ok {
        return true;
      }
      Mutate(world, u);
      err := false;
    }

    /** The part of ApplyUpdate after validation. */
    method Mutate(ghost world: Universe, u: Update)
      requires ValidUniverse(world) && Valid(world) && UpdateFrom(world, u)
      requires Connects(TipHash(chain), u)
      modifies this
      ensures Valid(world) && chain == NextChain(old(chain), u)
    {
      hide ValidUniverse, Canonical, HoldsFrom, UpdateFrom, Connects, BlocksMoved, NextChain, TipHash;
      HeldBlocksAreKnown(world, blocks, chain);
      var next := MoveBlocks(world, blocks, u, true);
      NextBlocks(world, blocks, next, chain, 0, u);
      NextChainIsCanonical(world, chain, u);
      blocks := next;
      tip := u.apply[|u.apply| - 1].hash;
      chain := NextChain(chain, u);
    }
  }
}
