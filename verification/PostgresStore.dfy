/** The Postgres store: blocks, tip and UTXO tables change in one transaction. */
module PostgresStore {
  import opened Prelude
  import opened Chain
  import opened Tables
  import opened Ledger
  import opened Stores
  import opened QiDecode
  import opened Decoder

  /** How the database answers a transaction that got as far as its commit: it commits,
      it fails and rolls back, or it commits but the reply does not arrive. */
  datatype Reply = Committed | Aborted | Lost

  lemma {:induction false} EraseNothing(t: Contents, rollback: seq<Block>)
    ensures rollback == [] ==> Erase(t, HeightsOf(rollback)) == t
  {}

  class Postgres {
    const rules: Consensus
    const session: Session
    var blocks: map<Hash, Block>
    var tip: Option<Hash>
    ghost var chain: seq<Block>

    ghost predicate Valid(world: Universe)
      reads this
    {
      && Canonical(world, chain)
      && Holds(blocks, chain)
      && tip == if chain == [] then None else Some(TipHash(chain))
    }

    ghost function Book(): Book
      reads this, session
    {
      Stores.Book(chain, session.View())
    }

    constructor (rules: Consensus)
      ensures fresh(session)
      ensures this.rules == rules
      ensures forall world :: Valid(world)
      ensures Book() == Stores.Book([], EMPTY)
    {
      this.rules := rules;
      session := new Session();
      blocks, tip := map[], None;
      chain := [];
    }

    method Tip(ghost world: Universe) returns (b: Option<Block>)
      requires Valid(world)
      ensures b == if chain == [] then None else Some(Spine(chain[|chain| - 1]))
    {
      if tip.Some? && tip.value in blocks {
        b := Some(Spine(blocks[tip.value]));
      } else {
        b := None;
      }
    }

    /** The recursive query: its first row, the tip, is produced whatever n is, and
        only spine columns are selected. */
    method RecentBlocks(ghost world: Universe, n: int) returns (out: seq<Block>)
      requires ValidUniverse(world) && Valid(world)
      ensures out == Spines(Recent(chain, if n < 1 then 1 else n))
    {
      hide ValidUniverse, Canonical, HoldsFrom;
      ghost var m: nat := if n < 1 then 1 else n;
      out := [];
      if tip.None? {
        return;
      }
      var cur := tip.value;
      WalkStep(world, blocks, chain, out, cur);
      while cur in blocks && (|out| == 0 || |out| < n)
        invariant |out| <= m && Walked(chain, out, cur)
        invariant cur in blocks <==> |out| < |chain|
        invariant forall i | 0 <= i < |out| :: out[i].raw.None?
        decreases m - |out|
      {
        WalkStep(world, blocks, chain, out, cur);
        out := out + [Spine(blocks[cur])];
        cur := blocks[cur].parentHash;
        WalkStep(world, blocks, chain, out, cur);
      }
      WalkEnd(chain, out, cur, m);
      assert out == Spines(out);
    }

    /** The statements of the transaction up to its commit. */
    method RunTransaction(ghost world: Universe, u: Update) returns (ok: bool, next: map<Hash, Block>)
      requires Valid(world) && UpdateFrom(world, u) && u.apply != []
      modifies session
      ensures ok == Commit(Decode(rules), old(Book()), u).Some?
      ensures ok ==> session.View() == Commit(Decode(rules), old(Book()), u).value.tables
      ensures ok ==> BlocksMoved(world, blocks, next, u)
    {
      hide ValidUniverse, Erase, HeightsOf, NextChain, BlocksMoved, Canonical, HoldsFrom, UpdateFrom, Known, WalkDown;
      next := blocks;
      var cur := if tip.Some? then tip.value else NO_HASH;
      ok := Validate(cur, u);
      if !ok {
        return;
      }
      EraseNothing(session.View(), u.rollback);
      if |u.rollback| > 0 {
        DecodeRollback(session, u.rollback);
      }
      HeldBlocksAreKnown(world, blocks, chain);
      next := MoveBlocks(world, blocks, u, false);
      ok := HeightsFit(u.apply);
      if !ok {
        return;
      }
      ok := DecodeApply(rules, session, u.apply);
    }

    /** Moves blocks, tip and the abstract chain when the transaction commits. */
    method Advance(ghost world: Universe, u: Update, next: map<Hash, Block>)
      requires ValidUniverse(world) && Valid(world) && UpdateFrom(world, u)
      requires Connects(TipHash(chain), u) && BlocksMoved(world, blocks, next, u)
      modifies this
      ensures Valid(world) && chain == NextChain(old(chain), u)
    {
      hide ValidUniverse, Canonical, HoldsFrom, UpdateFrom, Connects, BlocksMoved, NextChain, TipHash;
      NextBlocks(world, blocks, next, chain, 0, u);
      NextChainIsCanonical(world, chain, u);
      blocks := next;
      tip := Some(u.apply[|u.apply| - 1].hash);
      chain := NextChain(chain, u);
    }

    method ApplyUpdate(ghost world: Universe, u: Update, reply: Reply) returns (err: bool)
      requires ValidUniverse(world) && Valid(world) && UpdateFrom(world, u)
      modifies this, session
      ensures Valid(world)
      ensures var next := Commit(Decode(rules), old(Book()), u);
              if next.None? || reply.Aborted?
              then err && Book() == old(Book()) && blocks == old(blocks) && tip == old(tip)
              else err == reply.Lost? && Book() == next.value
    {
      if |u.apply| == 0 {
        return true;
      }
      hide ValidUniverse, Canonical, HoldsFrom, UpdateFrom, BlocksMoved, Linked, WalkDown, Erase, HeightsOf;
      // The snapshot an aborted transaction goes back to.
      var utxos, conversions := session.utxos, session.conversions;
      var ok, next := RunTransaction(world, u);
      if !ok || reply.Aborted? {
        session.utxos, session.conversions := utxos, conversions;
        return true;
      }
      Advance(world, u, next);
      err := reply.Lost?;
    }

    /** The height column is a BIGINT: an insert beyond its range fails. */
    method HeightsFit(blocks: seq<Block>) returns (ok: bool)
      ensures ok <==> forall b <- blocks :: b.height <= MAX_INT64
    {
      for n := 0 to |blocks|
        invariant forall i | 0 <= i < n :: blocks[i].height <= MAX_INT64
      {
        if blocks[n].height > MAX_INT64 {
          return false;
        }
      }
      ok := true;
    }
  }
}
