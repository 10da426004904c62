/** The follower object: a window of recent blocks over a store, kept in step with
    the node's heads. */
module FollowerObject {
  import opened Prelude
  import opened Chain
  import opened Stores
  import opened PostgresStore
  import opened Decoder
  import opened FollowerSpec

  function After(collected: seq<Block>, rest: Option<seq<Block>>): Option<seq<Block>> {
    if rest.None? then None else Some(collected + rest.value)
  }

  lemma {:induction false} AfterNothing(rest: Option<seq<Block>>)
    ensures After([], rest) == rest
  {
    if rest.Some? {
      assert [] + rest.value == rest.value;
    }
  }

  lemma {:induction false} HashesSnoc(blocks: seq<Block>, n: nat)
    requires n < |blocks|
    ensures (set b <- blocks[..n + 1] :: b.hash) == (set b <- blocks[..n] :: b.hash) + {blocks[n].hash}
  {}

  class Follower {
    const store: Postgres
    const maxDepth: nat
    var window: map<Hash, Block>
    var tip: Hash
    var tipHeight: nat

    ghost function State(): System
      reads this, store, store.session
    {
      System(store.Book(), FollowerState(window, tip, tipHeight))
    }

    ghost predicate Valid(world: Universe)
      reads this, store
    {
      store.Valid(world) && WindowKnown(world, window)
    }

    /** Rebuilds the window from the store. */
    constructor (ghost world: Universe, store: Postgres, maxDepth: nat)
      requires ValidUniverse(world) && store.Valid(world)
      ensures this.store == store && this.maxDepth == maxDepth
      ensures Valid(world)
      ensures State() == System(old(store.Book()), Resume(store.chain, maxDepth))
    {
      this.store := store;
      this.maxDepth := maxDepth;
      window, tip, tipHeight := map[], NO_HASH, 0;
      new;
      var recent := store.RecentBlocks(world, maxDepth);
      RecentIsKnown(world, store.chain, if maxDepth < 1 then 1 else maxDepth);
      PutBlocks(world, recent);
      if |recent| > 0 {
        tip := recent[0].hash;
        tipHeight := recent[0].height;
      }
    }

    method PutBlocks(ghost world: Universe, blocks: seq<Block>)
      requires WindowKnown(world, window)
      requires forall i | 0 <= i < |blocks| :: Known(world, blocks[i])
      requires ValidUniverse(world)
      modifies this`window
      ensures window == PutAll(old(window), blocks) && WindowKnown(world, window)
    {
      for n := 0 to |blocks|
        invariant window == PutAll(old(window), blocks[..n]) && WindowKnown(world, window)
      {
        assert blocks[..n + 1][..n] == blocks[..n];
        assert Known(world, blocks[n]);
        window := window[blocks[n].hash := blocks[n]];
      }
      assert blocks[..|blocks|] == blocks;
    }

    method DeleteBlocks(ghost world: Universe, blocks: seq<Block>)
      requires WindowKnown(world, window)
      modifies this`window
      ensures window == old(window) - (set b <- blocks :: b.hash) && WindowKnown(world, window)
    {
      for n := 0 to |blocks|
        invariant window == old(window) - (set b <- blocks[..n] :: b.hash)
        invariant WindowKnown(world, window)
      {
        HashesSnoc(blocks, n);
        window := window - {blocks[n].hash};
      }
      assert blocks[..|blocks|] == blocks;
    }

    /** Processes one block reported as head; commits at most one atomic update. */
    method Ingest(ghost world: Universe, b: Block, fetch: map<Hash, Block>, reply: Reply)
      returns (err: Option<IngestError>)
      requires ValidUniverse(world) && Valid(world)
      requires Served(world, b) && Answers(world, fetch)
      modifies this, store, store.session
      ensures Valid(world)
      ensures (State(), err) == FollowerSpec.Ingest(world, Decode(store.rules), maxDepth, old(State()), b, fetch, reply)
    {
      var plan := MakePlan(world, b, fetch);
      match plan
      case Duplicate =>
        err := None;
      case Fail(e) =>
        err := Some(e);
      case Propose(update) =>
        var failed := store.ApplyUpdate(world, update, reply);
        if failed {
          return Some(StoreFailed);
        }
        AdvanceTo(world, update, b);
        err := None;
    }

    /** The part of Ingest after the store has committed. */
    method AdvanceTo(ghost world: Universe, update: Update, b: Block)
      requires ValidUniverse(world) && WindowKnown(world, window) && UpdateFrom(world, update)
      modifies this
      ensures WindowKnown(world, window)
      ensures FollowerState(window, tip, tipHeight)
           == Advance(old(FollowerState(window, tip, tipHeight)), maxDepth, update, b)
    {
      DeleteBlocks(world, update.rollback);
      PutBlocks(world, update.apply);
      tip := b.hash;
      tipHeight := b.height;
      Prune(world);
    }

    /** The part of Ingest before the store is called. */
    method MakePlan(ghost world: Universe, b: Block, fetch: map<Hash, Block>) returns (plan: Plan)
      requires ValidUniverse(world) && WindowKnown(world, window)
      requires Served(world, b) && Answers(world, fetch)
      ensures plan == PlanFor(world, FollowerState(window, tip, tipHeight), maxDepth, b, fetch)
      ensures plan.Propose? ==> UpdateFrom(world, plan.update)
    {
      if b.hash in window {
        return Duplicate;
      }
      if tip == NO_HASH || b.parentHash == tip {
        return Propose(Update([], [b]));
      }
      var walk := WalkToKnown(world, b, fetch);
      if walk.Err? {
        return Fail(walk.error);
      }
      var (branch, ancestor) := walk.value;
      var rollback := RollbackFrom(world, ancestor);
      if rollback.None? {
        return Fail(WindowBroken);
      }
      plan := Propose(Update(rollback.value, branch));
    }

    method WalkToKnown(ghost world: Universe, b: Block, fetch: map<Hash, Block>)
      returns (walk: Result<(seq<Block>, Hash), IngestError>)
      requires ValidUniverse(world) && Served(world, b) && Answers(world, fetch)
      ensures walk == FollowerSpec.WalkToKnown(window, maxDepth, fetch, [b], b.parentHash)
      ensures walk.Ok? ==> forall i | 0 <= i < |walk.value.0| :: Served(world, walk.value.0[i])
    {
      var branch := [b];
      var parent := b.parentHash;
      while parent !in window
        invariant FollowerSpec.WalkToKnown(window, maxDepth, fetch, [b], b.parentHash)
               == FollowerSpec.WalkToKnown(window, maxDepth, fetch, branch, parent)
        invariant forall i | 0 <= i < |branch| :: Served(world, branch[i])
        decreases maxDepth - |branch|
      {
        if |branch| >= maxDepth {
          return Err(TooDeep);
        }
        if parent !in fetch {
          return Err(FetchFailed);
        }
        var pb := fetch[parent];
        branch := [pb] + branch;
        parent := pb.parentHash;
      }
      walk := Ok((branch, parent));
    }

    method RollbackFrom(ghost world: Universe, ancestor: Hash) returns (rollback: Option<seq<Block>>)
      requires ValidUniverse(world) && WindowKnown(world, window)
      ensures rollback == FollowerSpec.RollbackFrom(world, window, tip, ancestor)
      ensures rollback.Some? ==> forall i | 0 <= i < |rollback.value| :: Known(world, rollback.value[i])
    {
      var collected: seq<Block> := [];
      var cur := tip;
      AfterNothing(FollowerSpec.RollbackFrom(world, window, cur, ancestor));
      while cur != ancestor
        invariant FollowerSpec.RollbackFrom(world, window, tip, ancestor)
               == After(collected, FollowerSpec.RollbackFrom(world, window, cur, ancestor))
        invariant forall i | 0 <= i < |collected| :: Known(world, collected[i])
        decreases if cur in window then window[cur].height + 1 else 0
      {
        if cur !in window {
          return None;
        }
        assert Known(world, window[cur]);
        ghost var rest := FollowerSpec.RollbackFrom(world, window, window[cur].parentHash, ancestor);
        assert rest.Some? ==> collected + ([window[cur]] + rest.value) == collected + [window[cur]] + rest.value;
        assert After(collected + [window[cur]], rest)
          == After(collected, FollowerSpec.RollbackFrom(world, window, cur, ancestor));
        collected := collected + [window[cur]];
        cur := window[cur].parentHash;
      }
      assert collected + [] == collected;
      rollback := Some(collected);
    }

    /** Visits the window's entries in any order and deletes those below the floor. */
    method Prune(ghost world: Universe)
      requires WindowKnown(world, window)
      modifies this`window
      ensures window == FollowerSpec.Prune(old(window), tipHeight, maxDepth) && WindowKnown(world, window)
    {
      if tipHeight < maxDepth {
        return;
      }
      var floor := tipHeight - maxDepth;
      var unseen := window.Keys;
      while unseen != {}
        invariant unseen <= window.Keys <= old(window).Keys
        invariant forall h | h in window :: window[h] == old(window)[h]
        invariant forall h | h in old(window) && h !in unseen :: h in window <==> old(window)[h].height >= floor
        decreases unseen
      {
        var h :| h in unseen;
        if window[h].height < floor {
          window := window - {h};
        }
        unseen := unseen - {h};
      }
    }
  }
}
