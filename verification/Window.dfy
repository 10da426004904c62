/** What the follower decides, given that its window covers the top of the canonical
    chain: the update it proposes, and the window after the update. */
module Window {
  import opened Prelude
  import opened Chain
  import opened Stores
  import opened FollowerSpec

  /** The window holds exactly chain[m..], which includes the tip. */
  ghost predicate Covers(window: map<Hash, Block>, chain: seq<Block>, m: nat) {
    && m <= |chain|
    && (chain != [] ==> m < |chain|)
    && HoldsFrom(window, chain, m)
  }

  // ---- The walk and the rollback list -----------------------------------------------

  /** What the walk has collected: served, linked blocks ending in the head, none of
      them in the window. */
  ghost predicate Branch(world: Universe, window: map<Hash, Block>, branch: seq<Block>, parent: Hash, head: Block) {
    && branch != []
    && Canonical(world, branch)
    && branch[0].parentHash == parent
    && branch[|branch| - 1] == head
    && (forall i | 0 <= i < |branch| :: branch[i].hash !in window)
  }

  lemma {:induction false} WalkMeaning(world: Universe, window: map<Hash, Block>, maxDepth: nat,
                                       fetch: map<Hash, Block>, branch: seq<Block>, parent: Hash, head: Block)
    requires ValidUniverse(world) && Answers(world, fetch)
    requires Branch(world, window, branch, parent, head)
    requires |branch| <= maxDepth || |branch| == 1
    ensures var r := WalkToKnown(window, maxDepth, fetch, branch, parent);
            && (r.Ok? ==>
                  && r.value.1 in window
                  && Branch(world, window, r.value.0, r.value.1, head)
                  && (|r.value.0| <= maxDepth || |r.value.0| == 1))
            && (r.Err? ==> r.error != WindowBroken)
    decreases maxDepth - |branch|
  {
    if parent !in window && |branch| < maxDepth && parent in fetch {
      var pb := fetch[parent];
      assert Served(world, pb) && pb.hash == parent;
      WalkMeaning(world, window, maxDepth, fetch, [pb] + branch, pb.parentHash, head);
    }
  }

  /** The window's block for a covered chain position. */
  lemma {:induction false} CoveredBlock(world: Universe, window: map<Hash, Block>, chain: seq<Block>, m: nat, i: nat)
    requires WindowKnown(world, window) && Canonical(world, chain) && Covers(window, chain, m)
    requires m <= i < |chain|
    ensures chain[i].hash in window
    ensures var b := window[chain[i].hash];
            && Known(world, b) && Spine(b) == Spine(chain[i]) && b.hash == chain[i].hash
            && (i > 0 ==> b.parentHash == chain[i - 1].hash)
  {}

  lemma {:induction false} UnwindStep(world: Universe, window: map<Hash, Block>, chain: seq<Block>, m: nat, i: nat,
                                      a: nat)
    requires ValidUniverse(world) && WindowKnown(world, window)
    requires Canonical(world, chain) && Covers(window, chain, m)
    requires m <= a < i < |chain|
    requires RollbackFrom(world, window, chain[i - 1].hash, chain[a].hash).Some?
    ensures chain[i].hash in window
    ensures RollbackFrom(world, window, chain[i].hash, chain[a].hash)
         == Some([window[chain[i].hash]] + RollbackFrom(world, window, chain[i - 1].hash, chain[a].hash).value)
  {
    HashesDiffer(world, chain, i, a);
    CoveredBlock(world, window, chain, m, i);
    hide Canonical, Covers, Known, Spine;
  }

  /** On a covering window the rollback list exists, and passes the store's check. */
  lemma {:induction false} UnwindLeads(world: Universe, window: map<Hash, Block>, chain: seq<Block>, m: nat, i: nat,
                                       a: nat)
    requires ValidUniverse(world) && WindowKnown(world, window)
    requires Canonical(world, chain) && Covers(window, chain, m)
    requires m <= a <= i < |chain|
    ensures var r := RollbackFrom(world, window, chain[i].hash, chain[a].hash);
            && r.Some?
            && |r.value| == i - a
            && WalkDown(chain[i].hash, r.value) == Some(chain[a].hash)
    decreases i - a
  {
    hide ValidUniverse, WindowKnown, Canonical, Covers, Known, Spine;
    if i > a {
      UnwindLeads(world, window, chain, m, i - 1, a);
      UnwindStep(world, window, chain, m, i, a);
      CoveredBlock(world, window, chain, m, i);
      hide RollbackFrom;
      var rest := RollbackFrom(world, window, chain[i - 1].hash, chain[a].hash).value;
      assert ([window[chain[i].hash]] + rest)[1..] == rest;
    }
  }

  /** The rollback list consists of the chain's blocks from position i down to above
      position a. */
  lemma {:induction false} UnwindLists(world: Universe, window: map<Hash, Block>, chain: seq<Block>, m: nat, i: nat,
                                       a: nat, j: nat)
    requires ValidUniverse(world) && WindowKnown(world, window)
    requires Canonical(world, chain) && Covers(window, chain, m)
    requires m <= a && a + j < i < |chain|
    ensures var r := RollbackFrom(world, window, chain[i].hash, chain[a].hash);
            && r.Some? && |r.value| == i - a
            && Known(world, r.value[j]) && Spine(r.value[j]) == Spine(chain[i - j])
    decreases j
  {
    hide ValidUniverse, WindowKnown, Canonical, Covers, Known, Spine, RollbackFrom, WalkDown;
    UnwindLeads(world, window, chain, m, i, a);
    UnwindLeads(world, window, chain, m, i - 1, a);
    UnwindStep(world, window, chain, m, i, a);
    CoveredBlock(world, window, chain, m, i);
    if j > 0 {
      UnwindLists(world, window, chain, m, i - 1, a, j - 1);
    }
  }

  /** A proposed update connects to the tip. It rolls back exactly the canonical blocks
      above the branch point, at most as far as the window reaches and never the
      first block; it applies exactly the head's branch above the branch point, of
      which no block is on the chain. */
  ghost predicate ReorgTo(world: Universe, chain: seq<Block>, m: nat, maxDepth: nat, u: Update, b: Block) {
    && UpdateFrom(world, u)
    && Connects(TipHash(chain), u)
    && u.apply[|u.apply| - 1] == b
    && (1 <= |u.apply| <= maxDepth || |u.apply| == 1)
    && (forall i, j | 0 <= i < |u.apply| && 0 <= j < |chain| :: u.apply[i].hash != chain[j].hash)
    && (chain == [] ==> u.rollback == [])
    && (chain != [] ==>
          && |u.rollback| < |chain| - m
          && u.apply[0].parentHash == chain[Kept(chain, u) - 1].hash
          && (forall j | 0 <= j < |u.rollback| :: Spine(u.rollback[j]) == Spine(chain[|chain| - 1 - j])))
  }

  /** No block above a canonical branch point, and outside the window, is canonical. */
  lemma {:induction false} BranchIsNew(world: Universe, window: map<Hash, Block>, chain: seq<Block>, m: nat,
                                       branch: seq<Block>, a: nat)
    requires ValidUniverse(world) && Canonical(world, chain) && Covers(window, chain, m)
    requires m <= a < |chain|
    requires branch != [] && Canonical(world, branch) && branch[0].parentHash == chain[a].hash
    requires forall i | 0 <= i < |branch| :: branch[i].hash !in window
    ensures forall i, j | 0 <= i < |branch| && 0 <= j < |chain| :: branch[i].hash != chain[j].hash
  {
    forall i: nat, j: nat | i < |branch| && j < |chain|
      ensures branch[i].hash != chain[j].hash
    {
      assert Served(world, branch[0]) && Served(world, branch[i]) && Served(world, chain[a]) && Served(world, chain[j]);
      CanonicalHeights(world, branch, 0, i);
      if j <= a {
        CanonicalHeights(world, chain, j, a);
      } else {
        assert Stored(window, chain[j]);
      }
    }
  }

  lemma {:induction false} StoreNeverFailsWalk(window: map<Hash, Block>, maxDepth: nat, fetch: map<Hash, Block>,
                                               branch: seq<Block>, parent: Hash)
    ensures var r := WalkToKnown(window, maxDepth, fetch, branch, parent);
            r.Err? ==> r.error == TooDeep || r.error == FetchFailed
    decreases maxDepth - |branch|
  {
    if parent !in window && |branch| < maxDepth && parent in fetch {
      StoreNeverFailsWalk(window, maxDepth, fetch, [fetch[parent]] + branch, fetch[parent].parentHash);
    }
  }

  /** The update for a branch that meets the window at chain[a]. */
  lemma {:induction false} BranchUpdate(world: Universe, window: map<Hash, Block>, chain: seq<Block>, m: nat,
                                        maxDepth: nat, branch: seq<Block>, a: nat, b: Block)
    requires ValidUniverse(world) && WindowKnown(world, window)
    requires Canonical(world, chain) && Covers(window, chain, m) && m <= a < |chain|
    requires Branch(world, window, branch, chain[a].hash, b)
    requires |branch| <= maxDepth || |branch| == 1
    ensures var r := RollbackFrom(world, window, TipHash(chain), chain[a].hash);
            r.Some? && ReorgTo(world, chain, m, maxDepth, Update(r.value, branch), b)
  {
    var top: nat := |chain| - 1;
    UnwindLeads(world, window, chain, m, top, a);
    hide ValidUniverse, WindowKnown, Covers, RollbackFrom, Known, Spine, Served, Canonical, WalkDown, ReorgTo;
    var rollback := RollbackFrom(world, window, TipHash(chain), chain[a].hash).value;
    forall j: nat | j < |rollback|
      ensures Known(world, rollback[j]) && Spine(rollback[j]) == Spine(chain[top - j])
    {
      UnwindLists(world, window, chain, m, top, a, j);
    }
    BranchIsNew(world, window, chain, m, branch, a);
    ReorgFits(world, chain, m, maxDepth, rollback, branch, a, b);
  }

  lemma {:induction false} ReorgFits(world: Universe, chain: seq<Block>, m: nat, maxDepth: nat, rollback: seq<Block>,
                                     branch: seq<Block>, a: nat, b: Block)
    requires m <= a < |chain| && |rollback| == |chain| - 1 - a
    requires WalkDown(TipHash(chain), rollback) == Some(chain[a].hash)
    requires forall j: nat | j < |rollback| ::
               Known(world, rollback[j]) && Spine(rollback[j]) == Spine(chain[|chain| - 1 - j])
    requires branch != [] && Canonical(world, branch) && branch[0].parentHash == chain[a].hash
    requires branch[|branch| - 1] == b
    requires |branch| <= maxDepth || |branch| == 1
    requires forall i, j | 0 <= i < |branch| && 0 <= j < |chain| :: branch[i].hash != chain[j].hash
    ensures ReorgTo(world, chain, m, maxDepth, Update(rollback, branch), b)
  {}

  /** An empty store adopts the first head it sees. */
  lemma {:induction false} FirstUpdate(world: Universe, m: nat, maxDepth: nat, b: Block)
    requires Served(world, b)
    ensures ReorgTo(world, [], m, maxDepth, Update([], [b]), b)
  {}

  /** Everything Ingest proposes to the store is a reorganisation to its head, and its
      "window broken" error does not occur. */
  lemma {:induction false} PlanMeaning(world: Universe, f: FollowerState, chain: seq<Block>, m: nat, maxDepth: nat,
                                       b: Block, fetch: map<Hash, Block>)
    requires ValidUniverse(world) && WindowKnown(world, f.window) && Canonical(world, chain)
    requires f.tip == TipHash(chain) && Covers(f.window, chain, m)
    requires Served(world, b) && Answers(world, fetch)
    ensures var plan := PlanFor(world, f, maxDepth, b, fetch);
            && (plan.Fail? ==> plan.error == TooDeep || plan.error == FetchFailed)
            && (plan.Propose? ==> ReorgTo(world, chain, m, maxDepth, plan.update, b))
  {
    if b.hash !in f.window {
      if chain == [] {
        FirstUpdate(world, m, maxDepth, b);
      } else {
        assert Served(world, chain[|chain| - 1]);
        if b.parentHash == f.tip {
          BranchUpdate(world, f.window, chain, m, maxDepth, [b], |chain| - 1, b);
        } else {
          WalkMeaning(world, f.window, maxDepth, fetch, [b], b.parentHash, b);
          match WalkToKnown(f.window, maxDepth, fetch, [b], b.parentHash)
          case Err(_) =>
            StoreNeverFailsWalk(f.window, maxDepth, fetch, [b], b.parentHash);
          case Ok((branch, ancestor)) =>
            assert OnChain(chain, m, ancestor);
            var a: nat :| m <= a < |chain| && chain[a].hash == ancestor;
            BranchUpdate(world, f.window, chain, m, maxDepth, branch, a, b);
        }
      }
    }
  }

  // ---- The window after the update ----------------------------------------------------

  lemma {:induction false} PutAllMeaning(window: map<Hash, Block>, blocks: seq<Block>)
    ensures forall h ::
              h in PutAll(window, blocks) <==> h in window || exists j :: 0 <= j < |blocks| && blocks[j].hash == h
    ensures forall h | h in PutAll(window, blocks) ::
              || (h in window && PutAll(window, blocks)[h] == window[h])
              || (exists j :: 0 <= j < |blocks| && blocks[j].hash == h && PutAll(window, blocks)[h] == blocks[j])
  {
    if blocks != [] {
      var n := |blocks| - 1;
      PutAllMeaning(window, blocks[..n]);
      forall h | h in PutAll(window, blocks) && h != blocks[n].hash
        ensures || (h in window && PutAll(window, blocks)[h] == window[h])
                || (exists j :: 0 <= j < |blocks| && blocks[j].hash == h && PutAll(window, blocks)[h] == blocks[j])
      {
        if j: nat :| j < n && blocks[..n][j].hash == h && PutAll(window, blocks[..n])[h] == blocks[..n][j] {
          assert blocks[j].hash == h;
        }
      }
      forall h
        ensures h in PutAll(window, blocks) <==> h in window || exists j :: 0 <= j < |blocks| && blocks[j].hash == h
      {
        if j: nat :| j < |blocks| && blocks[j].hash == h {
          assert j < n ==> blocks[..n][j].hash == h;
        }
      }
    }
  }

  lemma {:induction false} WindowMoves(world: Universe, window: map<Hash, Block>, u: Update)
    requires WindowKnown(world, window) && UpdateFrom(world, u) && ValidUniverse(world)
    ensures WindowKnown(world, MoveWindow(window, u))
    ensures BlocksMoved(world, window, MoveWindow(window, u), u)
  {
    var kept := window - (set rb <- u.rollback :: rb.hash);
    PutAllMeaning(kept, u.apply);
    forall h | h in MoveWindow(window, u)
      ensures MoveWindow(window, u)[h].hash == h && Known(world, MoveWindow(window, u)[h])
    {
      if j: nat :| j < |u.apply| && u.apply[j].hash == h && MoveWindow(window, u)[h] == u.apply[j] {
        assert Served(world, u.apply[j]);
      }
    }
  }

  /** Moving the window along with a proposed update keeps it covering the chain. */
  lemma {:induction false} MovedWindowCovers(world: Universe, window: map<Hash, Block>, chain: seq<Block>, m: nat,
                                             maxDepth: nat, u: Update, b: Block)
    requires ValidUniverse(world) && Canonical(world, chain) && WindowKnown(world, window)
    requires Covers(window, chain, m) && ReorgTo(world, chain, m, maxDepth, u, b)
    ensures Covers(MoveWindow(window, u), NextChain(chain, u), m)
  {
    WindowMoves(world, window, u);
    NextBlocks(world, window, MoveWindow(window, u), chain, m, u);
  }

  /** Pruning by height leaves the top maxDepth + 1 blocks. */
  lemma {:induction false} PrunedWindowCovers(world: Universe, window: map<Hash, Block>, chain: seq<Block>, m: nat,
                                              maxDepth: nat)
    returns (m': nat)
    requires ValidUniverse(world) && Canonical(world, chain) && chain != [] && Covers(window, chain, m)
    ensures Covers(Prune(window, TipHeight(chain), maxDepth), chain, m')
    ensures |chain| - m' <= maxDepth + 1
  {
    ChainIsConsecutive(world, chain);
    var n := |chain| - 1;
    m' := if TipHeight(chain) < maxDepth || n - m <= maxDepth then m else n - maxDepth;
    PrunedWindowHolds(window, chain, m, m', TipHeight(chain), maxDepth);
  }

  lemma {:induction false} PrunedWindowHolds(window: map<Hash, Block>, chain: seq<Block>, m: nat, m': nat,
                                             tipHeight: nat, maxDepth: nat)
    requires m <= m' && HoldsFrom(window, chain, m)
    requires tipHeight < maxDepth ==> m' == m
    requires tipHeight >= maxDepth ==>
               forall i | m <= i < |chain| :: i >= m' <==> chain[i].height >= tipHeight - maxDepth
    ensures HoldsFrom(Prune(window, tipHeight, maxDepth), chain, m')
  {}
}
