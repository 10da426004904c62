/** Heads on a branch that leaves the canonical chain below the tip: which of them one
    Ingest adopts. */
module Forks {
  import opened Prelude
  import opened Chain
  import opened Ledger
  import opened Stores
  import opened PostgresStore
  import opened FollowerSpec
  import opened Window
  import opened Runs
  import opened Reach
  import opened Transparency

  /** The branch grows from chain[a], and its first block is not the chain's next one. At
      the tip, a == |chain| - 1, it simply extends the chain. */
  ghost predicate LeavesAt(world: Universe, s: System, a: nat, branch: seq<Block>) {
    var chain := s.book.chain;
    && a < |chain|
    && PathFrom(world, chain[a].hash, branch)
    && (a + 1 < |chain| ==> branch[0].hash != chain[a + 1].hash)
  }

  /** The branch point is in the follower's window. */
  predicate InWindow(s: System, a: nat) {
    a < |s.book.chain| && s.book.chain[a].hash in s.follower.window
  }

  /** Where chain and branch agree once, they agree from the branch's first block on. */
  lemma {:induction false} AgreeBelow(world: Universe, chain: seq<Block>, a: nat, branch: seq<Block>, j: nat)
    requires ValidUniverse(world) && Canonical(world, chain) && Canonical(world, branch)
    requires a + 1 + j < |chain| && j < |branch| && chain[a + 1 + j].hash == branch[j].hash
    ensures chain[a + 1].hash == branch[0].hash
  {
    if j > 0 {
      assert Served(world, chain[a + 1 + j]) && Served(world, branch[j]);
      assert chain[a + 1 + j].parentHash == chain[a + j].hash && branch[j].parentHash == branch[j - 1].hash;
      AgreeBelow(world, chain, a, branch, j - 1);
    }
  }

  lemma {:induction false} BranchHeight(world: Universe, chain: seq<Block>, a: nat, branch: seq<Block>, j: nat)
    requires ValidUniverse(world) && Canonical(world, chain) && a < |chain|
    requires PathFrom(world, chain[a].hash, branch) && j < |branch|
    ensures branch[j].height == chain[a].height + 1 + j
  {
    CanonicalHeights(world, branch, 0, j);
    assert Served(world, branch[0]) && Served(world, chain[a]);
  }

  /** No block of the branch is in the window. */
  lemma {:induction false} BranchIsOff(world: Universe, s: System, m: nat, a: nat, branch: seq<Block>, j: nat)
    requires ValidUniverse(world) && Canonical(world, s.book.chain) && Covers(s.follower.window, s.book.chain, m)
    requires LeavesAt(world, s, a, branch) && j < |branch|
    ensures branch[j].hash !in s.follower.window
  {
    var chain := s.book.chain;
    if branch[j].hash in s.follower.window {
      assert OnChain(chain, m, branch[j].hash);
      var i: nat :| m <= i < |chain| && chain[i].hash == branch[j].hash;
      BranchHeight(world, chain, a, branch, j);
      assert Served(world, chain[i]) && Served(world, branch[j]);
      if i <= a {
        CanonicalHeights(world, chain, i, a);
      } else {
        CanonicalHeights(world, chain, a, i);
        AgreeBelow(world, chain, a, branch, j);
      }
    }
  }

  /** What a follower in sync plans for the last block of such a branch, when the node
      answers: it adopts a branch of up to maxDepth blocks and finds a longer one too
      deep. */
  lemma {:induction false} ForkPlan(world: Universe, maxDepth: nat, s: System, m: nat, a: nat, branch: seq<Block>,
                                    fetch: map<Hash, Block>)
    requires ValidUniverse(world) && Answers(world, fetch) && Canonical(world, s.book.chain)
    requires WindowKnown(world, s.follower.window)
    requires s.follower.tip == TipHash(s.book.chain) && Covers(s.follower.window, s.book.chain, m)
    requires LeavesAt(world, s, a, branch) && InWindow(s, a)
    requires forall j | 0 <= j < |branch| - 1 :: branch[j].hash in fetch
    ensures var head := branch[|branch| - 1];
            var plan := PlanFor(world, s.follower, maxDepth, head, fetch);
            if |branch| <= maxDepth || |branch| == 1
            then plan.Propose? && plan.update.apply == branch
              && ReorgTo(world, s.book.chain, m, maxDepth, plan.update, head)
            else plan == Fail(TooDeep)
  {
    var chain, window, n := s.book.chain, s.follower.window, |branch| - 1;
    var head := branch[n];
    forall j | 0 <= j < |branch|
      ensures branch[j].hash !in window
    {
      BranchIsOff(world, s, m, a, branch, j);
    }
    assert branch[n..] == [head];
    WalkAlong(world, window, maxDepth, fetch, chain[a].hash, branch, n);
    assert Served(world, head) && s.follower.tip != NO_HASH by {
      assert Served(world, chain[|chain| - 1]);
    }
    TipIsCovered(world, window, chain, m);
    if n > 0 {
      assert head.parentHash == branch[n - 1].hash;
    }
    PlanMeaning(world, s.follower, chain, m, maxDepth, head, fetch);
    hide Canonical, Covers, WindowKnown, ReorgTo, WalkToKnown, RollbackFrom, ValidUniverse, LeavesAt, PathFrom;
  }

  lemma {:induction false} TipIsCovered(world: Universe, window: map<Hash, Block>, chain: seq<Block>, m: nat)
    requires chain != [] && Covers(window, chain, m)
    ensures TipHash(chain) in window
  {
    assert Stored(window, chain[|chain| - 1]);
  }

  /** A decodable branch within reach replaces everything above the branch point. */
  lemma {:induction false} ForkIsAdopted(world: Universe, f: Decoding, maxDepth: nat, s: System, a: nat,
                                         branch: seq<Block>, fetch: map<Hash, Block>)
    requires ValidUniverse(world) && Lawful(f) && Answers(world, fetch)
    requires Inv(world, f, maxDepth, s) && Synced(s, maxDepth)
    requires LeavesAt(world, s, a, branch) && InWindow(s, a) && Decodable(f, branch)
    requires forall j | 0 <= j < |branch| - 1 :: branch[j].hash in fetch
    requires |branch| <= maxDepth || |branch| == 1
    ensures var head := branch[|branch| - 1];
            var (s', err) := Ingest(world, f, maxDepth, s, head, fetch, Committed);
            && err.None?
            && s'.book.chain == s.book.chain[..a + 1] + branch
            && s'.follower.tip == head.hash && s'.follower.tipHeight == head.height
  {
    var m: nat :| Covers(s.follower.window, s.book.chain, m) && |s.book.chain| - m <= maxDepth + 1;
    var head := branch[|branch| - 1];
    hide PlanFor, Covers, WindowKnown, LeavesAt, Canonical, Replay, ReorgTo, Lawful, ValidUniverse, Decodable, Commit;
    ForkPlan(world, maxDepth, s, m, a, branch, fetch);
    hide Ingest, Synced, Behind;
    var u := PlanFor(world, s.follower, maxDepth, head, fetch).update;
    BranchPoint(world, s, m, maxDepth, a, branch, u);
    ReorgCommits(world, f, s.book, m, maxDepth, u, head);
    ProposedIngest(world, f, maxDepth, s, head, fetch);
  }

  lemma {:induction false} ProposedIngest(world: Universe, f: Decoding, maxDepth: nat, s: System, b: Block,
                                          fetch: map<Hash, Block>)
    requires ValidUniverse(world) && WindowKnown(world, s.follower.window)
    requires var plan := PlanFor(world, s.follower, maxDepth, b, fetch);
             plan.Propose? && Commit(f, s.book, plan.update).Some?
    ensures var u := PlanFor(world, s.follower, maxDepth, b, fetch).update;
            var (s', err) := Ingest(world, f, maxDepth, s, b, fetch, Committed);
            && err.None? && s'.book == Commit(f, s.book, u).value
            && s'.follower.tip == b.hash && s'.follower.tipHeight == b.height
  {
    hide PlanFor, Commit;
  }

  lemma {:induction false} BranchPoint(world: Universe, s: System, m: nat, maxDepth: nat, a: nat, branch: seq<Block>,
                                       u: Update)
    requires ValidUniverse(world) && Canonical(world, s.book.chain) && LeavesAt(world, s, a, branch)
    requires ReorgTo(world, s.book.chain, m, maxDepth, u, branch[|branch| - 1]) && u.apply == branch
    ensures NextChain(s.book.chain, u) == s.book.chain[..a + 1] + branch
  {
    HashesDiffer(world, s.book.chain, Kept(s.book.chain, u) - 1, a);
  }

  lemma {:induction false} ReorgCommits(world: Universe, f: Decoding, book: Book, m: nat, maxDepth: nat, u: Update,
                                        head: Block)
    requires Lawful(f) && ReorgTo(world, book.chain, m, maxDepth, u, head) && Decodable(f, u.apply)
    ensures Commit(f, book, u).Some? && Commit(f, book, u).value.chain == NextChain(book.chain, u)
  {
    DecodesIff(f, u.apply);
    forall b | b in u.apply
      ensures b.height <= MAX_INT64
    {
      assert BlockShaped(f(b).value, b.height);
    }
  }

  /** A longer branch leaves everything as it was. */
  lemma {:induction false} ForkIsTooDeep(world: Universe, f: Decoding, maxDepth: nat, s: System, a: nat,
                                         branch: seq<Block>, fetch: map<Hash, Block>, reply: Reply)
    requires ValidUniverse(world) && Answers(world, fetch)
    requires Inv(world, f, maxDepth, s) && Synced(s, maxDepth)
    requires LeavesAt(world, s, a, branch) && InWindow(s, a)
    requires forall j | 0 <= j < |branch| - 1 :: branch[j].hash in fetch
    requires |branch| > maxDepth && |branch| > 1
    ensures Ingest(world, f, maxDepth, s, branch[|branch| - 1], fetch, reply) == (s, Some(TooDeep))
  {
    var m: nat :| Covers(s.follower.window, s.book.chain, m) && |s.book.chain| - m <= maxDepth + 1;
    ForkPlan(world, maxDepth, s, m, a, branch, fetch);
  }

  /** A branch whose branch point lies below the window is never proposed, however short
      it is and whatever else the node answers. */
  lemma {:induction false} BelowWindowPlan(world: Universe, maxDepth: nat, s: System, m: nat, a: nat,
                                           branch: seq<Block>, fetch: map<Hash, Block>)
    requires ValidUniverse(world) && Answers(world, fetch) && Canonical(world, s.book.chain)
    requires WindowKnown(world, s.follower.window)
    requires s.follower.tip == TipHash(s.book.chain) && Covers(s.follower.window, s.book.chain, m)
    requires LeavesAt(world, s, a, branch) && !InWindow(s, a)
    ensures var plan := PlanFor(world, s.follower, maxDepth, branch[|branch| - 1], fetch);
            plan == Fail(TooDeep) || plan == Fail(FetchFailed)
  {
    var chain, head := s.book.chain, branch[|branch| - 1];
    assert Served(world, head);
    BranchIsOff(world, s, m, a, branch, |branch| - 1);
    PlanMeaning(world, s.follower, chain, m, maxDepth, head, fetch);
    BelowIsOutside(s, m, a);
    hide Canonical, Covers, WindowKnown, ReorgTo, WalkToKnown, RollbackFrom, ValidUniverse, LeavesAt;
    var plan := PlanFor(world, s.follower, maxDepth, head, fetch);
    if plan.Propose? {
      NoReorgFromBelow(world, s, m, maxDepth, a, branch, plan.update);
    }
  }

  lemma {:induction false} BelowIsOutside(s: System, m: nat, a: nat)
    requires Covers(s.follower.window, s.book.chain, m) && a < |s.book.chain| && !InWindow(s, a)
    ensures a < m
  {
    assert a >= m ==> Stored(s.follower.window, s.book.chain[a]);
  }

  /** No reorganisation within the window leads to such a branch's head. */
  lemma {:induction false} NoReorgFromBelow(world: Universe, s: System, m: nat, maxDepth: nat, a: nat,
                                            branch: seq<Block>, u: Update)
    requires ValidUniverse(world) && Canonical(world, s.book.chain) && LeavesAt(world, s, a, branch) && a < m
    ensures !ReorgTo(world, s.book.chain, m, maxDepth, u, branch[|branch| - 1])
  {
    var chain := s.book.chain;
    if ReorgTo(world, chain, m, maxDepth, u, branch[|branch| - 1]) {
      var p := Kept(chain, u) - 1;
      assert p >= m > a && u.apply[0].parentHash == chain[p].hash;
      if |u.apply| <= |branch| {
        BranchesAgree(world, u.apply, branch, |u.apply| - 1);
        if |u.apply| == |branch| {
          HashesDiffer(world, chain, p, a);
        } else {
          MeetsChain(world, chain, a, p, branch, |branch| - |u.apply| - 1);
        }
      } else {
        ShorterStartsInside(world, branch, u.apply);
      }
    }
  }

  /** A branch block whose child points at the chain above a would be on the chain. */
  lemma {:induction false} MeetsChain(world: Universe, chain: seq<Block>, a: nat, p: nat, branch: seq<Block>, j: nat)
    requires ValidUniverse(world) && Canonical(world, chain) && a < p < |chain| && j + 1 < |branch|
    requires PathFrom(world, chain[a].hash, branch) && branch[j + 1].parentHash == chain[p].hash
    ensures branch[0].hash == chain[a + 1].hash
  {
    assert branch[j + 1].parentHash == branch[j].hash;
    BranchHeight(world, chain, a, branch, j);
    CanonicalHeights(world, chain, a, p);
    assert Served(world, branch[j]) && Served(world, chain[p]);
    AgreeBelow(world, chain, a, branch, j);
  }

  /** So such a head fails and changes nothing. */
  lemma {:induction false} BelowWindowFails(world: Universe, f: Decoding, maxDepth: nat, s: System, a: nat,
                                            branch: seq<Block>, fetch: map<Hash, Block>, reply: Reply)
    requires ValidUniverse(world) && Answers(world, fetch)
    requires Inv(world, f, maxDepth, s) && Synced(s, maxDepth)
    requires LeavesAt(world, s, a, branch) && !InWindow(s, a)
    ensures var (s', err) := Ingest(world, f, maxDepth, s, branch[|branch| - 1], fetch, reply);
            s' == s && (err == Some(TooDeep) || err == Some(FetchFailed))
  {
    var m: nat :| Covers(s.follower.window, s.book.chain, m) && |s.book.chain| - m <= maxDepth + 1;
    BelowWindowPlan(world, maxDepth, s, m, a, branch, fetch);
    hide PlanFor;
  }

  /** How far below the tip a branch point of the window can be. */
  lemma {:induction false} ForkDepth(world: Universe, f: Decoding, maxDepth: nat, s: System, a: nat)
    requires ValidUniverse(world) && Inv(world, f, maxDepth, s) && Synced(s, maxDepth) && InWindow(s, a)
    ensures |s.book.chain| - 1 - a <= maxDepth
  {
    var chain := s.book.chain;
    var m: nat :| Covers(s.follower.window, chain, m) && |chain| - m <= maxDepth + 1;
    assert OnChain(chain, m, chain[a].hash);
    var i: nat :| m <= i < |chain| && chain[i].hash == chain[a].hash;
    HashesDiffer(world, chain, i, a);
  }

  /** Just after a restart the window holds exactly the top maxDepth blocks (one, when
      maxDepth is 0). */
  lemma {:induction false} RestartedDepth(world: Universe, f: Decoding, maxDepth: nat, s: System, a: nat)
    requires ValidUniverse(world) && Inv(world, f, maxDepth, s) && a < |s.book.chain|
    ensures InWindow(Step(world, f, maxDepth, s, Restart), a)
       <==> |s.book.chain| - 1 - a < if maxDepth < 1 then 1 else maxDepth
  {
    var chain := s.book.chain;
    RestartSyncs(world, maxDepth, chain);
    var window := Resume(chain, maxDepth).window;
    hide Resume, ValidUniverse, Canonical;
    var m: nat :| Covers(window, chain, m) && |chain| - m == Min(|chain|, if maxDepth < 1 then 1 else maxDepth);
    if a >= m {
      assert Stored(window, chain[a]);
    } else if chain[a].hash in window {
      assert OnChain(chain, m, chain[a].hash);
      var i: nat :| m <= i < |chain| && chain[i].hash == chain[a].hash;
      HashesDiffer(world, chain, i, a);
    }
  }
}
