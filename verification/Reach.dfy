/** How far one Ingest reaches: exactly maxDepth blocks ahead of the tip. */
module Reach {
  import opened Prelude
  import opened Chain
  import opened Ledger
  import opened Stores
  import opened PostgresStore
  import opened FollowerSpec
  import opened Window
  import opened Runs

  /** path leads from the block with hash tip to its last block. */
  ghost predicate PathFrom(world: Universe, tip: Hash, path: seq<Block>) {
    path != [] && Canonical(world, path) && path[0].parentHash == tip
  }

  lemma {:induction false} WalkAlong(world: Universe, window: map<Hash, Block>, maxDepth: nat, fetch: map<Hash, Block>,
                                     tip: Hash, path: seq<Block>, i: nat)
    requires ValidUniverse(world) && Answers(world, fetch) && PathFrom(world, tip, path) && tip in window
    requires forall j | 0 <= j < |path| :: path[j].hash !in window
    requires forall j | 0 <= j < |path| - 1 :: path[j].hash in fetch
    requires i < |path| && (|path| - i <= maxDepth || i == |path| - 1)
    ensures WalkToKnown(window, maxDepth, fetch, path[i..], path[i].parentHash)
         == if |path| <= maxDepth || i == 0 then Ok((path, tip)) else Err(TooDeep)
    decreases i
  {
    if i == 0 {
      assert path[0..] == path;
    } else {
      assert path[i].parentHash == path[i - 1].hash;
      if |path| - i < maxDepth {
        assert Served(world, path[i - 1]);
        assert [path[i - 1]] + path[i..] == path[i - 1..];
        WalkAlong(world, window, maxDepth, fetch, tip, path, i - 1);
      }
    }
  }

  /** For a head that descends from the tip, with a node that answers, the walk fails as
      too deep exactly when the head is more than maxDepth blocks ahead (a child of the
      tip is never too deep). */
  lemma {:induction false} TooDeepThreshold(world: Universe, f: FollowerState, maxDepth: nat, fetch: map<Hash, Block>,
                                            path: seq<Block>)
    requires ValidUniverse(world) && Answers(world, fetch) && PathFrom(world, f.tip, path)
    requires WindowKnown(world, f.window) && WindowBelow(f)
    requires f.tip in f.window && f.window[f.tip].height == f.tipHeight
    requires forall j | 0 <= j < |path| - 1 :: path[j].hash in fetch
    ensures var head := path[|path| - 1];
            && head.height == f.tipHeight + |path|
            && PlanFor(world, f, maxDepth, head, fetch)
            == if head.height <= f.tipHeight + maxDepth || |path| == 1 then Propose(Update([], path)) else Fail(TooDeep)
  {
    var n := |path| - 1;
    forall j | 0 <= j < |path|
      ensures path[j].height == f.tipHeight + 1 + j && path[j].hash !in f.window
    {
      PathHeight(world, f, path, j);
    }
    assert path[n..] == [path[n]];
    WalkAlong(world, f.window, maxDepth, fetch, f.tip, path, n);
    if n > 0 {
      assert path[n].parentHash == path[n - 1].hash;
    }
  }

  lemma {:induction false} PathHeight(world: Universe, f: FollowerState, path: seq<Block>, j: nat)
    requires ValidUniverse(world) && PathFrom(world, f.tip, path) && j < |path|
    requires WindowKnown(world, f.window) && WindowBelow(f)
    requires f.tip in f.window && f.window[f.tip].height == f.tipHeight
    ensures path[j].height == f.tipHeight + 1 + j && path[j].hash !in f.window
  {
    assert Served(world, path[0]) && Served(world, path[j]) && Known(world, f.window[f.tip]);
    CanonicalHeights(world, path, 0, j);
    assert forall h | h in f.window :: Known(world, f.window[h]);
  }

  /** The tip's own window entry, for a synced follower of a non-empty store. */
  lemma {:induction false} TipInWindow(world: Universe, f: Decoding, maxDepth: nat, s: System)
    requires ValidUniverse(world) && Genuine(world, f, s) && Synced(s, maxDepth) && s.book.chain != []
    ensures s.follower.tip in s.follower.window
    ensures s.follower.window[s.follower.tip].height == s.follower.tipHeight
    ensures s.follower.tip != NO_HASH
    ensures WindowBelow(s.follower)
  {
    var chain := s.book.chain;
    var m: nat :| Covers(s.follower.window, chain, m);
    assert Stored(s.follower.window, chain[|chain| - 1]) && Served(world, chain[|chain| - 1]);
    SyncedWindowBelow(world, f, maxDepth, s);
  }

  lemma {:induction false} PathCommits(f: Decoding, book: Book, path: seq<Block>)
    requires Lawful(f) && Decodable(f, path) && Linked(path) && path != []
    requires path[0].parentHash == TipHash(book.chain)
    ensures Commit(f, book, Update([], path)).Some?
    ensures Commit(f, book, Update([], path)).value.chain == book.chain + path
  {
    DecodesIff(f, path);
    forall b | b in path
      ensures b.height <= MAX_INT64
    {
      assert BlockShaped(f(b).value, b.height);
    }
    assert NextChain(book.chain, Update([], path)) == book.chain + path;
  }

  /** Within reach, one Ingest of the head appends the whole path to the chain. */
  lemma {:induction false} PathIsAppended(world: Universe, f: Decoding, maxDepth: nat, s: System, path: seq<Block>,
                                          fetch: map<Hash, Block>)
    requires ValidUniverse(world) && Lawful(f) && Answers(world, fetch)
    requires Genuine(world, f, s) && Synced(s, maxDepth) && s.book.chain != []
    requires PathFrom(world, s.follower.tip, path) && Decodable(f, path)
    requires forall j | 0 <= j < |path| - 1 :: path[j].hash in fetch
    requires |path| <= maxDepth || |path| == 1
    ensures var (s', err) := Ingest(world, f, maxDepth, s, path[|path| - 1], fetch, Committed);
            && err.None?
            && s'.book.chain == s.book.chain + path
            && s'.follower.tip == path[|path| - 1].hash
            && s'.follower.tipHeight == path[|path| - 1].height == s.follower.tipHeight + |path|
  {
    TipInWindow(world, f, maxDepth, s);
    TooDeepThreshold(world, s.follower, maxDepth, fetch, path);
    PathCommits(f, s.book, path);
  }

  /** Out of reach, Ingest reports "too deep" and changes nothing. */
  lemma {:induction false} PathIsTooDeep(world: Universe, f: Decoding, maxDepth: nat, s: System, path: seq<Block>,
                                         fetch: map<Hash, Block>, reply: Reply)
    requires ValidUniverse(world) && Answers(world, fetch)
    requires Genuine(world, f, s) && Synced(s, maxDepth) && s.book.chain != []
    requires PathFrom(world, s.follower.tip, path)
    requires forall j | 0 <= j < |path| - 1 :: path[j].hash in fetch
    requires |path| > maxDepth && |path| > 1
    ensures Ingest(world, f, maxDepth, s, path[|path| - 1], fetch, reply) == (s, Some(TooDeep))
    ensures path[|path| - 1].height > s.follower.tipHeight + maxDepth
  {
    TipInWindow(world, f, maxDepth, s);
    TooDeepThreshold(world, s.follower, maxDepth, fetch, path);
  }

  /** A successful Ingest of a block above the tip makes it the tip. */
  lemma {:induction false} IngestProgress(world: Universe, f: Decoding, maxDepth: nat, s: System, b: Block,
                                          fetch: map<Hash, Block>, reply: Reply)
    requires ValidUniverse(world) && Inv(world, f, maxDepth, s) && Served(world, b) && Answers(world, fetch)
    requires b.height > s.follower.tipHeight
    ensures var (s', err) := Ingest(world, f, maxDepth, s, b, fetch, reply);
            && (err.None? ==> s'.follower.tip == b.hash && s'.follower.tipHeight == b.height)
            && (err.Some? ==> s'.follower == s.follower)
  {
    if Synced(s, maxDepth) {
      SyncedWindowBelow(world, f, maxDepth, s);
    }
    assert forall h | h in s.follower.window :: Known(world, s.follower.window[h]);
  }
}
