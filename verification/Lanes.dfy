/** Catching up along a branch: what the environment answers, the events of a run, and
    which heads are reached when nothing fails. */
module Lanes {
  import opened Prelude
  import opened Chain
  import opened Ledger
  import opened PostgresStore
  import opened FollowerSpec
  import opened Window
  import opened Runs
  import opened Reach
  import opened Forks

  /** Ranges answer with served blocks of the requested heights, ascending, perhaps
      with gaps. */
  ghost predicate RangesAnswer(world: Universe, ranges: Ranges) {
    forall from: nat, to: nat | ranges(from, to).Some? ::
      && (forall i | 0 <= i < |ranges(from, to).value| ::
            Served(world, ranges(from, to).value[i]) && from <= ranges(from, to).value[i].height < to)
      && (forall i, j | 0 <= i < j < |ranges(from, to).value| ::
            ranges(from, to).value[i].height < ranges(from, to).value[j].height)
  }

  /** node(h) is what BlockByHash answers, and reply(h) how the database commits, while
      the block with hash h is being ingested. */
  datatype Environment = Environment(ranges: Ranges, node: Hash -> map<Hash, Block>, reply: Hash -> Reply)

  ghost predicate ValidEnvironment(world: Universe, env: Environment) {
    RangesAnswer(world, env.ranges) && forall h: Hash :: Answers(world, env.node(h))
  }

  /** The Ingest events of feeding these blocks in order. */
  function HeadsOf(env: Environment, blocks: seq<Block>): seq<Event> {
    seq(|blocks|, i requires 0 <= i < |blocks| =>
      Head(blocks[i], env.node(blocks[i].hash), env.reply(blocks[i].hash)))
  }

  /** s is the state after a run of these events. */
  ghost predicate Reached(world: Universe, f: Decoding, maxDepth: nat, before: System, trace: seq<Event>, s: System)
    requires ValidUniverse(world)
  {
    && Lawful(f)
    && Inv(world, f, maxDepth, before)
    && (forall i | 0 <= i < |trace| :: ValidEvent(world, trace[i]))
    && s == Run(world, f, maxDepth, before, trace)
  }

  lemma {:induction false} ReachedNext(world: Universe, f: Decoding, maxDepth: nat, before: System, trace: seq<Event>,
                                       s: System, e: Event)
    requires ValidUniverse(world) && Reached(world, f, maxDepth, before, trace, s) && ValidEvent(world, e)
    ensures Inv(world, f, maxDepth, s)
    ensures Reached(world, f, maxDepth, before, trace + [e], Step(world, f, maxDepth, s, e))
  {}

  ghost predicate Ascending(world: Universe, blocks: seq<Block>, above: nat) {
    && (forall i | 0 <= i < |blocks| :: Served(world, blocks[i]) && blocks[i].height > above)
    && (forall i, j | 0 <= i < j < |blocks| :: blocks[i].height < blocks[j].height)
  }

  lemma {:induction false} AscendingAt(world: Universe, blocks: seq<Block>, above: nat, n: nat)
    requires Ascending(world, blocks, above) && n < |blocks|
    ensures Served(world, blocks[n])
    ensures blocks[n].height > if n == 0 then above else blocks[n - 1].height
    ensures blocks[n].height > above
  {}

  lemma {:induction false} HeadsNone(env: Environment, trace: seq<Event>, blocks: seq<Block>)
    ensures trace + HeadsOf(env, blocks[..0]) == trace
  {}

  lemma {:induction false} HeadsSnoc(env: Environment, trace: seq<Event>, blocks: seq<Block>, n: nat)
    requires n < |blocks|
    ensures trace + HeadsOf(env, blocks[..n]) + HeadsOf(env, [blocks[n]]) == trace + HeadsOf(env, blocks[..n + 1])
  {}

  lemma {:induction false} MinMeaning(x: int, y: int)
    ensures Min(x, y) <= x && Min(x, y) <= y && (Min(x, y) == x || Min(x, y) == y)
    ensures BATCH == 100
  {}

  lemma {:induction false} RangeIsAscending(world: Universe, env: Environment, from: nat, to: nat)
    requires ValidEnvironment(world, env) && from > 0
    ensures env.ranges(from, to).Some? ==> Ascending(world, env.ranges(from, to).value, from - 1)
  {}

  lemma {:induction false} ReachedNothing(world: Universe, f: Decoding, maxDepth: nat, s: System)
    requires ValidUniverse(world) && Lawful(f) && Inv(world, f, maxDepth, s)
    ensures Reached(world, f, maxDepth, s, [], s)
  {}

  lemma {:induction false} ReachedInv(world: Universe, f: Decoding, maxDepth: nat, before: System, trace: seq<Event>,
                                      s: System)
    requires ValidUniverse(world) && Reached(world, f, maxDepth, before, trace, s)
    ensures Inv(world, f, maxDepth, before) && Inv(world, f, maxDepth, s)
  {}

  lemma {:induction false} ReachedLawful(world: Universe, f: Decoding, maxDepth: nat, before: System, trace: seq<Event>,
                                         s: System)
    requires ValidUniverse(world) && Reached(world, f, maxDepth, before, trace, s)
    ensures Lawful(f)
  {}

  lemma {:induction false} ReachedConcat(world: Universe, f: Decoding, maxDepth: nat, before: System, a: seq<Event>,
                                         mid: System, b: seq<Event>, s: System)
    requires ValidUniverse(world)
    requires Reached(world, f, maxDepth, before, a, mid) && Reached(world, f, maxDepth, mid, b, s)
    ensures Reached(world, f, maxDepth, before, a + b, s)
  {
    hide Inv, Step;
    if b == [] {
      assert a + b == a;
    } else {
      var n := |b| - 1;
      var t := Run(world, f, maxDepth, mid, b[..n]);
      ReachedConcat(world, f, maxDepth, before, a, mid, b[..n], t);
      ReachedNext(world, f, maxDepth, before, a + b[..n], t, b[n]);
      assert a + b == a + b[..n] + [b[n]];
    }
  }

  // ---- When nothing fails --------------------------------------------------------------

  /** A branch that leaves the chain at position a: its stem reaches up to the height of
      the tip, its path goes on above. Along the chain itself the stem is empty. */
  datatype Lane = Lane(a: nat, stem: seq<Block>, path: seq<Block>) {
    function Branch(): seq<Block> { stem + path }
  }

  /** From this tip height one Ingest reaches block b of the path: b is the next block, or
      the blocks in between, with the stem while it is still to be adopted, fit into one
      walk; and the node serves them. */
  ghost predicate Reaches(env: Environment, maxDepth: nat, lane: Lane, tipHeight: nat, b: Block) {
    && lane.path != []
    && var base := lane.path[0].height;
       && base <= tipHeight + 1 <= b.height < base + |lane.path|
       && b == lane.path[b.height - base]
       && (|| b.height == tipHeight + 1
           || b.height - tipHeight + (if tipHeight + 1 == base then |lane.stem| else 0) <= maxDepth)
       && (forall j | tipHeight + 1 - base <= j < b.height - base :: lane.path[j].hash in env.node(b.hash))
       && (tipHeight + 1 == base ==> forall j | 0 <= j < |lane.stem| :: lane.stem[j].hash in env.node(b.hash))
  }

  /** The tip height when blocks[n] is fed. */
  function HeightBefore(tipHeight: nat, blocks: seq<Block>, n: nat): nat
    requires n < |blocks|
  {
    if n == 0 then tipHeight else blocks[n - 1].height
  }

  /** Blocks that can be fed one after the other. */
  ghost predicate Picks(env: Environment, maxDepth: nat, lane: Lane, tipHeight: nat, blocks: seq<Block>) {
    forall n | 0 <= n < |blocks| ::
      Reaches(env, maxDepth, lane, HeightBefore(tipHeight, blocks, n), blocks[n])
  }

  /** The database always commits. Every range along the path answers with blocks of the
      path, not necessarily all of them: gaps are small enough for an Ingest to fill. */
  ghost predicate Flawless(env: Environment, maxDepth: nat, lane: Lane) {
    && (forall h: Hash :: env.reply(h) == Committed)
    && lane.path != []
    && (forall from: nat, to: nat | 0 < from && lane.path[0].height <= from < to <= lane.path[0].height + |lane.path| ::
          && env.ranges(from, to).Some?
          && env.ranges(from, to).value != []
          && Picks(env, maxDepth, lane, from - 1, env.ranges(from, to).value))
  }

  /** Ranges without gaps are a special case; the node then only has to serve the stem,
      to the first block of the path. */
  lemma {:induction false} GaplessIsFlawless(env: Environment, maxDepth: nat, lane: Lane)
    requires forall h: Hash :: env.reply(h) == Committed
    requires lane.path != [] && forall i | 0 <= i < |lane.path| :: lane.path[i].height == lane.path[0].height + i
    requires forall j | 0 <= j < |lane.stem| :: lane.stem[j].hash in env.node(lane.path[0].hash)
    requires var base := lane.path[0].height;
             forall from: nat, to: nat | base <= from <= to <= base + |lane.path| ::
               env.ranges(from, to) == Some(lane.path[from - base..to - base])
    ensures Flawless(env, maxDepth, lane)
  {}

  /** A synced follower and a decodable branch whose branch point is in its window; the
      first block above the tip is within reach of one Ingest. */
  ghost predicate LaneAhead(world: Universe, f: Decoding, maxDepth: nat, s: System, lane: Lane) {
    && Synced(s, maxDepth)
    && LeavesAt(world, s, lane.a, lane.Branch())
    && InWindow(s, lane.a)
    && lane.path != []
    && |lane.stem| == |s.book.chain| - 1 - lane.a
    && Decodable(f, lane.Branch())
    && (|lane.stem| < maxDepth || lane.stem == [])
  }

  /** After q blocks of the path have been adopted. */
  ghost predicate OnCourse(maxDepth: nat, before: System, lane: Lane, q: nat, s: System) {
    && q <= |lane.path|
    && lane.a < |before.book.chain|
    && (q == 0 ==> s == before)
    && (q > 0 ==> s.book.chain == before.book.chain[..lane.a + 1] + (lane.stem + lane.path[..q]))
    && (q > 0 ==> s.follower.tip == lane.path[q - 1].hash)
    && s.follower.tipHeight == before.follower.tipHeight + q
    && Synced(s, maxDepth)
  }

  /** The path's heights follow the tip's. */
  lemma {:induction false} LaneHeight(world: Universe, f: Decoding, maxDepth: nat, s: System, lane: Lane, j: nat)
    requires ValidUniverse(world) && Inv(world, f, maxDepth, s)
    requires LaneAhead(world, f, maxDepth, s, lane) && j < |lane.path|
    ensures lane.path[j].height == s.follower.tipHeight + 1 + j
  {
    hide Replay, WindowKnown, Decodable, ValidUniverse, Covers, InWindow;
    var chain := s.book.chain;
    BranchHeight(world, chain, lane.a, lane.Branch(), |lane.stem| + j);
    CanonicalHeights(world, chain, lane.a, |chain| - 1);
  }

  lemma {:induction false} LeavesPrefix(world: Universe, s: System, a: nat, branch: seq<Block>, n: nat)
    requires LeavesAt(world, s, a, branch) && 0 < n <= |branch|
    ensures LeavesAt(world, s, a, branch[..n])
  {}

  lemma {:induction false} StaysSynced(world: Universe, f: Decoding, maxDepth: nat, s: System, b: Block,
                                       fetch: map<Hash, Block>)
    requires ValidUniverse(world) && Lawful(f) && Inv(world, f, maxDepth, s) && Synced(s, maxDepth)
    requires Served(world, b) && Answers(world, fetch)
    ensures WindowKnown(world, s.follower.window)
    ensures Synced(Ingest(world, f, maxDepth, s, b, fetch, Committed).0, maxDepth)
  {
    InvWindow(world, f, maxDepth, s);
    hide Synced, Inv, Ingest;
    StepKeepsInv(world, f, maxDepth, s, Head(b, fetch, Committed));
  }

  lemma {:induction false} InvWindow(world: Universe, f: Decoding, maxDepth: nat, s: System)
    requires Inv(world, f, maxDepth, s)
    ensures WindowKnown(world, s.follower.window)
  {}

  lemma {:induction false} ServesAll(world: Universe, env: Environment, h: Hash)
    requires ValidEnvironment(world, env)
    ensures Answers(world, env.node(h))
  {}

  // The first block fed: the one reorganisation on the way.

  /** The branch up to block number i of the path, fetched in one walk. */
  lemma {:induction false} FirstBranch(world: Universe, f: Decoding, maxDepth: nat, env: Environment, s: System,
                                       lane: Lane, i: nat)
    returns (branch: seq<Block>)
    requires LaneAhead(world, f, maxDepth, s, lane) && i < |lane.path|
    requires lane.path[0].height == s.follower.tipHeight + 1 && lane.path[i].height == s.follower.tipHeight + 1 + i
    requires Reaches(env, maxDepth, lane, s.follower.tipHeight, lane.path[i])
    ensures branch == lane.stem + lane.path[..i + 1] && branch[|branch| - 1] == lane.path[i]
    ensures LeavesAt(world, s, lane.a, branch) && InWindow(s, lane.a) && Decodable(f, branch)
    ensures |branch| <= maxDepth || |branch| == 1
    ensures Served(world, lane.path[i])
    ensures forall j | 0 <= j < |branch| - 1 :: branch[j].hash in env.node(lane.path[i].hash)
    ensures Synced(s, maxDepth)
  {
    hide Synced, InWindow;
    var n := |lane.stem| + i + 1;
    branch := lane.Branch()[..n];
    assert branch == lane.stem + lane.path[..i + 1];
    assert Served(world, lane.Branch()[n - 1]);
    LeavesPrefix(world, s, lane.a, lane.Branch(), n);
    forall j | 0 <= j < n - 1
      ensures branch[j].hash in env.node(lane.path[i].hash)
    {
      if j >= |lane.stem| {
        assert branch[j] == lane.path[j - |lane.stem|];
      }
    }
  }

  lemma {:induction false} FirstCourse(maxDepth: nat, before: System, lane: Lane, i: nat, s: System)
    requires i < |lane.path| && lane.a < |before.book.chain| && Synced(s, maxDepth)
    requires s.book.chain == before.book.chain[..lane.a + 1] + (lane.stem + lane.path[..i + 1])
    requires s.follower.tip == lane.path[i].hash && s.follower.tipHeight == before.follower.tipHeight + 1 + i
    ensures OnCourse(maxDepth, before, lane, i + 1, s)
  {}

  lemma {:induction false} FirstLeap(world: Universe, f: Decoding, maxDepth: nat, before: System, env: Environment,
                                     lane: Lane, i: nat)
    requires ValidUniverse(world) && Lawful(f) && ValidEnvironment(world, env)
    requires Inv(world, f, maxDepth, before) && LaneAhead(world, f, maxDepth, before, lane) && i < |lane.path|
    requires Reaches(env, maxDepth, lane, before.follower.tipHeight, lane.path[i])
    ensures WindowKnown(world, before.follower.window)
    ensures var b := lane.path[i];
            var (s', err) := Ingest(world, f, maxDepth, before, b, env.node(b.hash), Committed);
            err.None? && OnCourse(maxDepth, before, lane, i + 1, s')
  {
    hide *;
    var fetch := env.node(lane.path[i].hash);
    ServesAll(world, env, lane.path[i].hash);
    InvWindow(world, f, maxDepth, before);
    LaneHeight(world, f, maxDepth, before, lane, 0);
    LaneHeight(world, f, maxDepth, before, lane, i);
    var branch := FirstBranch(world, f, maxDepth, env, before, lane, i);
    LaneStart(world, before, lane.a, branch);
    ForkIsAdopted(world, f, maxDepth, before, lane.a, branch, fetch);
    StaysSynced(world, f, maxDepth, before, lane.path[i], fetch);
    FirstCourse(maxDepth, before, lane, i, Ingest(world, f, maxDepth, before, lane.path[i], fetch, Committed).0);
  }

  lemma {:induction false} LaneStart(world: Universe, s: System, a: nat, branch: seq<Block>)
    requires LeavesAt(world, s, a, branch)
    ensures a < |s.book.chain|
  {}

  // Every later block: it extends the chain, with the blocks a gap left out.

  lemma {:induction false} NextPiece(world: Universe, f: Decoding, maxDepth: nat, env: Environment, before: System,
                                     lane: Lane, q: nat, s: System, i: nat)
    returns (piece: seq<Block>)
    requires LaneAhead(world, f, maxDepth, before, lane) && OnCourse(maxDepth, before, lane, q, s)
    requires 0 < q <= i < |lane.path|
    requires lane.path[0].height == before.follower.tipHeight + 1
    requires lane.path[i].height == before.follower.tipHeight + 1 + i
    requires Reaches(env, maxDepth, lane, s.follower.tipHeight, lane.path[i])
    ensures piece == lane.path[q..i + 1] && piece[|piece| - 1] == lane.path[i]
    ensures PathFrom(world, s.follower.tip, piece) && Decodable(f, piece)
    ensures |piece| <= maxDepth || |piece| == 1
    ensures Served(world, lane.path[i])
    ensures forall j | 0 <= j < |piece| - 1 :: piece[j].hash in env.node(lane.path[i].hash)
    ensures Synced(s, maxDepth) && s.book.chain != []
  {
    hide Synced, InWindow, LeavesAt, Decodable;
    piece := lane.path[q..i + 1];
    PieceOfBranch(world, f, before, lane, q, i);
    assert forall j | 0 <= j < |piece| - 1 :: piece[j] == lane.path[q + j];
  }

  /** A stretch of the path follows the block before it. */
  lemma {:induction false} PieceOfBranch(world: Universe, f: Decoding, s: System, lane: Lane, q: nat, i: nat)
    requires LeavesAt(world, s, lane.a, lane.Branch()) && Decodable(f, lane.Branch()) && 0 < q <= i < |lane.path|
    ensures PathFrom(world, lane.path[q - 1].hash, lane.path[q..i + 1]) && Decodable(f, lane.path[q..i + 1])
    ensures Served(world, lane.path[i])
  {
    var branch, piece, k := lane.Branch(), lane.path[q..i + 1], |lane.stem|;
    assert forall j | 0 <= j < |piece| :: piece[j] == branch[k + q + j];
    assert branch[k + q].parentHash == branch[k + q - 1].hash;
    assert Served(world, branch[k + i]);
  }

  lemma {:induction false} NextCourse(maxDepth: nat, before: System, lane: Lane, q: nat, s: System, i: nat, s': System)
    requires 0 < q <= i < |lane.path| && OnCourse(maxDepth, before, lane, q, s) && Synced(s', maxDepth)
    requires s'.book.chain == s.book.chain + lane.path[q..i + 1]
    requires s'.follower.tip == lane.path[i].hash && s'.follower.tipHeight == s.follower.tipHeight + (i + 1 - q)
    ensures OnCourse(maxDepth, before, lane, i + 1, s')
  {
    hide Synced;
    assert lane.path[..q] + lane.path[q..i + 1] == lane.path[..i + 1];
    assert before.book.chain[..lane.a + 1] + (lane.stem + lane.path[..q]) + lane.path[q..i + 1]
        == before.book.chain[..lane.a + 1] + (lane.stem + lane.path[..i + 1]);
  }

  lemma {:induction false} NextLeap(world: Universe, f: Decoding, maxDepth: nat, before: System, env: Environment,
                                    lane: Lane, q: nat, s: System, i: nat)
    requires ValidUniverse(world) && Lawful(f) && ValidEnvironment(world, env)
    requires Inv(world, f, maxDepth, before) && LaneAhead(world, f, maxDepth, before, lane)
    requires Inv(world, f, maxDepth, s) && OnCourse(maxDepth, before, lane, q, s) && 0 < q <= i < |lane.path|
    requires Reaches(env, maxDepth, lane, s.follower.tipHeight, lane.path[i])
    ensures WindowKnown(world, s.follower.window)
    ensures var b := lane.path[i];
            var (s', err) := Ingest(world, f, maxDepth, s, b, env.node(b.hash), Committed);
            err.None? && OnCourse(maxDepth, before, lane, i + 1, s')
  {
    hide *;
    var fetch := env.node(lane.path[i].hash);
    ServesAll(world, env, lane.path[i].hash);
    LaneHeight(world, f, maxDepth, before, lane, 0);
    LaneHeight(world, f, maxDepth, before, lane, i);
    var piece := NextPiece(world, f, maxDepth, env, before, lane, q, s, i);
    InvGenuine(world, f, maxDepth, s);
    PathIsAppended(world, f, maxDepth, s, piece, fetch);
    StaysSynced(world, f, maxDepth, s, lane.path[i], fetch);
    NextCourse(maxDepth, before, lane, q, s, i, Ingest(world, f, maxDepth, s, lane.path[i], fetch, Committed).0);
  }

  lemma {:induction false} InvGenuine(world: Universe, f: Decoding, maxDepth: nat, s: System)
    requires Inv(world, f, maxDepth, s)
    ensures Genuine(world, f, s)
  {}

  /** The follower has moved some way along a lane on which nothing fails. */
  ghost predicate OnLane(world: Universe, f: Decoding, maxDepth: nat, env: Environment, before: System, lane: Lane,
                         s: System)
  {
    && LaneAhead(world, f, maxDepth, before, lane)
    && Flawless(env, maxDepth, lane)
    && s.follower.tipHeight >= before.follower.tipHeight
    && OnCourse(maxDepth, before, lane, s.follower.tipHeight - before.follower.tipHeight, s)
  }

  /** Feeding a block that is reached succeeds and moves the follower along. */
  lemma {:induction false} LaneIngest(world: Universe, f: Decoding, maxDepth: nat, env: Environment, before: System,
                                      trace: seq<Event>, lane: Lane, s: System, b: Block)
    requires ValidUniverse(world) && ValidEnvironment(world, env)
    requires Reached(world, f, maxDepth, before, trace, s)
    ensures WindowKnown(world, s.follower.window)
    ensures OnLane(world, f, maxDepth, env, before, lane, s)
            && Reaches(env, maxDepth, lane, s.follower.tipHeight, b) ==>
              var (s', err) := Ingest(world, f, maxDepth, s, b, env.node(b.hash), env.reply(b.hash));
              err.None? && OnLane(world, f, maxDepth, env, before, lane, s')
  {
    hide *;
    ReachedInv(world, f, maxDepth, before, trace, s);
    ReachedLawful(world, f, maxDepth, before, trace, s);
    InvWindow(world, f, maxDepth, s);
    if OnLane(world, f, maxDepth, env, before, lane, s) && Reaches(env, maxDepth, lane, s.follower.tipHeight, b) {
      OnLaneParts(world, f, maxDepth, env, before, lane, s, b.hash);
      LaneHeight(world, f, maxDepth, before, lane, 0);
      var q := s.follower.tipHeight - before.follower.tipHeight;
      var i := ReachedIndex(env, maxDepth, lane, s.follower.tipHeight, b);
      if q == 0 {
        FirstLeap(world, f, maxDepth, before, env, lane, i);
      } else {
        NextLeap(world, f, maxDepth, before, env, lane, q, s, i);
      }
      var s' := Ingest(world, f, maxDepth, s, b, env.node(b.hash), env.reply(b.hash)).0;
      CourseIsLane(world, f, maxDepth, env, before, lane, i + 1, s');
    }
  }

  lemma {:induction false} OnLaneParts(world: Universe, f: Decoding, maxDepth: nat, env: Environment, before: System,
                                       lane: Lane, s: System, h: Hash)
    requires OnLane(world, f, maxDepth, env, before, lane, s)
    ensures LaneAhead(world, f, maxDepth, before, lane) && Flawless(env, maxDepth, lane) && lane.path != []
    ensures env.reply(h) == Committed
    ensures s.follower.tipHeight >= before.follower.tipHeight
    ensures var q := s.follower.tipHeight - before.follower.tipHeight;
            OnCourse(maxDepth, before, lane, q, s) && (q == 0 ==> s == before)
  {
    hide LaneAhead, Picks, Synced;
  }

  lemma {:induction false} ReachedIndex(env: Environment, maxDepth: nat, lane: Lane, tipHeight: nat, b: Block)
    returns (i: nat)
    requires Reaches(env, maxDepth, lane, tipHeight, b)
    ensures lane.path != [] && i < |lane.path| && lane.path[i] == b
    ensures i == b.height - lane.path[0].height >= tipHeight + 1 - lane.path[0].height
  {
    i := b.height - lane.path[0].height;
  }

  lemma {:induction false} CourseIsLane(world: Universe, f: Decoding, maxDepth: nat, env: Environment, before: System,
                                        lane: Lane, q: nat, s: System)
    requires LaneAhead(world, f, maxDepth, before, lane) && Flawless(env, maxDepth, lane)
    requires OnCourse(maxDepth, before, lane, q, s)
    ensures OnLane(world, f, maxDepth, env, before, lane, s)
  {
    hide LaneAhead, Flawless, Synced;
  }

  lemma {:induction false} PicksAt(env: Environment, maxDepth: nat, lane: Lane, tipHeight: nat, blocks: seq<Block>,
                                   n: nat)
    requires Picks(env, maxDepth, lane, tipHeight, blocks) && n < |blocks|
    ensures Reaches(env, maxDepth, lane, if n == 0 then tipHeight else blocks[n - 1].height, blocks[n])
  {
    hide Reaches;
    assert Reaches(env, maxDepth, lane, HeightBefore(tipHeight, blocks, n), blocks[n]);
  }

  /** The target is the end of a lane ahead on which nothing fails. */
  ghost predicate Destined(world: Universe, f: Decoding, maxDepth: nat, env: Environment, before: System, lane: Lane,
                           target: nat)
  {
    && LaneAhead(world, f, maxDepth, before, lane)
    && Flawless(env, maxDepth, lane)
    && target == lane.path[|lane.path| - 1].height
  }

  lemma {:induction false} SettingOut(world: Universe, f: Decoding, maxDepth: nat, env: Environment, before: System,
                                      lane: Lane, target: nat)
    ensures Destined(world, f, maxDepth, env, before, lane, target) ==>
              OnLane(world, f, maxDepth, env, before, lane, before)
  {
    hide Synced, Flawless, Decodable, InWindow;
  }

  /** The next range asked for is answered with blocks that can be fed. */
  lemma {:induction false} NextRange(world: Universe, f: Decoding, maxDepth: nat, env: Environment, before: System,
                                     lane: Lane, target: nat, s: System, to: nat)
    requires ValidUniverse(world) && Inv(world, f, maxDepth, before)
    requires Destined(world, f, maxDepth, env, before, lane, target)
    requires OnLane(world, f, maxDepth, env, before, lane, s)
    requires s.follower.tipHeight + 1 < to <= target + 1
    ensures var blocks := env.ranges(s.follower.tipHeight + 1, to);
            blocks.Some? && blocks.value != [] && Picks(env, maxDepth, lane, s.follower.tipHeight, blocks.value)
  {
    hide LaneAhead, Inv, Picks, OnCourse, ValidUniverse;
    LaneHeight(world, f, maxDepth, before, lane, 0);
    LaneHeight(world, f, maxDepth, before, lane, |lane.path| - 1);
    var from := s.follower.tipHeight + 1;
    assert env.ranges(from, to).Some?;
  }

  /** The store's chain after adopting a branch that left it at position a. */
  ghost predicate Adopted(before: System, a: nat, branch: seq<Block>, s: System) {
    a < |before.book.chain| && s.book.chain == before.book.chain[..a + 1] + branch
  }

  lemma {:induction false} Arrived(world: Universe, f: Decoding, maxDepth: nat, env: Environment, before: System,
                                   lane: Lane, target: nat, s: System)
    requires ValidUniverse(world) && Inv(world, f, maxDepth, before)
    requires Destined(world, f, maxDepth, env, before, lane, target)
    requires OnLane(world, f, maxDepth, env, before, lane, s) && s.follower.tipHeight >= target
    ensures Adopted(before, lane.a, lane.Branch(), s)
  {
    hide LaneAhead, Inv, Flawless, Synced, ValidUniverse;
    OnLaneParts(world, f, maxDepth, env, before, lane, s, NO_HASH);
    LaneHeight(world, f, maxDepth, before, lane, |lane.path| - 1);
    assert lane.path[..|lane.path|] == lane.path;
  }

  // ---- When it cannot begin ------------------------------------------------------------

  /** The first block of this range answer fails, and changes nothing. */
  ghost predicate FirstFails(world: Universe, f: Decoding, maxDepth: nat, s: System, env: Environment,
                             blocks: seq<Block>)
    requires ValidUniverse(world) && WindowKnown(world, s.follower.window)
  {
    && blocks != []
    && var b := blocks[0];
       var (s', err) := Ingest(world, f, maxDepth, s, b, env.node(b.hash), env.reply(b.hash));
       s' == s && err.Some?
  }

  /** A catch-up to this target cannot begin. */
  ghost predicate Blocked(world: Universe, f: Decoding, maxDepth: nat, s: System, env: Environment, target: nat)
    requires ValidUniverse(world) && WindowKnown(world, s.follower.window)
  {
    var from := s.follower.tipHeight + 1;
    var blocks := env.ranges(from, Min(from + BATCH, target + 1));
    s.follower.tipHeight < target && blocks.Some? && FirstFails(world, f, maxDepth, s, env, blocks.value)
  }

  lemma {:induction false} BlockedMeaning(world: Universe, f: Decoding, maxDepth: nat, s: System, env: Environment,
                                          target: nat)
    requires ValidUniverse(world) && WindowKnown(world, s.follower.window)
    ensures Blocked(world, f, maxDepth, s, env, target) ==>
              var from := s.follower.tipHeight + 1;
              var blocks := env.ranges(from, Min(from + BATCH, target + 1));
              && s.follower.tipHeight < target
              && blocks.Some? && blocks.value != [] && FirstFails(world, f, maxDepth, s, env, blocks.value)
  {}

  lemma {:induction false} FirstFailsMeaning(world: Universe, f: Decoding, maxDepth: nat, s: System, env: Environment,
                                             blocks: seq<Block>)
    requires ValidUniverse(world) && WindowKnown(world, s.follower.window)
    ensures FirstFails(world, f, maxDepth, s, env, blocks) ==>
              && blocks != []
              && FirstFails(world, f, maxDepth, s, env, [blocks[0]])
              && var b := blocks[0];
                 var (s', err) := Ingest(world, f, maxDepth, s, b, env.node(b.hash), env.reply(b.hash));
                 s' == s && err.Some?
  {}

  // ---- Heads on the chain and on forks ---------------------------------------------------

  /** Which heads the driver adopts when the branch point is in the window: branches of up
      to maxDepth blocks at once, and longer ones by catching up, when they end more than
      maxDepth blocks above the tip and leave the chain less than maxDepth blocks below
      it. */
  predicate WithinReach(maxDepth: nat, below: nat, length: nat) {
    || length <= maxDepth || length == 1
    || (length > maxDepth + below && (below < maxDepth || below == 0))
  }

  function LaneOf(before: System, a: nat, branch: seq<Block>): Lane
    requires a < |before.book.chain| && |branch| > |before.book.chain| - 1 - a
  {
    var k := |before.book.chain| - 1 - a;
    Lane(a, branch[..k], branch[k..])
  }

  /** The head is the end of a decodable branch that leaves the chain at position a; the
      node knows the branch, and nothing fails. */
  ghost predicate ForkHead(world: Universe, f: Decoding, maxDepth: nat, before: System, env: Environment, a: nat,
                           branch: seq<Block>, head: Block, fetch: map<Hash, Block>, reply: Reply)
  {
    && Synced(before, maxDepth)
    && LeavesAt(world, before, a, branch)
    && Decodable(f, branch)
    && branch[|branch| - 1] == head
    && (forall j | 0 <= j < |branch| - 1 :: branch[j].hash in fetch)
    && reply.Committed?
    && (|branch| > |before.book.chain| - 1 - a ==> Flawless(env, maxDepth, LaneOf(before, a, branch)))
  }

  /** The Ingest of such a head: adopted, or failed with nothing changed. Then, if it was
      too deep, the fallback's condition says whether a catch-up is tried, and window and
      depth of the branch point whether it succeeds. */
  lemma {:induction false} ForkOutcome(world: Universe, f: Decoding, maxDepth: nat, before: System, env: Environment,
                                       a: nat, branch: seq<Block>, head: Block, fetch: map<Hash, Block>, reply: Reply)
    requires ValidUniverse(world) && Lawful(f) && Inv(world, f, maxDepth, before)
    requires Answers(world, fetch) && ValidEnvironment(world, env)
    requires ForkHead(world, f, maxDepth, before, env, a, branch, head, fetch, reply)
    ensures a < |before.book.chain| && WindowKnown(world, before.follower.window)
    ensures var (s, err) := Ingest(world, f, maxDepth, before, head, fetch, reply);
            var k, here := |before.book.chain| - 1 - a, InWindow(before, a);
            if here && (|branch| <= maxDepth || |branch| == 1) then err.None? && Adopted(before, a, branch, s)
            else
              && s == before && err.Some? && (here ==> err == Some(TooDeep))
              && (head.height > before.follower.tipHeight + maxDepth <==> |branch| > maxDepth + k)
              && (|branch| > maxDepth + k ==>
                    if here && (k < maxDepth || k == 0)
                    then Destined(world, f, maxDepth, env, before, LaneOf(before, a, branch), head.height)
                    else Blocked(world, f, maxDepth, before, env, head.height))
  {
    hide *;
    ForkParts(world, f, maxDepth, before, env, a, branch, head, fetch, reply);
    HeadHeight(world, f, maxDepth, before, a, branch);
    InvWindow(world, f, maxDepth, before);
    var k := |before.book.chain| - 1 - a;
    if !InWindow(before, a) {
      BelowWindowFails(world, f, maxDepth, before, a, branch, fetch, reply);
      if |branch| > maxDepth + k {
        BelowWindowIsBlocked(world, f, maxDepth, before, env, a, branch);
      }
    } else if |branch| <= maxDepth || |branch| == 1 {
      ForkIsAdopted(world, f, maxDepth, before, a, branch, fetch);
      Adopts(before, a, branch, Ingest(world, f, maxDepth, before, head, fetch, reply).0);
    } else {
      ForkIsTooDeep(world, f, maxDepth, before, a, branch, fetch, reply);
      if |branch| > maxDepth + k {
        if k < maxDepth || k == 0 {
          ForkIsDestined(world, f, maxDepth, before, env, a, branch);
        } else {
          ForkIsBlocked(world, f, maxDepth, before, env, a, branch);
        }
      }
    }
  }

  lemma {:induction false} Adopts(before: System, a: nat, branch: seq<Block>, s: System)
    requires a < |before.book.chain| && s.book.chain == before.book.chain[..a + 1] + branch
    ensures Adopted(before, a, branch, s)
  {}

  lemma {:induction false} ForkParts(world: Universe, f: Decoding, maxDepth: nat, before: System, env: Environment,
                                     a: nat, branch: seq<Block>, head: Block, fetch: map<Hash, Block>, reply: Reply)
    requires ForkHead(world, f, maxDepth, before, env, a, branch, head, fetch, reply)
    ensures a < |before.book.chain| && branch != []
    ensures Synced(before, maxDepth) && LeavesAt(world, before, a, branch) && Decodable(f, branch) && reply == Committed
    ensures branch[|branch| - 1] == head && forall j | 0 <= j < |branch| - 1 :: branch[j].hash in fetch
    ensures |branch| > |before.book.chain| - 1 - a ==> Flawless(env, maxDepth, LaneOf(before, a, branch))
  {
    hide Synced, Decodable, Flawless;
  }

  lemma {:induction false} ForkIsDestined(world: Universe, f: Decoding, maxDepth: nat, before: System, env: Environment,
                                          a: nat, branch: seq<Block>)
    requires Synced(before, maxDepth) && LeavesAt(world, before, a, branch) && InWindow(before, a)
    requires Decodable(f, branch)
    requires a < |before.book.chain|
    requires var k := |before.book.chain| - 1 - a;
             (k < maxDepth || k == 0) && |branch| > k && Flawless(env, maxDepth, LaneOf(before, a, branch))
    ensures Destined(world, f, maxDepth, env, before, LaneOf(before, a, branch), branch[|branch| - 1].height)
  {
    hide Synced, LeavesAt, Decodable, Flawless, InWindow;
    LaneIsBranch(before, a, branch);
  }

  lemma {:induction false} LaneIsBranch(before: System, a: nat, branch: seq<Block>)
    requires a < |before.book.chain| && |branch| > |before.book.chain| - 1 - a
    ensures var lane := LaneOf(before, a, branch);
            && lane.Branch() == branch && lane.a == a && lane.path != []
            && lane.path[|lane.path| - 1] == branch[|branch| - 1]
            && |lane.stem| == |before.book.chain| - 1 - a
  {}

  lemma {:induction false} HeadHeight(world: Universe, f: Decoding, maxDepth: nat, before: System, a: nat,
                                      branch: seq<Block>)
    requires ValidUniverse(world) && Inv(world, f, maxDepth, before) && Synced(before, maxDepth)
    requires LeavesAt(world, before, a, branch)
    ensures forall j | 0 <= j < |branch| ::
              branch[j].height == before.follower.tipHeight - (|before.book.chain| - 1 - a) + 1 + j
  {
    var chain := before.book.chain;
    hide Replay, WindowKnown, ValidUniverse, Covers;
    CanonicalHeights(world, chain, a, |chain| - 1);
    forall j: nat | j < |branch|
      ensures branch[j].height == before.follower.tipHeight - (|chain| - 1 - a) + 1 + j
    {
      BranchHeight(world, chain, a, branch, j);
    }
  }

  /** The first block a catch-up along the branch is offered. */
  lemma {:induction false} FirstOffer(maxDepth: nat, before: System, env: Environment, a: nat, branch: seq<Block>)
    returns (i: nat)
    requires a < |before.book.chain| && |branch| > |before.book.chain| - 1 - a
    requires Flawless(env, maxDepth, LaneOf(before, a, branch))
    requires forall j | 0 <= j < |branch| ::
               branch[j].height == before.follower.tipHeight - (|before.book.chain| - 1 - a) + 1 + j
    ensures var from, target := before.follower.tipHeight + 1, branch[|branch| - 1].height;
            var blocks := env.ranges(from, Min(from + BATCH, target + 1));
            && before.follower.tipHeight < target
            && blocks.Some? && blocks.value != []
            && |before.book.chain| - 1 - a <= i < |branch| && blocks.value[0] == branch[i]
            && Reaches(env, maxDepth, LaneOf(before, a, branch), before.follower.tipHeight, branch[i])
  {
    var lane := LaneOf(before, a, branch);
    var k := |before.book.chain| - 1 - a;
    var from := before.follower.tipHeight + 1;
    var to := Min(from + BATCH, branch[|branch| - 1].height + 1);
    assert lane.path[0] == branch[k] && lane.path[0].height == from;
    assert from < to <= from + |lane.path|;
    var blocks := env.ranges(from, to).value;
    PicksAt(env, maxDepth, lane, from - 1, blocks, 0);
    hide Flawless, Picks;
    i := k + (blocks[0].height - from);
    assert blocks[0] == lane.path[i - k] == branch[i];
  }

  lemma {:induction false} Blocks(world: Universe, f: Decoding, maxDepth: nat, s: System, env: Environment, target: nat,
                                  b: Block)
    requires ValidUniverse(world) && WindowKnown(world, s.follower.window)
    requires var from := s.follower.tipHeight + 1;
             var blocks := env.ranges(from, Min(from + BATCH, target + 1));
             s.follower.tipHeight < target && blocks.Some? && blocks.value != [] && blocks.value[0] == b
    requires var (s', err) := Ingest(world, f, maxDepth, s, b, env.node(b.hash), env.reply(b.hash));
             s' == s && err.Some?
    ensures Blocked(world, f, maxDepth, s, env, target)
  {
    hide Ingest;
  }

  /** A branch point in the window, but too deep below the tip: already the first block
      above the tip is out of reach. */
  lemma {:induction false} ForkIsBlocked(world: Universe, f: Decoding, maxDepth: nat, before: System, env: Environment,
                                         a: nat, branch: seq<Block>)
    requires ValidUniverse(world) && Inv(world, f, maxDepth, before) && ValidEnvironment(world, env)
    requires Synced(before, maxDepth) && LeavesAt(world, before, a, branch) && InWindow(before, a)
    requires a < |before.book.chain|
    requires var k := |before.book.chain| - 1 - a;
             k > 0 && k >= maxDepth && |branch| > k && Flawless(env, maxDepth, LaneOf(before, a, branch))
    ensures WindowKnown(world, before.follower.window)
    ensures Blocked(world, f, maxDepth, before, env, branch[|branch| - 1].height)
  {
    hide *;
    HeadHeight(world, f, maxDepth, before, a, branch);
    InvWindow(world, f, maxDepth, before);
    var i := FirstOffer(maxDepth, before, env, a, branch);
    var b := branch[i];
    ServesAll(world, env, b.hash);
    LeavesPrefix(world, before, a, branch, i + 1);
    OfferIsServed(maxDepth, before, env, a, branch, i);
    ForkIsTooDeep(world, f, maxDepth, before, a, branch[..i + 1], env.node(b.hash), env.reply(b.hash));
    Blocks(world, f, maxDepth, before, env, branch[|branch| - 1].height, b);
  }

  lemma {:induction false} OfferIsServed(maxDepth: nat, before: System, env: Environment, a: nat, branch: seq<Block>,
                                         i: nat)
    requires a < |before.book.chain| && |before.book.chain| - 1 - a <= i < |branch|
    requires forall j | 0 <= j < |branch| ::
               branch[j].height == before.follower.tipHeight - (|before.book.chain| - 1 - a) + 1 + j
    requires Reaches(env, maxDepth, LaneOf(before, a, branch), before.follower.tipHeight, branch[i])
    ensures forall j | 0 <= j < i :: branch[j].hash in env.node(branch[i].hash)
  {
    var lane := LaneOf(before, a, branch);
    var k := |before.book.chain| - 1 - a;
    assert lane.path[0] == branch[k];
    forall j | 0 <= j < i
      ensures branch[j].hash in env.node(branch[i].hash)
    {
      if j < k {
        assert branch[j] == lane.stem[j];
      } else {
        assert branch[j] == lane.path[j - k];
      }
    }
  }

  /** A branch point below the window: the same for whatever block is offered first. */
  lemma {:induction false} BelowWindowIsBlocked(world: Universe, f: Decoding, maxDepth: nat, before: System,
                                                env: Environment, a: nat, branch: seq<Block>)
    requires ValidUniverse(world) && Inv(world, f, maxDepth, before) && ValidEnvironment(world, env)
    requires Synced(before, maxDepth) && LeavesAt(world, before, a, branch) && !InWindow(before, a)
    requires a < |before.book.chain| && |branch| > |before.book.chain| - 1 - a
    requires Flawless(env, maxDepth, LaneOf(before, a, branch))
    ensures WindowKnown(world, before.follower.window)
    ensures Blocked(world, f, maxDepth, before, env, branch[|branch| - 1].height)
  {
    hide *;
    HeadHeight(world, f, maxDepth, before, a, branch);
    InvWindow(world, f, maxDepth, before);
    var i := FirstOffer(maxDepth, before, env, a, branch);
    var b := branch[i];
    ServesAll(world, env, b.hash);
    LeavesPrefix(world, before, a, branch, i + 1);
    BelowWindowFails(world, f, maxDepth, before, a, branch[..i + 1], env.node(b.hash), env.reply(b.hash));
    Blocks(world, f, maxDepth, before, env, branch[|branch| - 1].height, b);
  }
}
