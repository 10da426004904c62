/** The drivers: catching up over a range, the indexer that falls back to it, and the whole
    service. */
module Indexer {
  import opened Prelude
  import opened Chain
  import opened QiDecode
  import opened Tables
  import opened Ledger
  import opened PostgresStore
  import opened Decoder
  import opened FollowerSpec
  import opened Runs
  import opened Reach
  import opened Forks
  import opened Lanes
  import opened FollowerObject

  lemma {:induction false} OneHead(world: Universe, env: Environment, b: Block)
    requires ValidEnvironment(world, env)
    ensures HeadsOf(env, [b]) == [Head(b, env.node(b.hash), env.reply(b.hash))]
    ensures Answers(world, env.node(b.hash))
  {}

  lemma {:induction false} StateTip(follower: Follower)
    ensures follower.State().follower.tipHeight == follower.tipHeight
  {}

  lemma {:induction false} StateChain(follower: Follower)
    ensures follower.State().book.chain == follower.store.chain
  {}

  lemma {:induction false} ValidWindow(world: Universe, follower: Follower)
    requires follower.Valid(world)
    ensures WindowKnown(world, follower.State().follower.window)
  {}

  lemma {:induction false} InWindowBound(s: System, a: nat)
    ensures InWindow(s, a) ==> a < |s.book.chain|
  {}

  lemma {:induction false} ReachMeaning(maxDepth: nat, below: nat, length: nat)
    ensures WithinReach(maxDepth, below, length) <==>
              length <= maxDepth || length == 1 || (length > maxDepth + below && (below < maxDepth || below == 0))
  {}

  /** A head from the stream or the poll, None for a poll that failed, and what the node
      and the database answer while it is processed. */
  datatype Arrival = Arrival(head: Option<Block>, fetch: map<Hash, Block>, reply: Reply, env: Environment)

  ghost predicate ValidArrival(world: Universe, a: Arrival) {
    && (a.head.Some? ==> Served(world, a.head.value))
    && Answers(world, a.fetch)
    && ValidEnvironment(world, a.env)
  }

  lemma {:induction false} ArrivalParts(world: Universe, a: Arrival)
    requires ValidArrival(world, a)
    ensures a.head.Some? ==> Served(world, a.head.value)
    ensures Answers(world, a.fetch) && ValidEnvironment(world, a.env)
  {}

  /** In any reached state of the objects, the tables are a replay of the chain. */
  lemma {:induction false} ReachedReplay(world: Universe, follower: Follower, before: System, trace: seq<Event>)
    requires ValidUniverse(world)
    requires Reached(world, Decode(follower.store.rules), follower.maxDepth, before, trace, follower.State())
    ensures Replay(Decode(follower.store.rules), follower.store.chain) == Some(follower.store.session.View())
  {}

  class Driver {
    const follower: Follower
    const reorgDepth: nat

    constructor (follower: Follower, reorgDepth: nat)
      ensures this.follower == follower && this.reorgDepth == reorgDepth
    {
      this.follower := follower;
      this.reorgDepth := reorgDepth;
    }

    /** One Ingest of the follower, recorded as an event. */
    method IngestOne(ghost world: Universe, ghost before: System, ghost trace: seq<Event>, b: Block,
                     fetch: map<Hash, Block>, reply: Reply)
      returns (err: Option<IngestError>, ghost trace': seq<Event>)
      requires ValidUniverse(world) && follower.Valid(world)
      requires Reached(world, Decode(follower.store.rules), follower.maxDepth, before, trace, follower.State())
      requires Served(world, b) && Answers(world, fetch)
      modifies follower, follower.store, follower.store.session
      ensures follower.Valid(world) && trace' == trace + [Head(b, fetch, reply)]
      ensures Reached(world, Decode(follower.store.rules), follower.maxDepth, before, trace', follower.State())
      ensures err == FollowerSpec.Ingest(world, Decode(follower.store.rules), follower.maxDepth, old(follower.State()),
                                         b, fetch, reply).1
      ensures follower.State()
           == FollowerSpec.Ingest(world, Decode(follower.store.rules), follower.maxDepth, old(follower.State()), b,
                                  fetch, reply).0
    {
      trace' := trace + [Head(b, fetch, reply)];
      ReachedNext(world, Decode(follower.store.rules), follower.maxDepth, before, trace, follower.State(),
                  Head(b, fetch, reply));
      err := follower.Ingest(world, b, fetch, reply);
    }

    /** One Ingest of a block above the tip. */
    method IngestAbove(ghost world: Universe, ghost before: System, ghost trace: seq<Event>, b: Block, env: Environment,
                       ghost lane: Lane)
      returns (failed: bool, ghost trace': seq<Event>)
      requires ValidUniverse(world) && follower.Valid(world) && ValidEnvironment(world, env)
      requires Reached(world, Decode(follower.store.rules), follower.maxDepth, before, trace, follower.State())
      requires Served(world, b) && b.height > follower.tipHeight
      modifies follower, follower.store, follower.store.session
      ensures follower.Valid(world) && trace' == trace + HeadsOf(env, [b])
      ensures Reached(world, Decode(follower.store.rules), follower.maxDepth, before, trace', follower.State())
      ensures follower.tipHeight == if failed then old(follower.tipHeight) else b.height
      ensures OnLane(world, Decode(follower.store.rules), follower.maxDepth, env, before, lane, old(follower.State()))
              && Reaches(env, follower.maxDepth, lane, old(follower.tipHeight), b) ==>
                && !failed
                && OnLane(world, Decode(follower.store.rules), follower.maxDepth, env, before, lane, follower.State())
      ensures FirstFails(world, Decode(follower.store.rules), follower.maxDepth, old(follower.State()), env, [b]) ==>
                failed && follower.State() == old(follower.State())
    {
      hide *;
      ghost var f := Decode(follower.store.rules);
      ghost var s := follower.State();
      OneHead(world, env, b);
      StateTip(follower);
      ReachedInv(world, f, follower.maxDepth, before, trace, s);
      ValidWindow(world, follower);
      FirstFailsMeaning(world, f, follower.maxDepth, s, env, [b]);
      IngestProgress(world, f, follower.maxDepth, s, b, env.node(b.hash), env.reply(b.hash));
      LaneIngest(world, f, follower.maxDepth, env, before, trace, lane, s, b);
      var err: Option<IngestError>;
      err, trace' := IngestOne(world, before, trace, b, env.node(b.hash), env.reply(b.hash));
      StateTip(follower);
      failed := err.Some?;
    }

    /** Ingests one batch of a range answer. */
    method IngestBatch(ghost world: Universe, ghost before: System, ghost trace: seq<Event>, blocks: seq<Block>,
                       env: Environment, ghost lane: Lane)
      returns (failed: bool, ghost trace': seq<Event>)
      requires ValidUniverse(world) && follower.Valid(world) && ValidEnvironment(world, env)
      requires Reached(world, Decode(follower.store.rules), follower.maxDepth, before, trace, follower.State())
      requires Ascending(world, blocks, follower.tipHeight)
      modifies follower, follower.store, follower.store.session
      ensures follower.Valid(world)
      ensures Reached(world, Decode(follower.store.rules), follower.maxDepth, before, trace', follower.State())
      ensures !failed ==> trace' == trace + HeadsOf(env, blocks)
      ensures !failed && blocks != [] ==> follower.tipHeight == blocks[|blocks| - 1].height
      ensures follower.tipHeight >= old(follower.tipHeight)
      ensures OnLane(world, Decode(follower.store.rules), follower.maxDepth, env, before, lane, old(follower.State()))
              && Picks(env, follower.maxDepth, lane, old(follower.tipHeight), blocks) ==>
                && !failed
                && OnLane(world, Decode(follower.store.rules), follower.maxDepth, env, before, lane, follower.State())
      ensures FirstFails(world, Decode(follower.store.rules), follower.maxDepth, old(follower.State()), env, blocks) ==>
                failed && follower.State() == old(follower.State())
    {
      hide *;
      ghost var f := Decode(follower.store.rules);
      ghost var s := follower.State();
      trace' := trace;
      HeadsNone(env, trace, blocks);
      ValidWindow(world, follower);
      ghost var fails := FirstFails(world, f, follower.maxDepth, s, env, blocks);
      ghost var good := OnLane(world, f, follower.maxDepth, env, before, lane, s)
                        && Picks(env, follower.maxDepth, lane, follower.tipHeight, blocks);
      FirstFailsMeaning(world, f, follower.maxDepth, s, env, blocks);
      for n := 0 to |blocks|
        invariant follower.Valid(world)
        invariant Reached(world, f, follower.maxDepth, before, trace', follower.State())
        invariant trace' == trace + HeadsOf(env, blocks[..n])
        invariant follower.tipHeight == if n == 0 then old(follower.tipHeight) else blocks[n - 1].height
        invariant follower.tipHeight >= old(follower.tipHeight)
        invariant good ==> OnLane(world, f, follower.maxDepth, env, before, lane, follower.State())
        invariant n == 0 ==> follower.State() == s
        invariant fails ==> n == 0
      {
        HeadsSnoc(env, trace, blocks, n);
        AscendingAt(world, blocks, old(follower.tipHeight), n);
        if good {
          PicksAt(env, follower.maxDepth, lane, old(follower.tipHeight), blocks, n);
        }
        failed, trace' := IngestAbove(world, before, trace', blocks[n], env, lane);
        if failed {
          return;
        }
      }
      assert blocks[..|blocks|] == blocks;
      failed := false;
    }

    /** Advances the tip to the target height in batches. Every round that does not end
        the loop moves the tip up, so it terminates; it ends early only on a failure or
        when a range comes back empty. Along a lane to the target on which nothing fails,
        it adopts exactly the lane's branch, also when the ranges have gaps that an Ingest
        can fill; when already the first block fails, it changes nothing. */
    method CatchUp(ghost world: Universe, targetHeight: nat, env: Environment, ghost lane: Lane)
      returns (failed: bool, ghost trace: seq<Event>)
      requires ValidUniverse(world) && follower.Valid(world) && ValidEnvironment(world, env)
      requires Inv(world, Decode(follower.store.rules), follower.maxDepth, follower.State())
      modifies follower, follower.store, follower.store.session
      ensures follower.Valid(world)
      ensures Reached(world, Decode(follower.store.rules), follower.maxDepth, old(follower.State()), trace,
                      follower.State())
      ensures follower.tipHeight >= old(follower.tipHeight)
      ensures !failed ==>
                || follower.tipHeight >= targetHeight
                || env.ranges(follower.tipHeight + 1, Min(follower.tipHeight + 1 + BATCH, targetHeight + 1)) == Some([])
      ensures Destined(world, Decode(follower.store.rules), follower.maxDepth, env, old(follower.State()), lane,
                       targetHeight) ==>
                !failed && Adopted(old(follower.State()), lane.a, lane.Branch(), follower.State())
      ensures Blocked(world, Decode(follower.store.rules), follower.maxDepth, old(follower.State()), env,
                      targetHeight) ==>
                failed && follower.State() == old(follower.State())
    {
      hide *;
      trace := [];
      ghost var before := follower.State();
      StateTip(follower);
      ValidWindow(world, follower);
      ghost var f := Decode(follower.store.rules);
      ghost var destined := Destined(world, f, follower.maxDepth, env, before, lane, targetHeight);
      ghost var blocked := Blocked(world, f, follower.maxDepth, before, env, targetHeight);
      BlockedMeaning(world, f, follower.maxDepth, before, env, targetHeight);
      DecodeIsLawful(follower.store.rules);
      ReachedNothing(world, f, follower.maxDepth, before);
      SettingOut(world, f, follower.maxDepth, env, before, lane, targetHeight);
      while follower.tipHeight < targetHeight
        invariant follower.Valid(world)
        invariant Reached(world, f, follower.maxDepth, before, trace, follower.State())
        invariant follower.tipHeight >= before.follower.tipHeight
        invariant destined ==> OnLane(world, f, follower.maxDepth, env, before, lane, follower.State())
        invariant blocked ==>
                    follower.State() == before && follower.tipHeight == before.follower.tipHeight < targetHeight
        decreases targetHeight - follower.tipHeight
      {
        var from := follower.tipHeight + 1;
        var to := Min(from + BATCH, targetHeight + 1);
        MinMeaning(from + BATCH, targetHeight + 1);
        var blocks := env.ranges(from, to);
        RangeIsAscending(world, env, from, to);
        StateTip(follower);
        if destined {
          NextRange(world, f, follower.maxDepth, env, before, lane, targetHeight, follower.State(), to);
        }
        if blocks.None? {
          return true, trace;
        }
        if |blocks.value| == 0 {
          return false, trace;
        }
        AscendingAt(world, blocks.value, follower.tipHeight, |blocks.value| - 1);
        failed, trace := IngestBatch(world, before, trace, blocks.value, env, lane);
        if failed {
          return;
        }
      }
      failed := false;
      StateTip(follower);
      if destined {
        Arrived(world, f, follower.maxDepth, env, before, lane, targetHeight, follower.State());
      }
    }

    /** One head from the stream or the poll: ingest it, and when it is too deep and far
        ahead, catch up instead. When nothing fails, a head whose branch leaves the chain
        anywhere is adopted exactly when the branch point is in the window and the branch
        within reach; otherwise everything stays as it was. A head that descends from the
        tip is adopted at any distance. */
    method Ingest(ghost world: Universe, head: Block, fetch: map<Hash, Block>, reply: Reply, env: Environment,
                  ghost a: nat, ghost branch: seq<Block>)
      returns (failed: bool, ghost trace: seq<Event>)
      requires ValidUniverse(world) && follower.Valid(world) && ValidEnvironment(world, env)
      requires Inv(world, Decode(follower.store.rules), follower.maxDepth, follower.State())
      requires Served(world, head) && Answers(world, fetch)
      modifies follower, follower.store, follower.store.session
      ensures follower.Valid(world)
      ensures Reached(world, Decode(follower.store.rules), follower.maxDepth, old(follower.State()), trace,
                      follower.State())
      ensures reorgDepth == follower.maxDepth
              && ForkHead(world, Decode(follower.store.rules), follower.maxDepth, old(follower.State()), env, a, branch,
                          head, fetch, reply) ==>
                if InWindow(old(follower.State()), a)
                   && WithinReach(follower.maxDepth, |old(follower.store.chain)| - 1 - a, |branch|)
                then !failed && Adopted(old(follower.State()), a, branch, follower.State())
                else failed && follower.State() == old(follower.State())
    {
      hide *;
      ghost var f := Decode(follower.store.rules);
      ghost var before := follower.State();
      StateTip(follower);
      StateChain(follower);
      DecodeIsLawful(follower.store.rules);
      ReachedNothing(world, f, follower.maxDepth, before);
      ghost var lane := Lane(0, [], []);
      ghost var fork := ForkHead(world, f, follower.maxDepth, before, env, a, branch, head, fetch, reply);
      InWindowBound(before, a);
      if fork {
        ForkOutcome(world, f, follower.maxDepth, before, env, a, branch, head, fetch, reply);
        ReachMeaning(follower.maxDepth, |before.book.chain| - 1 - a, |branch|);
        if |branch| > |before.book.chain| - 1 - a {
          lane := LaneOf(before, a, branch);
          LaneIsBranch(before, a, branch);
        }
      }
      var err: Option<IngestError>;
      err, trace := IngestOne(world, before, [], head, fetch, reply);
      failed := err.Some?;
      StateTip(follower);
      if err == Some(TooDeep) && head.height > follower.tipHeight + reorgDepth {
        ghost var mid, first := follower.State(), trace;
        ReachedInv(world, f, follower.maxDepth, before, trace, mid);
        failed, trace := CatchUp(world, head.height, env, lane);
        ReachedConcat(world, f, follower.maxDepth, before, first, mid, trace, follower.State());
        trace := first + trace;
      }
    }

    /** At start-up: resync when the store's tip is more than reorgDepth blocks behind
        the node's head. A failed head request, or a tip at height 0, skips it. */
    method CatchUpIfBehind(ghost world: Universe, latest: Option<Block>, env: Environment, ghost lane: Lane)
      returns (failed: bool, ghost trace: seq<Event>)
      requires ValidUniverse(world) && follower.Valid(world) && ValidEnvironment(world, env)
      requires Inv(world, Decode(follower.store.rules), follower.maxDepth, follower.State())
      modifies follower, follower.store, follower.store.session
      ensures follower.Valid(world)
      ensures Reached(world, Decode(follower.store.rules), follower.maxDepth, old(follower.State()), trace,
                      follower.State())
      ensures old(follower.tipHeight) == 0 || latest.None?
              || latest.value.height <= old(follower.tipHeight) + reorgDepth ==>
                !failed && trace == [] && follower.State() == old(follower.State())
      ensures old(follower.tipHeight) != 0 && latest.Some? && latest.value.height > old(follower.tipHeight) + reorgDepth
              && Destined(world, Decode(follower.store.rules), follower.maxDepth, env, old(follower.State()), lane,
                          latest.value.height) ==>
                !failed && Adopted(old(follower.State()), lane.a, lane.Branch(), follower.State())
    {
      hide *;
      DecodeIsLawful(follower.store.rules);
      ReachedNothing(world, Decode(follower.store.rules), follower.maxDepth, follower.State());
      trace := [];
      failed := false;
      if follower.tipHeight == 0 {
        return;
      }
      if latest.None? || latest.value.height <= follower.tipHeight + reorgDepth {
        return;
      }
      failed, trace := CatchUp(world, latest.value.height, env, lane);
    }

    /** The event loop: a catch-up at start, then every head that arrives, from the stream
        or from the poll, with whatever happens while it is ingested. Errors of a head
        are logged and the loop goes on. When it stops, the stored tables are what a
        fresh replay of the stored chain gives. */
    method Run(ghost world: Universe, latest: Option<Block>, startUp: Environment, arrivals: seq<Arrival>)
      returns (failed: bool, ghost trace: seq<Event>)
      requires ValidUniverse(world) && follower.Valid(world) && ValidEnvironment(world, startUp)
      requires Inv(world, Decode(follower.store.rules), follower.maxDepth, follower.State())
      requires forall i | 0 <= i < |arrivals| :: ValidArrival(world, arrivals[i])
      modifies follower, follower.store, follower.store.session
      ensures follower.Valid(world)
      ensures Reached(world, Decode(follower.store.rules), follower.maxDepth, old(follower.State()), trace,
                      follower.State())
      ensures Replay(Decode(follower.store.rules), follower.store.chain) == Some(follower.store.session.View())
    {
      hide *;
      ghost var f := Decode(follower.store.rules);
      ghost var before := follower.State();
      failed, trace := CatchUpIfBehind(world, latest, startUp, Lane(0, [], []));
      ReachedReplay(world, follower, before, trace);
      if failed {
        return;
      }
      for n := 0 to |arrivals|
        invariant follower.Valid(world)
        invariant Reached(world, f, follower.maxDepth, before, trace, follower.State())
      {
        ArrivalParts(world, arrivals[n]);
        if arrivals[n].head.Some? {
          ghost var mid, first := follower.State(), trace;
          ReachedInv(world, f, follower.maxDepth, before, first, mid);
          var err;
          ghost var last;
          err, last := Ingest(world, arrivals[n].head.value, arrivals[n].fetch, arrivals[n].reply, arrivals[n].env, 0,
                              []);
          ReachedConcat(world, f, follower.maxDepth, before, first, mid, last, follower.State());
          trace := first + last;
        }
      }
      ReachedReplay(world, follower, before, trace);
    }
  }

  // ---- The whole service ---------------------------------------------------------------------

  /** One life of the process: what it meets at start-up and the heads that arrive before
      it ends, in whatever way it ends. */
  datatype Life = Life(latest: Option<Block>, startUp: Environment, arrivals: seq<Arrival>)

  ghost predicate ValidLife(world: Universe, life: Life) {
    ValidEnvironment(world, life.startUp) && forall i | 0 <= i < |life.arrivals| ::
      ValidArrival(world, life.arrivals[i])
  }

  /** The state a new process finds: the store as it is, and a follower built from it. */
  lemma {:induction false} ReachedRestart(world: Universe, f: Decoding, maxDepth: nat, trace: seq<Event>, s: System)
    requires ValidUniverse(world) && Reached(world, f, maxDepth, INITIAL, trace, s)
    ensures Inv(world, f, maxDepth, System(s.book, Resume(s.book.chain, maxDepth)))
    ensures Reached(world, f, maxDepth, INITIAL, trace + [Restart], System(s.book, Resume(s.book.chain, maxDepth)))
  {
    ReachedInv(world, f, maxDepth, INITIAL, trace, s);
    ReachedNext(world, f, maxDepth, INITIAL, trace, s, Restart);
    ReachedInv(world, f, maxDepth, INITIAL, trace + [Restart], System(s.book, Resume(s.book.chain, maxDepth)));
  }

  lemma {:induction false} ReachedBook(world: Universe, f: Decoding, maxDepth: nat, trace: seq<Event>, s: System)
    requires ValidUniverse(world) && Reached(world, f, maxDepth, INITIAL, trace, s)
    ensures Replay(f, s.book.chain) == Some(s.book.tables)
  {
    ReachedInv(world, f, maxDepth, INITIAL, trace, s);
  }

  lemma {:induction false} Beginning(world: Universe, rules: Consensus, maxDepth: nat)
    requires ValidUniverse(world)
    ensures Reached(world, Decode(rules), maxDepth, INITIAL, [], INITIAL)
    ensures INITIAL.book == Stores.Book([], EMPTY)
  {
    DecodeIsLawful(rules);
    InitialIsInv(world, Decode(rules), maxDepth);
  }

  lemma {:induction false} BookParts(p: Postgres)
    ensures p.Book().chain == p.chain && p.Book().tables == p.session.View()
  {}

  lemma {:induction false} LifeParts(world: Universe, life: Life)
    requires ValidLife(world, life)
    ensures ValidEnvironment(world, life.startUp) && forall i | 0 <= i < |life.arrivals| ::
              ValidArrival(world, life.arrivals[i])
  {}

  lemma {:induction false} FollowerParts(world: Universe, follower: Follower)
    requires follower.Valid(world)
    ensures follower.store.Valid(world) && follower.State().book == follower.store.Book()
  {}

  /** From an empty database on, through any number of process lives: the store always
      holds a canonical chain and the tables a fresh replay of it gives, and it got there
      by a run of the reorg machine. */
  method Serve(ghost world: Universe, rules: Consensus, maxDepth: nat, reorgDepth: nat, lives: seq<Life>)
    returns (p: Postgres, ghost trace: seq<Event>, ghost last: System)
    requires ValidUniverse(world)
    requires forall i | 0 <= i < |lives| :: ValidLife(world, lives[i])
    ensures p.Valid(world) && p.rules == rules
    ensures Replay(Decode(rules), p.chain) == Some(p.session.View())
    ensures Reached(world, Decode(rules), maxDepth, INITIAL, trace, last) && last.book == p.Book()
  {
    hide *;
    ghost var f := Decode(rules);
    p := new Postgres(rules);
    Beginning(world, rules, maxDepth);
    trace, last := [], INITIAL;
    for n := 0 to |lives|
      invariant fresh(p) && fresh(p.session)
      invariant p.Valid(world) && p.rules == rules
      invariant Reached(world, f, maxDepth, INITIAL, trace, last) && last.book == p.Book()
    {
      LifeParts(world, lives[n]);
      ReachedRestart(world, f, maxDepth, trace, last);
      BookParts(p);
      var follower := new Follower(world, p, maxDepth);
      var driver := new Driver(follower, reorgDepth);
      ghost var started := follower.State();
      var failed;
      ghost var more;
      failed, more := driver.Run(world, lives[n].latest, lives[n].startUp, lives[n].arrivals);
      ReachedConcat(world, f, maxDepth, INITIAL, trace + [Restart], started, more, follower.State());
      FollowerParts(world, follower);
      trace, last := trace + [Restart] + more, follower.State();
    }
    BookParts(p);
    ReachedBook(world, f, maxDepth, trace, last);
  }
}
