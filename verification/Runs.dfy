/** Whole runs of the indexer: any sequence of heads, failed fetches, decode errors,
    database failures, lost commit replies, crashes and restarts. */
module Runs {
  import opened Prelude
  import opened Chain
  import opened Tables
  import opened Ledger
  import opened History
  import opened Stores
  import opened PostgresStore
  import opened FollowerSpec
  import opened Window

  /** Head is one Ingest with what the node and the database answer during it; a crash
      between store commit and window update is a Head with a lost reply followed by
      a Restart. */
  datatype Event = Head(b: Block, fetch: map<Hash, Block>, reply: Reply) | Restart

  ghost predicate ValidEvent(world: Universe, e: Event) {
    e.Head? ==> Served(world, e.b) && Answers(world, e.fetch)
  }

  /** What every state satisfies, whatever happened. */
  ghost predicate Genuine(world: Universe, f: Decoding, s: System) {
    && Canonical(world, s.book.chain)
    && Replay(f, s.book.chain) == Some(s.book.tables)
    && WindowKnown(world, s.follower.window)
  }

  /** The follower stands at the store's tip and its window covers at most the top
      maxDepth + 1 blocks. */
  ghost predicate Synced(s: System, maxDepth: nat) {
    && s.follower.tip == TipHash(s.book.chain)
    && s.follower.tipHeight == TipHeight(s.book.chain)
    && exists m :: Covers(s.follower.window, s.book.chain, m) && |s.book.chain| - m <= maxDepth + 1
  }

  /** A commit went through unnoticed: the store is ahead of the follower. */
  ghost predicate Behind(s: System) {
    && s.book.chain != []
    && s.follower.tip != TipHash(s.book.chain)
    && (s.follower.tip == NO_HASH ==> s.follower.window == map[])
    && WindowBelow(s.follower)
  }

  /** No block of the window is above the follower's tip. */
  ghost predicate WindowBelow(f: FollowerState) {
    forall h | h in f.window :: f.window[h].height <= f.tipHeight
  }

  lemma {:induction false} SyncedWindowBelow(world: Universe, f: Decoding, maxDepth: nat, s: System)
    requires ValidUniverse(world) && Genuine(world, f, s) && Synced(s, maxDepth)
    ensures WindowBelow(s.follower)
  {
    hide ValidUniverse, Canonical, Replay, WindowKnown;
    var chain := s.book.chain;
    var m: nat :| Covers(s.follower.window, chain, m);
    forall h | h in s.follower.window
      ensures s.follower.window[h].height <= s.follower.tipHeight
    {
      assert OnChain(chain, m, h);
      var i: nat :| m <= i < |chain| && chain[i].hash == h;
      assert Stored(s.follower.window, chain[i]);
      CanonicalHeights(world, chain, i, |chain| - 1);
    }
  }

  ghost predicate Inv(world: Universe, f: Decoding, maxDepth: nat, s: System) {
    Genuine(world, f, s) && (Synced(s, maxDepth) || Behind(s))
  }

  const INITIAL := System(Book([], EMPTY), FollowerState(map[], NO_HASH, 0))

  ghost function Step(world: Universe, f: Decoding, maxDepth: nat, s: System, e: Event): System
    requires ValidUniverse(world) && WindowKnown(world, s.follower.window)
  {
    match e
    case Head(b, fetch, reply) => Ingest(world, f, maxDepth, s, b, fetch, reply).0
    case Restart => System(s.book, Resume(s.book.chain, maxDepth))
  }

  // ---- Restart ----------------------------------------------------------------------

  /** A window filled from the top of the chain covers it. */
  lemma {:induction false} FilledWindowCovers(world: Universe, chain: seq<Block>, recent: seq<Block>)
    requires ValidUniverse(world) && Canonical(world, chain)
    requires |recent| <= |chain| && (chain != [] ==> recent != [])
    requires forall j | 0 <= j < |recent| :: recent[j] == Spine(chain[|chain| - 1 - j])
    ensures Covers(PutAll(map[], recent), chain, |chain| - |recent|)
  {
    var w, m := PutAll(map[], recent), |chain| - |recent|;
    PutAllMeaning(map[], recent);
    hide ValidUniverse, Canonical, PutAll;
    forall i: nat | m <= i < |chain|
      ensures Stored(w, chain[i])
    {
      assert recent[|chain| - 1 - i].hash == chain[i].hash;
      var j: nat :| j < |recent| && recent[j].hash == chain[i].hash && w[chain[i].hash] == recent[j];
      HashesDiffer(world, chain, i, |chain| - 1 - j);
    }
    forall h | h in w
      ensures OnChain(chain, m, h)
    {
      var j: nat :| j < |recent| && recent[j].hash == h;
      assert chain[|chain| - 1 - j].hash == h;
    }
  }

  lemma {:induction false} FilledWindowIsKnown(world: Universe, blocks: seq<Block>)
    requires forall j | 0 <= j < |blocks| :: Known(world, blocks[j])
    ensures WindowKnown(world, PutAll(map[], blocks))
  {
    PutAllMeaning(map[], blocks);
    hide PutAll;
  }

  /** A restart from any state, however it came about, is in sync with the store. */
  lemma {:induction false} RestartSyncs(world: Universe, maxDepth: nat, chain: seq<Block>)
    requires ValidUniverse(world) && Canonical(world, chain)
    ensures var f := Resume(chain, maxDepth);
            && f.tip == TipHash(chain) && f.tipHeight == TipHeight(chain)
            && WindowKnown(world, f.window)
            && exists m ::
                 Covers(f.window, chain, m) && |chain| - m == Min(|chain|, if maxDepth < 1 then 1 else maxDepth)
  {
    hide ValidUniverse, Canonical, WindowKnown, Covers, Known, PutAll, Recent, Spines;
    var n := if maxDepth < 1 then 1 else maxDepth;
    var recent := Spines(Recent(chain, n));
    RecentIsKnown(world, chain, n);
    FilledWindowCovers(world, chain, recent);
    FilledWindowIsKnown(world, recent);
    assert recent == [] ==> PutAll(map[], recent) == map[] by {
      PutAllNothing();
    }
    assert Covers(Resume(chain, maxDepth).window, chain, |chain| - |recent|);
  }

  lemma {:induction false} PutAllNothing()
    ensures PutAll(map[], []) == map[]
  {}

  // ---- One step -----------------------------------------------------------------------

  /** The head makes the store commit, whether or not the follower hears of it. */
  ghost predicate Commits(world: Universe, f: Decoding, maxDepth: nat, s: System, e: Event)
    requires ValidUniverse(world) && WindowKnown(world, s.follower.window)
  {
    && e.Head?
    && !e.reply.Aborted?
    && var plan := PlanFor(world, s.follower, maxDepth, e.b, e.fetch);
       plan.Propose? && Commit(f, s.book, plan.update).Some?
  }

  /** A head either changes nothing or commits the proposed update, and then the follower
      moves along unless the reply was lost. */
  lemma {:induction false} HeadOutcome(world: Universe, f: Decoding, maxDepth: nat, s: System, e: Event)
    requires ValidUniverse(world) && WindowKnown(world, s.follower.window) && e.Head?
    ensures var plan := PlanFor(world, s.follower, maxDepth, e.b, e.fetch);
            var s' := Step(world, f, maxDepth, s, e);
            if Commits(world, f, maxDepth, s, e)
            then s' == System(Commit(f, s.book, plan.update).value,
                              if e.reply.Lost? then s.follower else Advance(s.follower, maxDepth, plan.update, e.b))
            else s' == s
  {}

  /** From a synced state: a commit whose reply is lost leaves the follower behind, and
      everything else leads to a synced state again. The first block stays. */
  lemma {:induction false} SyncedStep(world: Universe, f: Decoding, maxDepth: nat, s: System, e: Event)
    requires ValidUniverse(world) && Lawful(f)
    requires Genuine(world, f, s) && Synced(s, maxDepth) && ValidEvent(world, e) && e.Head?
    ensures var s' := Step(world, f, maxDepth, s, e);
            && Genuine(world, f, s')
            && (if Commits(world, f, maxDepth, s, e) && e.reply.Lost? then Behind(s') else Synced(s', maxDepth))
            && (s.book.chain != [] ==> s'.book.chain != [] && s'.book.chain[0] == s.book.chain[0])
  {
    var m: nat :| Covers(s.follower.window, s.book.chain, m) && |s.book.chain| - m <= maxDepth + 1;
    hide ReorgTo, PlanFor, Commit, Advance, Replay, Canonical, Lawful, Covers, WindowKnown, ValidUniverse, Served,
         Answers, Step;
    PlanMeaning(world, s.follower, s.book.chain, m, maxDepth, e.b, e.fetch);
    hide Synced, Behind;
    HeadOutcome(world, f, maxDepth, s, e);
    if Commits(world, f, maxDepth, s, e) {
      SyncedCommit(world, f, maxDepth, s, m, PlanFor(world, s.follower, maxDepth, e.b, e.fetch).update, e.b);
    }
  }

  /** The two ways a commit can end for a synced follower. */
  lemma {:induction false} SyncedCommit(world: Universe, f: Decoding, maxDepth: nat, s: System, m: nat, u: Update,
                                        b: Block)
    requires ValidUniverse(world) && Lawful(f) && Served(world, b)
    requires Genuine(world, f, s) && Synced(s, maxDepth)
    requires Covers(s.follower.window, s.book.chain, m) && ReorgTo(world, s.book.chain, m, maxDepth, u, b)
    requires Commit(f, s.book, u).Some?
    ensures var next := Commit(f, s.book, u).value;
            && Canonical(world, next.chain) && Replay(f, next.chain) == Some(next.tables)
            && Behind(System(next, s.follower))
            && WindowKnown(world, Advance(s.follower, maxDepth, u, b).window)
            && Synced(System(next, Advance(s.follower, maxDepth, u, b)), maxDepth)
            && next.chain != []
            && (s.book.chain != [] ==> next.chain[0] == s.book.chain[0])
  {
    var chain := s.book.chain;
    SyncedWindowBelow(world, f, maxDepth, s);
    CommitKeepsReplay(world, f, s.book, u);
    CommittedWindow(world, s.follower.window, chain, m, maxDepth, u, b);
    NewTipDiffers(world, chain, u, b);
  }

  lemma {:induction false} NewTipDiffers(world: Universe, chain: seq<Block>, u: Update, b: Block)
    requires ValidUniverse(world) && Served(world, b) && u.apply != [] && u.apply[|u.apply| - 1] == b
    requires forall i, j | 0 <= i < |u.apply| && 0 <= j < |chain| :: u.apply[i].hash != chain[j].hash
    ensures TipHash(chain) != TipHash(NextChain(chain, u)) == b.hash
  {}

  lemma {:induction false} CommittedWindow(world: Universe, w: map<Hash, Block>, chain: seq<Block>, m: nat,
                                           maxDepth: nat, u: Update, b: Block)
    requires ValidUniverse(world) && Canonical(world, chain) && WindowKnown(world, w)
    requires Covers(w, chain, m) && ReorgTo(world, chain, m, maxDepth, u, b)
    ensures var chain' := NextChain(chain, u);
            var w' := Prune(MoveWindow(w, u), b.height, maxDepth);
            && WindowKnown(world, w')
            && chain'[|chain'| - 1] == b
            && exists m' :: Covers(w', chain', m') && |chain'| - m' <= maxDepth + 1
  {
    var chain' := NextChain(chain, u);
    NextChainIsCanonical(world, chain, u);
    WindowMoves(world, w, u);
    MovedWindowCovers(world, w, chain, m, maxDepth, u, b);
    assert chain'[|chain'| - 1] == b;
    var m' := PrunedWindowCovers(world, MoveWindow(w, u), chain', m, maxDepth);
  }

  /** A follower that missed a commit never changes the store: its proposals all start
      from its own tip, which is not the store's. Only one that had no block at all
      may adopt a child of the store's tip, and is in sync from then on. */
  lemma {:induction false} BehindIsFailStop(world: Universe, f: Decoding, maxDepth: nat, s: System, b: Block,
                                            fetch: map<Hash, Block>)
    requires ValidUniverse(world) && Canonical(world, s.book.chain) && WindowKnown(world, s.follower.window)
    requires Behind(s) && Served(world, b) && Answers(world, fetch)
    ensures var plan := PlanFor(world, s.follower, maxDepth, b, fetch);
            && (plan.Propose? && s.follower.tip != NO_HASH ==> Commit(f, s.book, plan.update).None?)
            && (plan.Propose? && s.follower.tip == NO_HASH ==> plan.update == Update([], [b]))
  {
    var w, T := s.follower.window, TipHash(s.book.chain);
    assert T != NO_HASH by {
      assert Served(world, s.book.chain[|s.book.chain| - 1]);
    }
    if b.hash !in w && s.follower.tip != NO_HASH && b.parentHash != s.follower.tip {
      assert Branch(world, w, [b], b.parentHash, b);
      WalkMeaning(world, w, maxDepth, fetch, [b], b.parentHash, b);
      match WalkToKnown(w, maxDepth, fetch, [b], b.parentHash)
      case Err(_) =>
      case Ok((branch, ancestor)) =>
        var rollback := RollbackFrom(world, w, s.follower.tip, ancestor);
    }
  }

  /** From a state behind the store: with a tip nothing changes at all, without one the
      head may be adopted. */
  lemma {:induction false} BehindStep(world: Universe, f: Decoding, maxDepth: nat, s: System, e: Event)
    requires ValidUniverse(world) && Lawful(f)
    requires Genuine(world, f, s) && Behind(s) && ValidEvent(world, e) && e.Head?
    ensures var s' := Step(world, f, maxDepth, s, e);
            && Genuine(world, f, s')
            && (if Commits(world, f, maxDepth, s, e) && e.reply.Committed? then Synced(s', maxDepth) else Behind(s'))
            && (s.follower.tip != NO_HASH ==> s' == s && !Commits(world, f, maxDepth, s, e))
            && s'.book.chain != [] && s'.book.chain[0] == s.book.chain[0]
  {
    BehindIsFailStop(world, f, maxDepth, s, e.b, e.fetch);
    hide PlanFor, Commit, Advance, Replay, Canonical, Lawful, WindowKnown, ValidUniverse, Served, Answers, Step, Synced;
    HeadOutcome(world, f, maxDepth, s, e);
    if Commits(world, f, maxDepth, s, e) {
      AdoptedCommit(world, f, maxDepth, s, e.b);
    }
  }

  lemma {:induction false} AdoptedWindow(world: Universe, maxDepth: nat, chain: seq<Block>, b: Block)
    requires ValidUniverse(world) && Canonical(world, chain + [b]) && Served(world, b)
    ensures var w := Prune(MoveWindow(map[], Update([], [b])), b.height, maxDepth);
            && WindowKnown(world, w)
            && exists m :: Covers(w, chain + [b], m) && |chain + [b]| - m <= maxDepth + 1
  {
    var w := MoveWindow(map[], Update([], [b]));
    WindowMoves(world, map[], Update([], [b]));
    OneBlockWindow(chain, b, w);
    hide ValidUniverse, Canonical, BlocksMoved, PutAll, MoveWindow, HoldsFrom;
    var m := PrunedWindowCovers(world, w, chain + [b], |chain|, maxDepth);
  }

  /** A follower without any block appends the head to the store's chain. */
  lemma {:induction false} AdoptedCommit(world: Universe, f: Decoding, maxDepth: nat, s: System, b: Block)
    requires ValidUniverse(world) && Lawful(f) && Served(world, b)
    requires Genuine(world, f, s) && Behind(s) && s.follower.tip == NO_HASH
    requires Commit(f, s.book, Update([], [b])).Some?
    ensures var u := Update([], [b]);
            var next := Commit(f, s.book, u).value;
            && Canonical(world, next.chain) && Replay(f, next.chain) == Some(next.tables)
            && Behind(System(next, s.follower))
            && WindowKnown(world, Advance(s.follower, maxDepth, u, b).window)
            && Synced(System(next, Advance(s.follower, maxDepth, u, b)), maxDepth)
            && next.chain != []
            && next.chain[0] == s.book.chain[0]
  {
    var u := Update([], [b]);
    CommitKeepsReplay(world, f, s.book, u);
    hide Canonical, Replay, Lawful, WindowKnown, Covers, MoveWindow, Prune, Erase, HeightsOf;
    assert NextChain(s.book.chain, u) == s.book.chain + [b];
    AdoptedWindow(world, maxDepth, s.book.chain, b);
    assert b.hash != NO_HASH;
  }

  lemma {:induction false} OneBlockWindow(chain: seq<Block>, b: Block, w: map<Hash, Block>)
    requires w == MoveWindow(map[], Update([], [b]))
    ensures Covers(w, chain + [b], |chain|)
  {
    var none: map<Hash, Block> := map[];
    var one := [b];
    assert one[..|one| - 1] == [];
    assert PutAll(none, one[..|one| - 1]) == none;
    assert PutAll(none, one) == none[b.hash := b];
    assert none - (set rb <- Update([], [b]).rollback :: rb.hash) == none;
    assert (chain + [b])[|chain|] == b;
  }

  /** Every event keeps the invariant, and whether the follower is in sync afterwards is
      decided by the event alone when it restarts or commits: a commit must be heard of. */
  lemma {:induction false} StepKeepsInv(world: Universe, f: Decoding, maxDepth: nat, s: System, e: Event)
    requires ValidUniverse(world) && Lawful(f)
    requires Inv(world, f, maxDepth, s) && ValidEvent(world, e)
    ensures var s' := Step(world, f, maxDepth, s, e);
            && Inv(world, f, maxDepth, s')
            && (s.book.chain != [] ==> s'.book.chain != [] && s'.book.chain[0] == s.book.chain[0])
            && (Synced(s', maxDepth) <==>
                  || e.Restart?
                  || (if Commits(world, f, maxDepth, s, e) then e.reply.Committed? else Synced(s, maxDepth)))
  {
    GenuineWindow(world, f, s);
    hide Commits, Genuine, Synced, Behind, Step, WindowKnown, ValidUniverse, Lawful;
    CommitsIsNotAborted(world, f, maxDepth, s, e);
    if e.Restart? {
      RestartKeepsInv(world, f, maxDepth, s);
    } else {
      NotBoth(Step(world, f, maxDepth, s, e), maxDepth);
      NotBoth(s, maxDepth);
      if Synced(s, maxDepth) {
        SyncedStep(world, f, maxDepth, s, e);
      } else {
        BehindStep(world, f, maxDepth, s, e);
      }
    }
  }

  lemma {:induction false} NotBoth(s: System, maxDepth: nat)
    ensures !(Synced(s, maxDepth) && Behind(s))
  {}

  lemma {:induction false} GenuineWindow(world: Universe, f: Decoding, s: System)
    requires Genuine(world, f, s)
    ensures WindowKnown(world, s.follower.window)
  {}

  lemma {:induction false} RestartKeepsInv(world: Universe, f: Decoding, maxDepth: nat, s: System)
    requires ValidUniverse(world) && Genuine(world, f, s)
    ensures var s' := Step(world, f, maxDepth, s, Restart);
            Genuine(world, f, s') && Synced(s', maxDepth) && s'.book == s.book
  {
    RestartSyncs(world, maxDepth, s.book.chain);
  }

  lemma {:induction false} CommitsIsNotAborted(world: Universe, f: Decoding, maxDepth: nat, s: System, e: Event)
    requires ValidUniverse(world) && WindowKnown(world, s.follower.window)
    ensures Commits(world, f, maxDepth, s, e) ==> e.Head? && !e.reply.Aborted?
  {}

  // ---- All runs ------------------------------------------------------------------------

  /** The state after a run; from Inv on, so that every step is defined. */
  ghost function Run(world: Universe, f: Decoding, maxDepth: nat, s: System, events: seq<Event>): (s': System)
    requires ValidUniverse(world) && Lawful(f) && Inv(world, f, maxDepth, s)
    requires forall i | 0 <= i < |events| :: ValidEvent(world, events[i])
    ensures Inv(world, f, maxDepth, s')
    ensures s.book.chain != [] ==> s'.book.chain != [] && s'.book.chain[0] == s.book.chain[0]
    decreases |events|
  {
    if events == [] then s
    else
      var n := |events| - 1;
      var before := Run(world, f, maxDepth, s, events[..n]);
      StepKeepsInv(world, f, maxDepth, before, events[n]);
      Step(world, f, maxDepth, before, events[n])
  }

  lemma {:induction false} InitialIsInv(world: Universe, f: Decoding, maxDepth: nat)
    ensures Inv(world, f, maxDepth, INITIAL) && Synced(INITIAL, maxDepth)
  {
    assert Covers(INITIAL.follower.window, [], 0);
  }

  /** History independence: after any run, the tables are what a fresh replay of the
      current canonical chain gives, whatever reorgs and failures happened. */
  lemma {:induction false} HistoryIndependence(world: Universe, f: Decoding, maxDepth: nat, events: seq<Event>)
    requires ValidUniverse(world) && Lawful(f)
    requires forall i | 0 <= i < |events| :: ValidEvent(world, events[i])
    ensures Inv(world, f, maxDepth, INITIAL)
    ensures var s := Run(world, f, maxDepth, INITIAL, events);
            && Canonical(world, s.book.chain)
            && Replay(f, s.book.chain) == Some(s.book.tables)
  {
    InitialIsInv(world, f, maxDepth);
  }

  /** Every table state a run can reach obeys the life cycle, so no trim is ever missed,
      also after arbitrary reorgs. */
  lemma {:induction false} LifecycleInAllRuns(world: Universe, f: Decoding, maxDepth: nat, events: seq<Event>)
    requires ValidUniverse(world) && Lawful(f)
    requires forall i | 0 <= i < |events| :: ValidEvent(world, events[i])
    ensures Inv(world, f, maxDepth, INITIAL)
    ensures var s := Run(world, f, maxDepth, INITIAL, events);
            if s.book.chain == [] then s.book.tables == EMPTY
            else Lifecycle(s.book.tables, s.book.chain[0].height, TipHeight(s.book.chain), TipHeight(s.book.chain) + 1)
  {
    HistoryIndependence(world, f, maxDepth, events);
    var s := Run(world, f, maxDepth, INITIAL, events);
    ChainIsConsecutive(world, s.book.chain);
    if s.book.chain != [] {
      ReplayLifecycle(f, s.book.chain);
    }
  }

  /** The last commit since the last restart, if there was one, was heard of. */
  ghost predicate LastCommitHeard(world: Universe, f: Decoding, maxDepth: nat, events: seq<Event>)
    requires ValidUniverse(world) && Lawful(f) && Inv(world, f, maxDepth, INITIAL)
    requires forall i | 0 <= i < |events| :: ValidEvent(world, events[i])
    decreases |events|
  {
    events == []
    || (var n := |events| - 1;
        || events[n].Restart?
        || (if Commits(world, f, maxDepth, Run(world, f, maxDepth, INITIAL, events[..n]), events[n])
            then events[n].reply.Committed?
            else LastCommitHeard(world, f, maxDepth, events[..n])))
  }

  /** The window invariant of all runs, exactly: the follower stands at the store's tip
      and its window is the top of the canonical chain, at most maxDepth + 1 blocks, if
      and only if no commit since the last restart is the last one and went unheard. */
  lemma {:induction false} WindowInvariant(world: Universe, f: Decoding, maxDepth: nat, events: seq<Event>)
    requires ValidUniverse(world) && Lawful(f)
    requires forall i | 0 <= i < |events| :: ValidEvent(world, events[i])
    ensures Inv(world, f, maxDepth, INITIAL)
    ensures Synced(Run(world, f, maxDepth, INITIAL, events), maxDepth) <==> LastCommitHeard(world, f, maxDepth, events)
    decreases |events|
  {
    InitialIsInv(world, f, maxDepth);
    hide Synced, Commits, Step, Inv, ValidEvent;
    if events != [] {
      var n := |events| - 1;
      WindowInvariant(world, f, maxDepth, events[..n]);
      StepKeepsInv(world, f, maxDepth, Run(world, f, maxDepth, INITIAL, events[..n]), events[n]);
    }
  }

  /** No commit can go unheard when no reply was lost since the last restart. */
  ghost predicate RepliesArrived(events: seq<Event>) {
    events == [] || (var e := events[|events| - 1];
                     e.Restart? || (!e.reply.Lost? && RepliesArrived(events[..|events| - 1])))
  }

  lemma {:induction false} ArrivedRepliesSuffice(world: Universe, f: Decoding, maxDepth: nat, events: seq<Event>)
    requires ValidUniverse(world) && Lawful(f) && RepliesArrived(events)
    requires forall i | 0 <= i < |events| :: ValidEvent(world, events[i])
    ensures Inv(world, f, maxDepth, INITIAL)
    ensures LastCommitHeard(world, f, maxDepth, events)
    decreases |events|
  {
    InitialIsInv(world, f, maxDepth);
    hide Inv, ValidEvent;
    if events != [] && events[|events| - 1].Head? {
      ArrivedRepliesSuffice(world, f, maxDepth, events[..|events| - 1]);
    }
  }

  /** A single lost reply is enough to break the invariant: the very first commit. */
  lemma {:induction false} LostReplyDesyncs(world: Universe, f: Decoding, maxDepth: nat, b: Block)
    requires ValidUniverse(world) && Lawful(f) && Served(world, b) && f(b).Some?
    ensures var e := Head(b, map[], Lost);
            && ValidEvent(world, e)
            && Inv(world, f, maxDepth, INITIAL)
            && !Synced(Run(world, f, maxDepth, INITIAL, [e]), maxDepth)
  {
    var e := Head(b, map[], Lost);
    InitialIsInv(world, f, maxDepth);
    assert [e][..0] == [];
    assert Run(world, f, maxDepth, INITIAL, []) == INITIAL;
    FirstBlockCommits(f, b);
    assert Commits(world, f, maxDepth, INITIAL, e);
    StepKeepsInv(world, f, maxDepth, INITIAL, e);
  }

  lemma {:induction false} FirstBlockCommits(f: Decoding, b: Block)
    requires Lawful(f) && f(b).Some?
    ensures Commit(f, INITIAL.book, Update([], [b])).Some?
  {
    assert BlockShaped(f(b).value, b.height);
    BlocksSnoc(f, [], b);
    assert [] + [b] == [b];
  }

  /** A follower that has a tip and missed a commit stops for good: until a restart no
      head changes the store or the follower. */
  lemma {:induction false} StuckUntilRestart(world: Universe, f: Decoding, maxDepth: nat, s: System, events: seq<Event>)
    requires ValidUniverse(world) && Lawful(f)
    requires Inv(world, f, maxDepth, s) && Behind(s) && s.follower.tip != NO_HASH
    requires forall i | 0 <= i < |events| :: ValidEvent(world, events[i]) && events[i].Head?
    ensures Run(world, f, maxDepth, s, events) == s
    decreases |events|
  {
    if events != [] {
      var n := |events| - 1;
      StuckUntilRestart(world, f, maxDepth, s, events[..n]);
      BehindStep(world, f, maxDepth, s, events[n]);
    }
  }

  // ---- The window is never broken ---------------------------------------------------------

  /** The follower's window covers the top of some canonical chain that ends in its tip,
      which need not be the store's. */
  ghost predicate Anchored(world: Universe, f: FollowerState) {
    exists c, m :: Canonical(world, c) && f.tip == TipHash(c) && Covers(f.window, c, m)
  }

  lemma {:induction false} SyncedIsAnchored(world: Universe, f: Decoding, maxDepth: nat, s: System)
    requires Genuine(world, f, s) && Synced(s, maxDepth)
    ensures Anchored(world, s.follower)
  {}

  lemma {:induction false} StepKeepsAnchor(world: Universe, f: Decoding, maxDepth: nat, s: System, e: Event)
    requires ValidUniverse(world) && Lawful(f)
    requires Inv(world, f, maxDepth, s) && ValidEvent(world, e) && Anchored(world, s.follower)
    ensures Anchored(world, Step(world, f, maxDepth, s, e).follower)
  {
    StepKeepsInv(world, f, maxDepth, s, e);
    var s' := Step(world, f, maxDepth, s, e);
    hide Anchored, Synced, Behind, Step, Commits, Genuine;
    if Synced(s', maxDepth) {
      SyncedIsAnchored(world, f, maxDepth, s');
    } else {
      GenuineWindow(world, f, s);
      HeadOutcome(world, f, maxDepth, s, e);
      CommitsIsNotAborted(world, f, maxDepth, s, e);
    }
  }

  lemma {:induction false} RunIsAnchored(world: Universe, f: Decoding, maxDepth: nat, events: seq<Event>)
    requires ValidUniverse(world) && Lawful(f)
    requires forall i | 0 <= i < |events| :: ValidEvent(world, events[i])
    ensures Inv(world, f, maxDepth, INITIAL)
    ensures Anchored(world, Run(world, f, maxDepth, INITIAL, events).follower)
    decreases |events|
  {
    InitialIsInv(world, f, maxDepth);
    if events == [] {
      SyncedIsAnchored(world, f, maxDepth, INITIAL);
    } else {
      var n := |events| - 1;
      RunIsAnchored(world, f, maxDepth, events[..n]);
      StepKeepsAnchor(world, f, maxDepth, Run(world, f, maxDepth, INITIAL, events[..n]), events[n]);
    }
  }

  lemma {:induction false} AnchoredPlan(world: Universe, f: FollowerState, maxDepth: nat, b: Block,
                                        fetch: map<Hash, Block>)
    requires ValidUniverse(world) && WindowKnown(world, f.window) && Served(world, b) && Answers(world, fetch)
    requires Anchored(world, f)
    ensures PlanFor(world, f, maxDepth, b, fetch) != Fail(WindowBroken)
  {
    hide PlanFor, Canonical, Covers, ReorgTo, WindowKnown, ValidUniverse;
    var c, m :| Canonical(world, c) && f.tip == TipHash(c) && Covers(f.window, c, m);
    PlanMeaning(world, f, c, m, maxDepth, b, fetch);
  }

  /** In no reachable state, synced or behind, can an Ingest fail with "window broken". */
  lemma {:induction false} WindowIsNeverBroken(world: Universe, f: Decoding, maxDepth: nat, events: seq<Event>,
                                               b: Block, fetch: map<Hash, Block>, reply: Reply)
    requires ValidUniverse(world) && Lawful(f) && Served(world, b) && Answers(world, fetch)
    requires forall i | 0 <= i < |events| :: ValidEvent(world, events[i])
    ensures Inv(world, f, maxDepth, INITIAL)
    ensures Ingest(world, f, maxDepth, Run(world, f, maxDepth, INITIAL, events), b, fetch, reply).1
         != Some(WindowBroken)
  {
    hide PlanFor, Commit, Advance, Run, Anchored, Genuine, Synced, Behind, WindowKnown, ValidUniverse, Lawful;
    RunIsAnchored(world, f, maxDepth, events);
    var s := Run(world, f, maxDepth, INITIAL, events);
    GenuineWindow(world, f, s);
    AnchoredPlan(world, s.follower, maxDepth, b, fetch);
  }
}
