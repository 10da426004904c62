/** The update for a head is determined by the canonical chain alone, so a restart,
    which changes only how deep the window reaches, is invisible to the store. */
module Transparency {
  import opened Prelude
  import opened Chain
  import opened Ledger
  import opened Stores
  import opened PostgresStore
  import opened FollowerSpec
  import opened Window
  import opened Runs

  /** Two branches that end in the same head agree from the head downwards. */
  lemma {:induction false} BranchesAgree(world: Universe, a: seq<Block>, b: seq<Block>, k: nat)
    requires ValidUniverse(world) && Canonical(world, a) && Canonical(world, b)
    requires a != [] && b != [] && a[|a| - 1] == b[|b| - 1]
    requires k < |a| && k < |b|
    ensures a[|a| - 1 - k] == b[|b| - 1 - k]
  {
    if k > 0 {
      BranchesAgree(world, a, b, k - 1);
      var i, j := |a| - k, |b| - k;
      assert a[i] == b[j];
      assert a[i].parentHash == a[i - 1].hash && b[j].parentHash == b[j - 1].hash;
      assert Served(world, a[i - 1]) && Served(world, b[j - 1]);
    }
  }

  /** The shorter of two branches starts from a block of the longer one. */
  lemma {:induction false} ShorterStartsInside(world: Universe, a: seq<Block>, b: seq<Block>)
    requires ValidUniverse(world) && Canonical(world, a) && Canonical(world, b)
    requires a != [] && |a| < |b| && a[|a| - 1] == b[|b| - 1]
    ensures a[0].parentHash == b[|b| - 1 - |a|].hash
  {
    BranchesAgree(world, a, b, |a| - 1);
    assert b[|b| - |a|].parentHash == b[|b| - |a| - 1].hash;
  }

  /** Of two reorganisations to the same head neither applies fewer blocks. */
  lemma {:induction false} BranchNotShorter(world: Universe, chain: seq<Block>, u: Update, v: Update, m: nat, n: nat,
                                            maxDepth: nat, b: Block)
    requires ValidUniverse(world) && Canonical(world, chain) && chain != []
    requires ReorgTo(world, chain, m, maxDepth, u, b) && ReorgTo(world, chain, n, maxDepth, v, b)
    ensures |u.apply| >= |v.apply|
  {
    if |u.apply| < |v.apply| {
      ShorterStartsInside(world, u.apply, v.apply);
    }
  }

  /** The branch point is the highest canonical ancestor of the head, hence unique:
      rollback and apply lists are the same for every window. */
  lemma {:induction false} ReorgIsUnique(world: Universe, chain: seq<Block>, u: Update, v: Update, m: nat, n: nat,
                                         maxDepth: nat, b: Block)
    requires ValidUniverse(world) && Canonical(world, chain) && chain != []
    requires ReorgTo(world, chain, m, maxDepth, u, b) && ReorgTo(world, chain, n, maxDepth, v, b)
    ensures u.apply == v.apply
    ensures |u.rollback| == |v.rollback|
    ensures forall j | 0 <= j < |u.rollback| :: Spine(u.rollback[j]) == Spine(v.rollback[j])
  {
    BranchNotShorter(world, chain, u, v, m, n, maxDepth, b);
    BranchNotShorter(world, chain, v, u, n, m, maxDepth, b);
    forall i: nat | i < |u.apply|
      ensures u.apply[i] == v.apply[i]
    {
      BranchesAgree(world, u.apply, v.apply, |u.apply| - 1 - i);
    }
    HashesDiffer(world, chain, Kept(chain, u) - 1, Kept(chain, v) - 1);
  }

  lemma {:induction false} SameHeights(a: seq<Block>, b: seq<Block>)
    requires |a| == |b| && forall j | 0 <= j < |a| :: Spine(a[j]) == Spine(b[j])
    ensures HeightsOf(a) == HeightsOf(b)
  {}

  /** What an Ingest can leave in the store: nothing new, or the proposed commit. */
  lemma {:induction false} IngestBook(world: Universe, f: Decoding, maxDepth: nat, s: System, b: Block,
                                      fetch: map<Hash, Block>, reply: Reply)
    requires ValidUniverse(world) && WindowKnown(world, s.follower.window)
    ensures var plan := PlanFor(world, s.follower, maxDepth, b, fetch);
            var book := Ingest(world, f, maxDepth, s, b, fetch, reply).0.book;
            || book == s.book
            || (plan.Propose? && Commit(f, s.book, plan.update) == Some(book))
  {}

  lemma {:induction false} SameCommit(f: Decoding, book: Book, u: Update, v: Update)
    requires Connects(TipHash(book.chain), u) && Connects(TipHash(book.chain), v)
    requires u.apply == v.apply && |u.rollback| == |v.rollback|
    requires forall j | 0 <= j < |u.rollback| :: Spine(u.rollback[j]) == Spine(v.rollback[j])
    ensures Commit(f, book, u) == Commit(f, book, v)
  {
    SameHeights(u.rollback, v.rollback);
  }

  lemma {:induction false} SamePlan(world: Universe, f: Decoding, maxDepth: nat, book: Book, one: FollowerState,
                                    two: FollowerState, b: Block, fetch: map<Hash, Block>, fetch': map<Hash, Block>)
    requires ValidUniverse(world) && Served(world, b) && Answers(world, fetch) && Answers(world, fetch')
    requires Canonical(world, book.chain) && WindowKnown(world, one.window) && WindowKnown(world, two.window)
    requires Synced(System(book, one), maxDepth) && Synced(System(book, two), maxDepth)
    ensures var p, q := PlanFor(world, one, maxDepth, b, fetch), PlanFor(world, two, maxDepth, b, fetch');
            p.Propose? && q.Propose? ==> Commit(f, book, p.update) == Commit(f, book, q.update)
  {
    var chain := book.chain;
    var m: nat :| Covers(one.window, chain, m);
    var n: nat :| Covers(two.window, chain, n);
    PlanMeaning(world, one, chain, m, maxDepth, b, fetch);
    PlanMeaning(world, two, chain, n, maxDepth, b, fetch');
    var p, q := PlanFor(world, one, maxDepth, b, fetch), PlanFor(world, two, maxDepth, b, fetch');
    if chain != [] && p.Propose? && q.Propose? {
      ReorgIsUnique(world, chain, p.update, q.update, m, n, maxDepth, b);
      SameCommit(f, book, p.update, q.update);
    }
  }

  /** Two followers on the same store, with windows of different depth, never commit
      different updates for the same head: the store ends the same, or one of them
      left it unchanged. */
  lemma {:induction false} RestartTransparency(world: Universe, f: Decoding, maxDepth: nat, s: System,
                                               other: FollowerState, b: Block, fetch: map<Hash, Block>,
                                               fetch': map<Hash, Block>, reply: Reply, reply': Reply)
    requires ValidUniverse(world) && Served(world, b) && Answers(world, fetch) && Answers(world, fetch')
    requires Canonical(world, s.book.chain) && WindowKnown(world, s.follower.window) && WindowKnown(world, other.window)
    requires Synced(s, maxDepth) && Synced(System(s.book, other), maxDepth)
    ensures var one := Ingest(world, f, maxDepth, s, b, fetch, reply).0.book;
            var two := Ingest(world, f, maxDepth, System(s.book, other), b, fetch', reply').0.book;
            one == two || one == s.book || two == s.book
  {
    SamePlan(world, f, maxDepth, s.book, s.follower, other, b, fetch, fetch');
    IngestBook(world, f, maxDepth, s, b, fetch, reply);
    IngestBook(world, f, maxDepth, System(s.book, other), b, fetch', reply');
  }

  /** In particular a running follower and one just restarted on the same store: for any
      head, the store ends the same whichever of them ingests it, unless one of the two
      leaves it unchanged. */
  lemma {:induction false} RestartIsInvisible(world: Universe, f: Decoding, maxDepth: nat, s: System, b: Block,
                                              fetch: map<Hash, Block>, fetch': map<Hash, Block>, reply: Reply,
                                              reply': Reply)
    requires ValidUniverse(world) && Served(world, b) && Answers(world, fetch) && Answers(world, fetch')
    requires Inv(world, f, maxDepth, s) && Synced(s, maxDepth)
    ensures var restarted := Step(world, f, maxDepth, s, Restart);
            && WindowKnown(world, restarted.follower.window)
            && var one := Ingest(world, f, maxDepth, s, b, fetch, reply).0.book;
               var two := Ingest(world, f, maxDepth, restarted, b, fetch', reply').0.book;
               one == two || one == s.book || two == s.book
  {
    hide Ingest, ValidUniverse, Canonical, Replay, WindowKnown, Covers, Resume;
    RestartSyncs(world, maxDepth, s.book.chain);
    RestartTransparency(world, f, maxDepth, s, Resume(s.book.chain, maxDepth), b, fetch, fetch', reply, reply');
  }
}
