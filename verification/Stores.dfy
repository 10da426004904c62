/** The two stores. Both validate an update against the current tip and then move
    blocks, tables and tip in one step. */
module Stores {
  import opened Prelude
  import opened Chain
  import opened Tables
  import opened Ledger
  import opened History
  import opened Fate

  // ---- Validation ------------------------------------------------------------------

  /** Where the rollback list leads from the tip; None when it is not the tip's own
      ancestry. */
  function WalkDown(cur: Hash, rollback: seq<Block>): Option<Hash>
    decreases rollback
  {
    if rollback == [] then Some(cur)
    else if rollback[0].hash != cur then None
    else WalkDown(rollback[0].parentHash, rollback[1..])
  }

  /** The stores' acceptance test. An empty store adopts any first block. */
  ghost predicate Connects(tip: Hash, u: Update) {
    && u.apply != []
    && WalkDown(tip, u.rollback).Some?
    && (tip != NO_HASH ==> u.apply[0].parentHash == WalkDown(tip, u.rollback).value)
    && Linked(u.apply)
  }

  function Kept(chain: seq<Block>, u: Update): (n: nat)
    ensures n <= |chain|
  {
    if |u.rollback| <= |chain| then |chain| - |u.rollback| else 0
  }

  /** The canonical chain after an accepted update. */
  function NextChain(chain: seq<Block>, u: Update): seq<Block> {
    chain[..Kept(chain, u)] + u.apply
  }

  /** What the follower hands over: blocks as the node serves them, except that
      rollback blocks may have lost their bodies. */
  ghost predicate UpdateFrom(world: Universe, u: Update) {
    && (forall i | 0 <= i < |u.apply| :: Served(world, u.apply[i]))
    && (forall i | 0 <= i < |u.rollback| :: Known(world, u.rollback[i]))
  }

  /** The abstract store: its canonical chain and its tables. */
  datatype Book = Book(chain: seq<Block>, tables: Contents)

  /** An update as one atomic step; None leaves the store as it was. */
  ghost function Commit(f: Decoding, book: Book, u: Update): Option<Book> {
    if !Connects(TipHash(book.chain), u) || (exists b <- u.apply :: b.height > MAX_INT64) then None
    else
      var ss :- BlocksStmts(f, u.apply);
      Some(Book(NextChain(book.chain, u), ExecAll(Erase(book.tables, HeightsOf(u.rollback)), ss)))
  }

  /** What a rollback list that passes validation is: the top of the chain, tip first,
      possibly followed by blocks below the chain's first one. */
  lemma {:induction false} RollbackIsTop(world: Universe, chain: seq<Block>, rollback: seq<Block>, i: nat)
    requires ValidUniverse(world) && Canonical(world, chain)
    requires forall j | 0 <= j < |rollback| :: Known(world, rollback[j])
    requires WalkDown(TipHash(chain), rollback).Some?
    requires i < |rollback|
    ensures chain != []
    ensures i < |chain| ==> Spine(rollback[i]) == Spine(chain[|chain| - 1 - i])
    ensures i >= |chain| ==> rollback[i].height < chain[0].height
    decreases i
  {
    if i == 0 {
      assert rollback[0].hash == TipHash(chain);
    } else {
      RollbackIsTop(world, chain, rollback, i - 1);
      WalkDownStep(TipHash(chain), rollback, i);
      assert Known(world, rollback[i]) && Known(world, rollback[i - 1]);
    }
  }

  lemma {:induction false} WalkDownStep(cur: Hash, rollback: seq<Block>, i: nat)
    requires WalkDown(cur, rollback).Some? && 0 < i < |rollback|
    ensures rollback[i].hash == rollback[i - 1].parentHash
    decreases i
  {
    if i == 1 {
      assert rollback[1..][0] == rollback[1];
    } else {
      WalkDownStep(rollback[0].parentHash, rollback[1..], i - 1);
    }
  }

  lemma {:induction false} WalkDownEnd(cur: Hash, rollback: seq<Block>)
    decreases rollback
    requires WalkDown(cur, rollback).Some? && rollback != []
    ensures WalkDown(cur, rollback).value == rollback[|rollback| - 1].parentHash
  {
    if |rollback| > 1 {
      WalkDownEnd(rollback[0].parentHash, rollback[1..]);
    }
  }

  lemma {:induction false} WalkDownSnoc(cur: Hash, rollback: seq<Block>, n: nat)
    requires n < |rollback|
    ensures WalkDown(cur, rollback[..n]).None? ==> WalkDown(cur, rollback).None?
    ensures WalkDown(cur, rollback[..n]).Some? && WalkDown(cur, rollback[..n]).value != rollback[n].hash ==>
              WalkDown(cur, rollback).None?
    ensures WalkDown(cur, rollback[..n]).Some? && WalkDown(cur, rollback[..n]).value == rollback[n].hash ==>
              WalkDown(cur, rollback[..n + 1]) == Some(rollback[n].parentHash)
    decreases rollback
  {
    if n > 0 {
      assert rollback[..n][1..] == rollback[1..][..n - 1] && rollback[..n + 1][1..] == rollback[1..][..n];
      if rollback[0].hash == cur {
        WalkDownSnoc(rollback[0].parentHash, rollback[1..], n - 1);
      }
    } else {
      assert rollback[..1][1..] == [];
    }
  }

  /** An accepted update leads from a canonical chain to a canonical chain. */
  lemma {:induction false} NextChainIsCanonical(world: Universe, chain: seq<Block>, u: Update)
    requires ValidUniverse(world) && Canonical(world, chain) && UpdateFrom(world, u)
    requires Connects(TipHash(chain), u)
    ensures Canonical(world, NextChain(chain, u))
    ensures u.apply != [] && NextChain(chain, u) != []
    ensures TipHash(NextChain(chain, u)) == u.apply[|u.apply| - 1].hash
  {
    var n := Kept(chain, u);
    if n > 0 {
      assert TipHash(chain) != NO_HASH by { assert Served(world, chain[|chain| - 1]); }
      if u.rollback != [] {
        var k := |u.rollback|;
        RollbackIsTop(world, chain, u.rollback, k - 1);
        WalkDownEnd(TipHash(chain), u.rollback);
        assert chain[n].parentHash == chain[n - 1].hash;
      }
    }
  }

  lemma {:induction false} ChainIsConsecutive(world: Universe, chain: seq<Block>)
    requires ValidUniverse(world) && Canonical(world, chain)
    ensures Consecutive(chain)
  {
    forall i: nat | i < |chain| {
      CanonicalHeights(world, chain, 0, i);
    }
  }

  /** The heights of an accepted rollback, seen from the chain: exactly the top ones. */
  lemma {:induction false} RollbackHeights(world: Universe, chain: seq<Block>, u: Update, i: nat)
    requires ValidUniverse(world) && Canonical(world, chain) && UpdateFrom(world, u)
    requires WalkDown(TipHash(chain), u.rollback).Some? && i < |chain|
    ensures chain[i].height in HeightsOf(u.rollback) <==> i >= Kept(chain, u)
  {
    if i >= Kept(chain, u) {
      var j := |chain| - 1 - i;
      RollbackIsTop(world, chain, u.rollback, j);
      assert u.rollback[j] in u.rollback && u.rollback[j].height == chain[i].height;
    } else if chain[i].height in HeightsOf(u.rollback) {
      var b :| b in u.rollback && b.height == chain[i].height;
      var j: nat :| j < |u.rollback| && u.rollback[j] == b;
      RollbackIsTop(world, chain, u.rollback, j);
      CanonicalHeights(world, chain, 0, i);
      CanonicalHeights(world, chain, i, |chain| - 1 - j);
    }
  }

  /** History independence, one step: if the tables are what a fresh replay of the
      chain gives, then so they are after any update the store accepts, from
      whatever client. */
  lemma {:induction false} CommitKeepsReplay(world: Universe, f: Decoding, book: Book, u: Update)
    requires ValidUniverse(world) && Lawful(f)
    requires Canonical(world, book.chain) && UpdateFrom(world, u)
    requires Replay(f, book.chain) == Some(book.tables)
    requires Commit(f, book, u).Some?
    ensures var next := Commit(f, book, u).value;
            Canonical(world, next.chain) && Replay(f, next.chain) == Some(next.tables)
  {
    var chain := book.chain;
    NextChainIsCanonical(world, chain, u);
    ChainIsConsecutive(world, chain);
    forall i: nat | i < |chain| {
      RollbackHeights(world, chain, u, i);
    }
    RollbackIsReplayOfPrefix(f, chain, u.rollback, |chain| - Kept(chain, u));
    ReplayAppend(f, chain[..Kept(chain, u)], u.apply);
  }

  /** Only the rollback of a row's own heights touches a closed row: a commit that rolls
      back neither its creation nor its spend or trim leaves it as it is. */
  lemma {:induction false} ClosedRowSurvivesCommit(f: Decoding, book: Book, u: Update, k: UtxoKey)
    requires Commit(f, book, u).Some?
    requires k in book.tables.utxos && !Open(book.tables.utxos[k])
    requires k.createdBlock !in HeightsOf(u.rollback)
    requires var row := book.tables.utxos[k];
             && (row.spentBlock.Some? ==> row.spentBlock.value !in HeightsOf(u.rollback))
             && (row.trimmedBlock.Some? ==> row.trimmedBlock.value !in HeightsOf(u.rollback))
    ensures var next := Commit(f, book, u).value.tables.utxos;
            k in next && next[k] == book.tables.utxos[k]
  {
    ClosedRowIsFinal(Erase(book.tables, HeightsOf(u.rollback)), BlocksStmts(f, u.apply).value, k);
  }

  // ---- The blocks table ---------------------------------------------------------------

  ghost predicate Stored(blocks: map<Hash, Block>, b: Block) {
    b.hash in blocks && Spine(blocks[b.hash]) == Spine(b)
  }

  ghost predicate OnChain(chain: seq<Block>, m: nat, h: Hash) {
    exists i :: m <= i < |chain| && chain[i].hash == h
  }

  /** The table holds exactly chain[m..], perhaps without the bodies. */
  ghost predicate HoldsFrom(blocks: map<Hash, Block>, chain: seq<Block>, m: nat) {
    && (forall i | m <= i < |chain| :: Stored(blocks, chain[i]))
    && (forall h | h in blocks :: OnChain(chain, m, h))
  }

  ghost predicate Holds(blocks: map<Hash, Block>, chain: seq<Block>) { HoldsFrom(blocks, chain, 0) }

  /** The n most recent blocks, tip first. */
  function Recent(chain: seq<Block>, n: nat): seq<Block> {
    if n == 0 || chain == [] then [] else [chain[|chain| - 1]] + Recent(chain[..|chain| - 1], n - 1)
  }

  function Spines(blocks: seq<Block>): (r: seq<Block>)
    ensures |r| == |blocks| && forall i | 0 <= i < |r| :: r[i] == Spine(blocks[i])
  {
    seq(|blocks|, i requires 0 <= i < |blocks| => Spine(blocks[i]))
  }

  lemma {:induction false} RecentAt(chain: seq<Block>, n: nat)
    ensures |Recent(chain, n)| == Min(n, |chain|)
    ensures forall i | 0 <= i < Min(n, |chain|) :: Recent(chain, n)[i] == chain[|chain| - 1 - i]
  {
    if n > 0 && chain != [] {
      RecentAt(chain[..|chain| - 1], n - 1);
    }
  }

  /** The most recent blocks, read back, are served blocks without their bodies. */
  lemma {:induction false} RecentIsKnown(world: Universe, chain: seq<Block>, n: nat)
    requires Canonical(world, chain)
    ensures var recent := Spines(Recent(chain, n));
            && |recent| == Min(n, |chain|)
            && forall j | 0 <= j < |recent| :: Known(world, recent[j]) && recent[j] == Spine(chain[|chain| - 1 - j])
  {
    RecentAt(chain, n);
    assert forall i: nat | i < |chain| :: Served(world, chain[i]);
  }

  /** The parent of the first block is not on the chain. */
  lemma {:induction false} NothingBelowFirst(world: Universe, chain: seq<Block>, i: nat)
    requires ValidUniverse(world) && Canonical(world, chain) && i < |chain|
    ensures chain[i].hash != chain[0].parentHash
  {
    CanonicalHeights(world, chain, 0, i);
    assert Served(world, chain[0]) && Served(world, chain[i]);
  }

  lemma {:induction false} HashesDiffer(world: Universe, chain: seq<Block>, i: nat, j: nat)
    requires ValidUniverse(world) && Canonical(world, chain) && i < |chain| && j < |chain|
    ensures chain[i].hash == chain[j].hash <==> i == j
  {
    if i < j {
      CanonicalHeights(world, chain, i, j);
    } else {
      CanonicalHeights(world, chain, j, i);
    }
  }

  /** A kept block is not among the rolled back ones, and every other one is. */
  lemma {:induction false} RolledBackHashes(world: Universe, chain: seq<Block>, u: Update, i: nat)
    requires ValidUniverse(world) && Canonical(world, chain) && UpdateFrom(world, u)
    requires WalkDown(TipHash(chain), u.rollback).Some? && i < |chain|
    ensures i < Kept(chain, u) <==> forall j | 0 <= j < |u.rollback| :: u.rollback[j].hash != chain[i].hash
  {
    if i < Kept(chain, u) {
      forall j: nat | j < |u.rollback|
        ensures u.rollback[j].hash != chain[i].hash
      {
        RollbackIsTop(world, chain, u.rollback, j);
        HashesDiffer(world, chain, i, |chain| - 1 - j);
      }
    } else {
      RollbackIsTop(world, chain, u.rollback, |chain| - 1 - i);
    }
  }

  /** The blocks table after the rollback hashes are gone and the applied blocks in. */
  ghost predicate BlocksMoved(world: Universe, blocks: map<Hash, Block>, next: map<Hash, Block>, u: Update) {
    && (forall h | h in next :: h in world && Spine(next[h]) == Spine(world[h]))
    && (forall h :: h in next <==>
          || (exists j :: 0 <= j < |u.apply| && u.apply[j].hash == h)
          || (h in blocks && forall j | 0 <= j < |u.rollback| :: u.rollback[j].hash != h))
  }

  lemma {:induction false} NextBlocks(world: Universe, blocks: map<Hash, Block>, next: map<Hash, Block>,
                                      chain: seq<Block>, m: nat, u: Update)
    requires ValidUniverse(world) && Canonical(world, chain) && UpdateFrom(world, u)
    requires Connects(TipHash(chain), u) && BlocksMoved(world, blocks, next, u)
    requires m <= Kept(chain, u) && HoldsFrom(blocks, chain, m)
    ensures HoldsFrom(next, NextChain(chain, u), m)
  {
    hide ValidUniverse, UpdateFrom, Connects, BlocksMoved, Stored, OnChain, Canonical;
    forall i: nat | m <= i < |NextChain(chain, u)|
      ensures Stored(next, NextChain(chain, u)[i])
    {
      NextBlockIsStored(world, blocks, next, chain, m, u, i);
    }
    forall h | h in next
      ensures OnChain(NextChain(chain, u), m, h)
    {
      StoredIsOnNext(world, blocks, next, chain, m, u, h);
    }
  }

  lemma {:induction false} NextBlockIsStored(world: Universe, blocks: map<Hash, Block>, next: map<Hash, Block>,
                                             chain: seq<Block>, m: nat, u: Update, i: nat)
    requires ValidUniverse(world) && Canonical(world, chain) && UpdateFrom(world, u)
    requires Connects(TipHash(chain), u) && BlocksMoved(world, blocks, next, u)
    requires m <= Kept(chain, u) && HoldsFrom(blocks, chain, m) && m <= i < |NextChain(chain, u)|
    ensures Stored(next, NextChain(chain, u)[i])
  {
    var n := Kept(chain, u);
    NextChainIsCanonical(world, chain, u);
    hide ValidUniverse, UpdateFrom, WalkDown;
    assert Served(world, NextChain(chain, u)[i]);
    if i < n {
      RolledBackHashes(world, chain, u, i);
      assert Stored(blocks, chain[i]);
    } else {
      assert NextChain(chain, u)[i] == u.apply[i - n];
    }
  }

  lemma {:induction false} StoredIsOnNext(world: Universe, blocks: map<Hash, Block>, next: map<Hash, Block>,
                                          chain: seq<Block>, m: nat, u: Update, h: Hash)
    requires ValidUniverse(world) && Canonical(world, chain) && UpdateFrom(world, u)
    requires Connects(TipHash(chain), u) && BlocksMoved(world, blocks, next, u)
    requires m <= Kept(chain, u) && HoldsFrom(blocks, chain, m) && h in next
    ensures OnChain(NextChain(chain, u), m, h)
  {
    var n := Kept(chain, u);
    hide ValidUniverse, UpdateFrom, WalkDown, Canonical, Linked;
    if j :| 0 <= j < |u.apply| && u.apply[j].hash == h {
      assert NextChain(chain, u)[n + j].hash == h;
    } else {
      assert OnChain(chain, m, h);
      var i: nat :| m <= i < |chain| && chain[i].hash == h;
      RolledBackHashes(world, chain, u, i);
      assert NextChain(chain, u)[i].hash == h;
    }
  }

  // ---- The loops of ApplyUpdate --------------------------------------------------------

  /** The validation loops, the same in both stores. */
  method Validate(tip: Hash, u: Update) returns (ok: bool)
    requires u.apply != []
    ensures ok <==> Connects(tip, u)
  {
    var cur := tip;
    for n := 0 to |u.rollback|
      invariant WalkDown(tip, u.rollback[..n]) == Some(cur)
    {
      WalkDownSnoc(tip, u.rollback, n);
      if u.rollback[n].hash != cur {
        return false;
      }
      cur := u.rollback[n].parentHash;
    }
    assert u.rollback[..|u.rollback|] == u.rollback;
    if tip != NO_HASH && u.apply[0].parentHash != cur {
      return false;
    }
    for i := 1 to |u.apply|
      invariant Linked(u.apply[..i])
    {
      if u.apply[i].parentHash != u.apply[i - 1].hash {
        return false;
      }
    }
    assert u.apply[..|u.apply|] == u.apply;
    ok := true;
  }

  /** The delete and insert loops over a blocks table. A conflicting insert keeps the
      old block in Postgres and replaces it in memory. */
  method MoveBlocks(ghost world: Universe, blocks: map<Hash, Block>, u: Update, replace: bool)
    returns (next: map<Hash, Block>)
    requires UpdateFrom(world, u)
    requires forall h | h in blocks :: h in world && Spine(blocks[h]) == Spine(world[h])
    ensures BlocksMoved(world, blocks, next, u)
  {
    next := blocks;
    for n := 0 to |u.rollback|
      invariant forall h | h in next :: h in world && Spine(next[h]) == Spine(world[h])
      invariant forall h :: h in next <==> h in blocks && forall j | 0 <= j < n :: u.rollback[j].hash != h
    {
      next := next - {u.rollback[n].hash};
    }
    ghost var kept := next;
    for n := 0 to |u.apply|
      invariant forall h | h in next :: h in world && Spine(next[h]) == Spine(world[h])
      invariant forall h :: h in next <==> h in kept || exists j :: 0 <= j < n && u.apply[j].hash == h
    {
      var b := u.apply[n];
      if replace {
        next := next[b.hash := b];
      } else if b.hash !in next {
        next := next[b.hash := Spine(b)];
      }
    }
  }

  /** A blocks table holding a canonical chain holds served blocks only. */
  lemma {:induction false} HeldBlocksAreKnown(world: Universe, blocks: map<Hash, Block>, chain: seq<Block>)
    requires Canonical(world, chain) && Holds(blocks, chain)
    ensures forall h | h in blocks :: h in world && Spine(blocks[h]) == Spine(world[h])
  {}

  /** A walk from the tip has collected out and stands at hash cur. */
  ghost predicate Walked(chain: seq<Block>, out: seq<Block>, cur: Hash) {
    && |out| <= |chain|
    && (forall i | 0 <= i < |out| :: Spine(out[i]) == Spine(chain[|chain| - 1 - i]))
    && cur == if |out| < |chain| then chain[|chain| - 1 - |out|].hash
              else if chain == [] then NO_HASH
              else chain[0].parentHash
  }

  /** The walk goes on exactly while the chain does. */
  lemma {:induction false} WalkStep(world: Universe, blocks: map<Hash, Block>, chain: seq<Block>, out: seq<Block>,
                                    cur: Hash)
    requires ValidUniverse(world) && Canonical(world, chain) && Holds(blocks, chain)
    requires Walked(chain, out, cur)
    ensures cur in blocks <==> |out| < |chain|
    ensures |out| < |chain| ==> cur != NO_HASH
    ensures |out| < |chain| ==>
              forall b | Spine(b) == Spine(blocks[cur]) :: Walked(chain, out + [b], b.parentHash)
  {
    if |out| < |chain| {
      assert Served(world, chain[|chain| - 1 - |out|]) && Stored(blocks, chain[|chain| - 1 - |out|]);
    } else if cur in blocks {
      assert OnChain(chain, 0, cur);
      var j: nat :| j < |chain| && chain[j].hash == cur;
      NothingBelowFirst(world, chain, j);
    }
  }

  lemma {:induction false} WalkEnd(chain: seq<Block>, out: seq<Block>, cur: Hash, n: nat)
    requires Walked(chain, out, cur) && |out| == Min(n, |chain|)
    ensures Spines(out) == Spines(Recent(chain, n))
  {
    RecentAt(chain, n);
  }
}
