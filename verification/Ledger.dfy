/** What a chain of blocks does to the tables, for any lawful way of decoding a
    block into statements. */
module Ledger {
  import opened Prelude
  import opened Chain
  import opened Tables

  /** How a block becomes statements; None is a decode error. */
  type Decoding = Block -> Option<seq<Stmt>>

  /** What every statement before the sweep of a block at height h looks like. */
  predicate Shaped(s: Stmt, h: nat) {
    && HeightOf(s) == h <= MAX_INT64
    && !s.SweepTrims?
    && (s.InsertUtxo? && s.deadline.Some? ==> s.deadline.value > h)
  }

  /** All statements carry the block's height, the trim sweep comes last and only
      there, and every new row's deadline lies ahead. */
  ghost predicate BlockShaped(ss: seq<Stmt>, h: nat) {
    && |ss| > 0
    && ss[|ss| - 1] == SweepTrims(h)
    && (forall i | 0 <= i < |ss| - 1 :: Shaped(ss[i], h))
    && h <= MAX_INT64
  }

  ghost predicate Lawful(f: Decoding) {
    forall b | f(b).Some? :: BlockShaped(f(b).value, b.height)
  }

  lemma {:induction false} BlockHeights(f: Decoding, b: Block)
    requires Lawful(f) && f(b).Some?
    ensures forall i | 0 <= i < |f(b).value| :: HeightOf(f(b).value[i]) == b.height
  {}

  /** First a, then b; an error in either is an error. */
  function Then(a: Option<seq<Stmt>>, b: Option<seq<Stmt>>): Option<seq<Stmt>> {
    if a.Some? && b.Some? then Some(a.value + b.value) else None
  }

  function BlocksStmts(f: Decoding, blocks: seq<Block>): Option<seq<Stmt>> {
    if blocks == [] then Some([])
    else Then(BlocksStmts(f, blocks[..|blocks| - 1]), f(blocks[|blocks| - 1]))
  }

  lemma {:induction false} BlocksSnoc(f: Decoding, blocks: seq<Block>, b: Block)
    ensures BlocksStmts(f, blocks + [b]) == Then(BlocksStmts(f, blocks), f(b))
  {}

  lemma {:induction false} ThenNothing(a: Option<seq<Stmt>>)
    ensures Then(a, Some([])) == a
  {
    if a.Some? {
      assert a.value + [] == a.value;
    }
  }

  lemma {:induction false} ThenAssoc(x: Option<seq<Stmt>>, y: Option<seq<Stmt>>, z: Option<seq<Stmt>>)
    ensures Then(Then(x, y), z) == Then(x, Then(y, z))
  {
    if x.Some? && y.Some? && z.Some? {
      assert (x.value + y.value) + z.value == x.value + (y.value + z.value);
    }
  }

  lemma {:induction false} NothingThen(a: Option<seq<Stmt>>)
    ensures Then(Some([]), a) == a
  {
    if a.Some? {
      assert [] + a.value == a.value;
    }
  }

  /** Every block decodes; for a lawful decoding this includes that its height can be
      stored. */
  ghost predicate Decodable(f: Decoding, blocks: seq<Block>) {
    forall i | 0 <= i < |blocks| :: f(blocks[i]).Some?
  }

  lemma {:induction false} DecodesIff(f: Decoding, blocks: seq<Block>)
    requires Lawful(f)
    ensures BlocksStmts(f, blocks).Some? <==> Decodable(f, blocks)
    ensures BlocksStmts(f, blocks).Some? ==> forall i | 0 <= i < |blocks| :: blocks[i].height <= MAX_INT64
  {
    if blocks != [] {
      var n := |blocks| - 1;
      DecodesIff(f, blocks[..n]);
      assert forall i | 0 <= i < n :: blocks[..n][i] == blocks[i];
      assert f(blocks[n]).Some? ==> BlockShaped(f(blocks[n]).value, blocks[n].height);
    }
  }

  lemma {:induction false} LaterBlocksFail(f: Decoding, blocks: seq<Block>, n: nat)
    requires n <= |blocks| && BlocksStmts(f, blocks[..n]).None?
    ensures BlocksStmts(f, blocks).None?
    decreases |blocks|
  {
    if n < |blocks| {
      assert blocks[..|blocks| - 1][..n] == blocks[..n];
      LaterBlocksFail(f, blocks[..|blocks| - 1], n);
    } else {
      assert blocks[..n] == blocks;
    }
  }

  lemma {:induction false} BlocksConcat(f: Decoding, a: seq<Block>, b: seq<Block>)
    ensures BlocksStmts(f, a + b) == Then(BlocksStmts(f, a), BlocksStmts(f, b))
  {
    if b == [] {
      assert a + b == a;
      ThenNothing(BlocksStmts(f, a));
    } else {
      var n := |b| - 1;
      BlocksConcat(f, a, b[..n]);
      assert a + b == (a + b[..n]) + [b[n]];
      BlocksSnoc(f, a + b[..n], b[n]);
      ThenAssoc(BlocksStmts(f, a), BlocksStmts(f, b[..n]), f(b[n]));
    }
  }

  /** The tables a fresh indexer has after decoding this chain. */
  function Replay(f: Decoding, chain: seq<Block>): Option<Contents> {
    var ss :- BlocksStmts(f, chain);
    Some(ExecAll(EMPTY, ss))
  }

  ghost predicate Consecutive(chain: seq<Block>) {
    forall i | 0 <= i < |chain| :: chain[i].height == chain[0].height + i
  }

  lemma {:induction false} ReplayAppend(f: Decoding, chain: seq<Block>, blocks: seq<Block>)
    ensures Replay(f, chain + blocks).Some? <==> Replay(f, chain).Some? && BlocksStmts(f, blocks).Some?
    ensures Replay(f, chain).Some? && BlocksStmts(f, blocks).Some? ==>
              Replay(f, chain + blocks) == Some(ExecAll(Replay(f, chain).value, BlocksStmts(f, blocks).value))
  {
    BlocksConcat(f, chain, blocks);
    if BlocksStmts(f, chain).Some? && BlocksStmts(f, blocks).Some? {
      ExecConcat(EMPTY, BlocksStmts(f, chain).value, BlocksStmts(f, blocks).value);
    }
  }

  lemma {:induction false} ReplayStep(f: Decoding, chain: seq<Block>, b: Block)
    ensures Replay(f, chain + [b]).Some? <==> Replay(f, chain).Some? && f(b).Some?
    ensures Replay(f, chain).Some? && f(b).Some? ==>
              Replay(f, chain + [b]) == Some(ExecAll(Replay(f, chain).value, f(b).value))
  {
    ReplayAppend(f, chain, [b]);
    assert [b][..0] == [];
    if f(b).Some? {
      assert [] + f(b).value == f(b).value;
    }
  }

  ghost function HeightsOf(blocks: seq<Block>): iset<nat> {
    iset b <- blocks :: b.height
  }
}
