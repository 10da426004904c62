/** The reconcile command's backfill: decoding again blocks that are already in the
    store. */
module Reconcile {
  import opened Prelude
  import opened Chain
  import opened QiDecode
  import opened Tables
  import opened Ledger
  import opened Fate
  import opened Decoder
  import opened References
  import opened Samples
  import Hex

  // ---- The range ----------------------------------------------------------------------

  /** Subtraction of two uint64 values. */
  function SubUint64(x: U64, y: U64): U64 {
    if x >= y then x - y else x - y + TWO_64
  }

  /** The first height of the backfill, in the command's uint64 arithmetic. */
  function BackfillStart(minHeight: U64, maxHeight: U64, nBlocks: U64): U64 {
    var from := AddUint64(SubUint64(maxHeight, nBlocks), 1);
    if from < minHeight then minHeight else from
  }

  /** The range is the last nBlocks stored heights exactly when nBlocks is at most the
      tip height plus one. For a larger number the subtraction wraps around, the range
      starts above the tip and nothing is backfilled. */
  lemma {:induction false} BackfillRangeIff(minHeight: U64, maxHeight: U64, nBlocks: U64)
    requires minHeight <= maxHeight <= MAX_INT64
    ensures var first := if maxHeight - nBlocks + 1 < minHeight then minHeight else maxHeight - nBlocks + 1;
            BackfillStart(minHeight, maxHeight, nBlocks) == first <==> nBlocks <= maxHeight + 1
    ensures nBlocks > maxHeight + 1 ==> BackfillStart(minHeight, maxHeight, nBlocks) > maxHeight
  {}

  /** The default of 2000 blocks on a chain that ends at height 100. */
  lemma {:induction false} ShortChainIsNotBackfilled()
    ensures BackfillStart(1, 100, 2000) > 100
  {}

  /** The node serves the stored chain: blocks of the requested heights, ascending,
      perhaps with gaps. */
  ghost predicate ServesChain(ranges: Ranges, chain: seq<Block>) {
    forall from: nat, to: nat | ranges(from, to).Some? ::
      && (forall i | 0 <= i < |ranges(from, to).value| ::
            ranges(from, to).value[i] in chain && from <= ranges(from, to).value[i].height < to)
      && (forall i, j | 0 <= i < j < |ranges(from, to).value| ::
            ranges(from, to).value[i].height < ranges(from, to).value[j].height)
  }

  ghost predicate Gapless(ranges: Ranges) {
    forall from: nat, to: nat | from <= to && ranges(from, to).Some? :: |ranges(from, to).value| == to - from
  }

  /** from, from + 1, ..., to - 1. */
  function Heights(from: nat, to: nat): seq<nat>
    decreases to - from
  {
    if from >= to then [] else [from] + Heights(from + 1, to)
  }

  lemma {:induction false} HeightsSplit(from: nat, mid: nat, to: nat)
    requires from <= mid <= to
    ensures Heights(from, to) == Heights(from, mid) + Heights(mid, to)
    decreases mid - from
  {
    if from < mid {
      HeightsSplit(from + 1, mid, to);
    }
  }

  /** Ascending blocks that fill their range have its heights one by one. */
  lemma {:induction false} FilledRange(blocks: seq<Block>, from: nat, to: nat, n: nat)
    requires from <= to && |blocks| == to - from && n < |blocks|
    requires forall i | 0 <= i < |blocks| :: from <= blocks[i].height < to
    requires forall i, j | 0 <= i < j < |blocks| :: blocks[i].height < blocks[j].height
    ensures blocks[n].height == from + n
  {
    AtLeast(blocks, from, n);
    AtMost(blocks, to, n);
  }

  lemma {:induction false} AtLeast(blocks: seq<Block>, from: nat, n: nat)
    requires n < |blocks| && from <= blocks[0].height
    requires forall i, j | 0 <= i < j < |blocks| :: blocks[i].height < blocks[j].height
    ensures blocks[n].height >= from + n
  {
    if n > 0 {
      AtLeast(blocks, from, n - 1);
    }
  }

  lemma {:induction false} AtMost(blocks: seq<Block>, to: nat, n: nat)
    requires n < |blocks| && blocks[|blocks| - 1].height < to
    requires forall i, j | 0 <= i < j < |blocks| :: blocks[i].height < blocks[j].height
    ensures blocks[n].height + (|blocks| - n) <= to
    decreases |blocks| - n
  {
    if n < |blocks| - 1 {
      AtMost(blocks, to, n + 1);
    }
  }

  lemma {:induction false} HeightsSnoc(from: nat, to: nat)
    requires from <= to
    ensures Heights(from, to + 1) == Heights(from, to) + [to]
  {
    HeightsSplit(from, to, to + 1);
    assert Heights(to + 1, to + 1) == [];
  }

  /** No input of a chain block finds an open row. */
  ghost predicate Settled(f: Decoding, chain: seq<Block>, t: Contents) {
    forall n | 0 <= n < |chain| :: f(chain[n]).Some? ==> !HitsOpenRow(t, f(chain[n]).value)
  }

  /** Decodes one block in a transaction of its own. */
  method DecodeInTransaction(c: Consensus, tx: Session, b: Block) returns (ok: bool)
    modifies tx
    ensures ok == Decode(c)(b).Some?
    ensures tx.View() == if ok then ExecAll(old(tx.View()), Decode(c)(b).value) else old(tx.View())
  {
    var utxos, conversions := tx.utxos, tx.conversions;
    ok := ApplyBlock(c, tx, b);
    if !ok {
      tx.utxos, tx.conversions := utxos, conversions;
    }
  }

  /** A block of the chain, decoded again, succeeds and changes nothing. */
  lemma {:induction false} ChainBlockRepeats(f: Decoding, chain: seq<Block>, b: Block)
    requires Lawful(f) && Consecutive(chain) && Replay(f, chain).Some? && b in chain
    requires Settled(f, chain, Replay(f, chain).value)
    ensures f(b).Some? && ExecAll(Replay(f, chain).value, f(b).value) == Replay(f, chain).value
  {
    var n: nat :| n < |chain| && chain[n] == b;
    RedecodeIsNoopIff(f, chain, n);
  }

  /** On a chain whose inputs only spend outputs of earlier transactions, no input finds
      an open row: the backfill's condition is met. */
  lemma {:induction false} ReferringBackSettles(c: Consensus, chain: seq<Block>)
    requires Consecutive(chain) && Replay(Decode(c), chain).Some?
    requires ChainRefersBack(c, chain)
    ensures Settled(Decode(c), chain, Replay(Decode(c), chain).value)
  {
    DecodeIsLawful(c);
    ReferBackIff(c, chain);
    hide Decode, Replay, ChainRefersBack, InputsReferBack, HitsOpenRow;
    forall n: nat | n < |chain| {
      ReferringBackIsEnough(Decode(c), chain, n);
    }
  }

  lemma {:induction false} ServedRange(ranges: Ranges, chain: seq<Block>, from: nat, to: nat, n: nat)
    requires ServesChain(ranges, chain) && from <= to && ranges(from, to).Some? && n < |ranges(from, to).value|
    ensures ranges(from, to).value[n] in chain
    ensures Gapless(ranges) ==> |ranges(from, to).value| == to - from && ranges(from, to).value[n].height == from + n
  {
    if Gapless(ranges) {
      FilledRange(ranges(from, to).value, from, to, n);
    }
  }

  /** The batched loop of the backfill. When the tables are the replay of the stored
      chain, the node serves that chain, and no input finds an open row, the backfill
      fails only if a range call does, and leaves both tables as they were. When the
      ranges have no gaps it decodes the block of every height from `from` to the tip,
      each once and in order. */
  method Backfill(c: Consensus, tx: Session, from: U64, maxHeight: U64, ranges: Ranges, ghost chain: seq<Block>)
    returns (ok: bool, done: nat, ghost visited: seq<nat>)
    requires maxHeight <= MAX_INT64
    requires Consecutive(chain) && ServesChain(ranges, chain)
    requires Replay(Decode(c), chain) == Some(tx.View())
    requires Settled(Decode(c), chain, tx.View())
    modifies tx
    ensures tx.View() == old(tx.View())
    ensures (forall a: nat, b: nat :: ranges(a, b).Some?) ==> ok
    ensures done == |visited|
    ensures ok && Gapless(ranges) ==> visited == Heights(from, maxHeight + 1)
  {
    hide Heights, Settled, ServesChain, Replay, Decode;
    ghost var f := Decode(c);
    ghost var t := tx.View();
    DecodeIsLawful(c);
    NoHeights(from, from);
    NoHeights(from, maxHeight + 1);
    done, visited := 0, [];
    var h: nat := from;
    while h <= maxHeight
      invariant tx.View() == t
      invariant h >= from && done == |visited|
      invariant Gapless(ranges) && h <= maxHeight ==> visited == Heights(from, h)
      invariant Gapless(ranges) && h > maxHeight ==> visited == Heights(from, maxHeight + 1)
      decreases maxHeight - h
    {
      var end := h + BATCH;
      if end > maxHeight + 1 {
        end := maxHeight + 1;
      }
      var blocks := ranges(h, end);
      if blocks.None? {
        return false, done, visited;
      }
      for i := 0 to |blocks.value|
        invariant tx.View() == t && done + i == |visited|
        invariant Gapless(ranges) ==> visited == Heights(from, h + i)
      {
        ServedRange(ranges, chain, h, end, i);
        ChainBlockRepeats(f, chain, blocks.value[i]);
        ok := DecodeInTransaction(c, tx, blocks.value[i]);
        assert ok;
        HeightsSnoc(from, h + i);
        visited := visited + [blocks.value[i].height];
      }
      done := done + |blocks.value|;
      assert Gapless(ranges) ==> |blocks.value| == end - h;
      h := h + BATCH;
    }
    ok := true;
  }

  lemma {:induction false} NoHeights(from: nat, to: nat)
    ensures from >= to ==> Heights(from, to) == []
  {}

  lemma {:induction false} TipIsHighest(chain: seq<Block>)
    requires Consecutive(chain) && chain != []
    ensures chain[0].height <= TipHeight(chain)
  {}

  /** A whole run with n blocks on the stored chain: it needs a block, and decodes the
      last n stored blocks, each once and in order, unless n exceeds the tip height plus
      one; then it meets no error and decodes none. */
  method BackfillLast(c: Consensus, tx: Session, chain: seq<Block>, nBlocks: U64, ranges: Ranges)
    returns (ok: bool, done: nat, ghost visited: seq<nat>)
    requires Consecutive(chain) && ServesChain(ranges, chain)
    requires Replay(Decode(c), chain) == Some(tx.View())
    requires Settled(Decode(c), chain, tx.View())
    modifies tx
    ensures tx.View() == old(tx.View())
    ensures chain == [] ==> !ok
    ensures chain != [] && (forall a: nat, b: nat :: ranges(a, b).Some?) ==> ok
    ensures done == |visited|
    ensures ok && Gapless(ranges) ==>
              var tip := TipHeight(chain);
              visited == if nBlocks > tip + 1 then []
                         else if tip - nBlocks + 1 < chain[0].height then Heights(chain[0].height, tip + 1)
                         else Heights(tip - nBlocks + 1, tip + 1)
  {
    hide Decode, Settled, ServesChain, Heights, BackfillStart;
    if chain == [] {
      return false, 0, [];
    }
    DecodeIsLawful(c);
    DecodesIff(Decode(c), chain);
    TipIsHighest(chain);
    var minHeight, maxHeight := chain[0].height, TipHeight(chain);
    var from := BackfillStart(minHeight, maxHeight, nBlocks);
    BackfillRangeIff(minHeight, maxHeight, nBlocks);
    ok, done, visited := Backfill(c, tx, from, maxHeight, ranges, chain);
    NoHeights(from, maxHeight + 1);
  }

  // ---- When inputs refer forward -----------------------------------------------------

  /** Transaction a, listed first, spends output 0 of transaction b, listed second. */
  function ForwardBlock(a: Bytes, b: Bytes, addr: Bytes, h: nat): Block {
    Block(h, Hash("f"), Hash("e"), Some([
      BareTx(a, [RawTxIn(RawOutpoint(Hex.Encode(b), 0), "")], []),
      PayTx(b, addr, 0)]))
  }

  /** The statements of the forward block: the spend comes before the row exists. */
  lemma {:induction false} ForwardStmts(c: Consensus, a: Bytes, b: Bytes, addr: Bytes, h: nat)
    requires |a| == 32 && |b| == 32 && IsQiScope(addr)
    requires h <= MAX_INT64 && TrimDeadline(c, 0, h) <= MAX_INT64
    ensures BlockStmts(c, ForwardBlock(a, b, addr, h))
         == Some([MarkSpent(h, a, None, b, 0), UtxoStmt(c, b, 0, addr, 0, 0, SOURCE_QI_TX, h), SweepTrims(h)])
  {
    SpenderStmts(c, a, b, h);
    PayerStmts(c, b, addr, 0, h);
    var txs := ForwardBlock(a, b, addr, h).raw.value;
    assert EtxStmts(c, txs[0], h) == Some([]) && EtxStmts(c, txs[1], h) == Some([]);
    hide QiTxStmts, UtxoStmt, EtxStmts, TrimDeadline, IsQiScope, BareTx, PayTx;
    TwoTxsStmts(c, ForwardBlock(a, b, addr, h), txs[0], txs[1]);
  }

  /** A block of two Qi transactions of one statement each. */
  lemma {:induction false} TwoTxsStmts(c: Consensus, b: Block, one: RawTx, two: RawTx)
    requires b.raw == Some([one, two]) && b.height <= MAX_INT64
    requires QiTxStmts(c, one, b.height).Some? && |QiTxStmts(c, one, b.height).value| == 1
    requires QiTxStmts(c, two, b.height).Some? && |QiTxStmts(c, two, b.height).value| == 1
    requires EtxStmts(c, one, b.height) == EtxStmts(c, two, b.height) == Some([])
    ensures BlockStmts(c, b)
         == Some([QiTxStmts(c, one, b.height).value[0], QiTxStmts(c, two, b.height).value[0], SweepTrims(b.height)])
  {
    hide QiTxStmts, EtxStmts;
    var h := b.height;
    assert [one, two][1..] == [two] && [two][1..] == [];
    assert QiTxsStmts(c, [], h) == Some([]) && EtxsStmts(c, [], h) == Some([]);
    ThenNothing(Some([]));
    assert EtxsStmts(c, [two], h) == Some([]) && EtxsStmts(c, [one, two], h) == Some([]);
    assert QiTxsStmts(c, [two], h) == QiTxStmts(c, two, h) by {
      ThenNothing(QiTxStmts(c, two, h));
    }
    var both := Then(QiTxStmts(c, one, h), QiTxStmts(c, two, h));
    assert QiTxsStmts(c, [one, two], h) == both;
    ThenNothing(both);
    assert both.value + [SweepTrims(h)] == [both.value[0], both.value[1], SweepTrims(h)];
  }

  /** Decoding again can change the tables: after the forward block, the row of b's
      output is open; decoding the block a second time marks it spent by a. */
  lemma {:induction false} ForwardReferenceIsSpentOnRepeat(c: Consensus, a: Bytes, b: Bytes, addr: Bytes, h: nat)
    requires |a| == 32 && |b| == 32 && IsQiScope(addr)
    requires h <= MAX_INT64 && TrimDeadline(c, 0, h) <= MAX_INT64
    ensures var block := ForwardBlock(a, b, addr, h);
            var once := Replay(Decode(c), [block]);
            && once.Some?
            && Decode(c)(block).Some?
            && ExecAll(once.value, Decode(c)(block).value) != once.value
  {
    var block := ForwardBlock(a, b, addr, h);
    ForwardStmts(c, a, b, addr, h);
    DecodeIsLawful(c);
    var f := Decode(c);
    var spend, create := MarkSpent(h, a, None, b, 0), UtxoStmt(c, b, 0, addr, 0, 0, SOURCE_QI_TX, h);
    var sweep := SweepTrims(h);
    var ss := f(block).value;
    assert ss == [spend, create, sweep];
    var chain := [block];
    BlocksSnoc(f, [], block);
    assert [] + [block] == chain;
    assert BlocksStmts(f, chain) == Some([] + ss);
    assert [] + ss == ss;
    var k := UtxoKey(b, 0, h);
    DeadlineIsLater(c, 0, h);
    assert BornAt(ss, k, 1) && NeverClosed(ss, k, 1);
    var closer := RowFate(ss, k, 1);
    assert closer.None?;
    var t := Replay(f, chain).value;
    assert Open(t.utxos[k]) && Matches(ss[0], k, t.utxos[k]);
    RedecodeIsNoopIff(f, chain, 0);
  }
}
