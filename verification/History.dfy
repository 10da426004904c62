/** Laws of the decoder over whole chains: undo by height, the UTXO life cycle, and
    faithful history. */
module History {
  import opened Prelude
  import opened Chain
  import opened Tables
  import opened Ledger

  lemma {:induction false} BlocksHeights(f: Decoding, blocks: seq<Block>)
    requires Lawful(f)
    requires BlocksStmts(f, blocks).Some?
    ensures forall s <- BlocksStmts(f, blocks).value :: HeightOf(s) in HeightsOf(blocks)
  {
    if blocks != [] {
      var n := |blocks| - 1;
      BlocksHeights(f, blocks[..n]);
      BlockHeights(f, blocks[n]);
    }
  }

  // ---- Undo inverts do ------------------------------------------------------------

  /** Rolling a block back by its height alone removes all it did, whatever it did;
      it restores the table exactly when the table held nothing of that height. */
  lemma {:induction false} RollbackInvertsApply(f: Decoding, t: Contents, b: Block)
    requires Lawful(f)
    requires SpendColumnsAgree(t) && f(b).Some?
    ensures var after := ExecAll(t, f(b).value);
            && Erase(after, iset{b.height}) == Erase(t, iset{b.height})
            && (Erase(after, iset{b.height}) == t <==> Untagged(t, iset{b.height}))
  {
    BlockHeights(f, b);
    EraseExecAll(t, f(b).value, iset{b.height});
    EraseIsNoopIffUntagged(t, iset{b.height});
  }

  /** The same for a whole list, undone in any order. */
  lemma {:induction false} RollbackAllInvertsApplyAll(f: Decoding, t: Contents, blocks: seq<Block>, undone: seq<Block>)
    requires Lawful(f)
    requires SpendColumnsAgree(t) && BlocksStmts(f, blocks).Some?
    requires HeightsOf(undone) == HeightsOf(blocks)
    ensures var after := ExecAll(t, BlocksStmts(f, blocks).value);
            && Erase(after, HeightsOf(undone)) == Erase(t, HeightsOf(blocks))
            && (Erase(after, HeightsOf(undone)) == t <==> Untagged(t, HeightsOf(blocks)))
  {
    BlocksHeights(f, blocks);
    EraseExecAll(t, BlocksStmts(f, blocks).value, HeightsOf(blocks));
    EraseIsNoopIffUntagged(t, HeightsOf(blocks));
  }

  // ---- The life cycle of rows --------------------------------------------------------

  /** A row's columns fit together in a ledger whose blocks so far have heights
      first..tip and whose unlocked open rows fall due no earlier than `due`. */
  predicate RowLife(k: UtxoKey, u: Utxo, first: nat, tip: nat, due: nat) {
    && first <= k.createdBlock <= tip
    && u.createdTx == k.txHash
    && (u.trimDeadline.Some? ==> u.trimDeadline.value > k.createdBlock)
    && (u.spentBlock.None? ==> u.spentTx.None? && u.spenderPubkey.None?)
    && (u.spentBlock.Some? ==> k.createdBlock <= u.spentBlock.value <= tip && u.spentTx.Some? && u.trimmedBlock.None?)
    && (u.trimmedBlock.Some? ==>
          u.trimDeadline == u.trimmedBlock && u.trimmedBlock.value <= tip && u.lockHeight == 0)
    && (u.trimDeadline.Some? && u.lockHeight == 0 ==>
          && (u.spentBlock.Some? ==> u.spentBlock.value <= u.trimDeadline.value)
          && (Open(u) ==> u.trimDeadline.value >= due))
  }

  ghost predicate Lifecycle(t: Contents, first: nat, tip: nat, due: nat) {
    && (forall k | k in t.utxos :: RowLife(k, t.utxos[k], first, tip, due))
    && (forall c | c in t.conversions :: first <= t.conversions[c].blockHeight <= tip)
  }

  lemma {:induction false} StepKeepsLifecycle(t: Contents, s: Stmt, first: nat, h: nat)
    requires Lifecycle(t, first, h, h) && first <= h && Shaped(s, h)
    ensures Lifecycle(Exec(t, s), first, h, h)
  {}

  lemma {:induction false} BodyKeepsLifecycle(t: Contents, ss: seq<Stmt>, first: nat, h: nat)
    requires Lifecycle(t, first, h, h) && first <= h
    requires forall i | 0 <= i < |ss| :: Shaped(ss[i], h)
    ensures Lifecycle(ExecAll(t, ss), first, h, h)
  {
    if ss != [] {
      BodyKeepsLifecycle(t, ss[..|ss| - 1], first, h);
      StepKeepsLifecycle(ExecAll(t, ss[..|ss| - 1]), ss[|ss| - 1], first, h);
    }
  }

  lemma {:induction false} SweepSettlesDue(t: Contents, first: nat, h: nat)
    requires Lifecycle(t, first, h, h)
    ensures Lifecycle(Exec(t, SweepTrims(h)), first, h, h + 1)
  {}

  lemma {:induction false} BlockKeepsLifecycle(f: Decoding, t: Contents, b: Block, first: nat)
    requires Lawful(f)
    requires f(b).Some? && first <= b.height
    requires Lifecycle(t, first, b.height, b.height)
    ensures Lifecycle(ExecAll(t, f(b).value), first, b.height, b.height + 1)
  {
    var ss := f(b).value;
    var body := ss[..|ss| - 1];
    assert BlockShaped(ss, b.height) && ss == body + [SweepTrims(b.height)];
    BodyKeepsLifecycle(t, body, first, b.height);
    ExecSnoc(t, body, SweepTrims(b.height));
    SweepSettlesDue(ExecAll(t, body), first, b.height);
  }

  /** The life cycle of every row of every replayed chain: spent and trimmed exclude
      each other, a spend lies between creation and tip, a trim happens at exactly
      the deadline and only to unlocked rows, and no unlocked row that is still open
      has a deadline at or below the tip. */
  lemma {:induction false} ReplayLifecycle(f: Decoding, chain: seq<Block>)
    requires Lawful(f)
    requires chain != [] && Consecutive(chain) && Replay(f, chain).Some?
    ensures Lifecycle(Replay(f, chain).value, chain[0].height, TipHeight(chain), TipHeight(chain) + 1)
  {
    var n := |chain| - 1;
    assert chain == chain[..n] + [chain[n]];
    ReplayStep(f, chain[..n], chain[n]);
    var before := Replay(f, chain[..n]).value;
    if n > 0 {
      ReplayLifecycle(f, chain[..n]);
    } else {
      assert chain[..0] == [];
      assert before == EMPTY;
    }
    assert Lifecycle(before, chain[0].height, chain[n].height, chain[n].height);
    BlockKeepsLifecycle(f, before, chain[n], chain[0].height);
  }

  /** The sweep tests for equality with the deadline, and misses nothing: an unlocked
      row past its deadline was trimmed at exactly the deadline or spent by then. */
  lemma {:induction false} NoMissedTrims(f: Decoding, chain: seq<Block>, k: UtxoKey)
    requires Lawful(f)
    requires Consecutive(chain) && Replay(f, chain).Some?
    requires k in Replay(f, chain).value.utxos
    ensures var u := Replay(f, chain).value.utxos[k];
            u.lockHeight == 0 && u.trimDeadline.Some? && u.trimDeadline.value <= TipHeight(chain) ==>
              (u.trimmedBlock == u.trimDeadline && u.spentBlock.None?)
              || (u.trimmedBlock.None? && u.spentBlock.Some? && u.spentBlock.value <= u.trimDeadline.value)
  {
    if chain != [] {
      ReplayLifecycle(f, chain);
    }
  }

  // ---- Faithful history --------------------------------------------------------------

  predicate Between(low: nat, h: nat, high: nat) { low <= h <= high }

  ghost function HeightsFrom(low: nat): iset<nat> { iset h: nat | Between(low, h, h) }

  ghost function HeightsOutside(low: nat, high: nat): iset<nat> { iset h: nat | !Between(low, h, high) }

  /** The tip table contains the table of every prefix of the chain: erasing the
      heights above the prefix is the same as replaying the prefix. */
  lemma {:induction false} FaithfulHistory(f: Decoding, chain: seq<Block>, n: nat)
    requires Lawful(f)
    requires Consecutive(chain) && Replay(f, chain).Some? && n <= |chain|
    requires chain != []
    ensures Replay(f, chain[..n]) == Some(Erase(Replay(f, chain).value, HeightsFrom(chain[0].height + n)))
  {
    hide Erase, Exec, HeightsOf, HeightsFrom;
    var low, high := chain[..n], chain[n..];
    assert chain == low + high;
    ReplayAppend(f, low, high);
    var above := HeightsFrom(chain[0].height + n);
    NothingAbove(f, low, chain[0].height + n);
    EraseIsNoopIffUntagged(Replay(f, low).value, above);
    BlocksHeights(f, high);
    SuffixHeights(chain, n);
    EraseExecAll(Replay(f, low).value, BlocksStmts(f, high).value, above);
  }

  lemma {:induction false} SuffixHeights(chain: seq<Block>, n: nat)
    requires Consecutive(chain) && n <= |chain| && chain != []
    ensures HeightsOf(chain[n..]) <= HeightsFrom(chain[0].height + n)
  {}

  lemma {:induction false} NothingAbove(f: Decoding, chain: seq<Block>, h: nat)
    requires Lawful(f)
    requires Consecutive(chain) && Replay(f, chain).Some?
    requires chain != [] ==> h > TipHeight(chain)
    ensures SpendColumnsAgree(Replay(f, chain).value)
    ensures Untagged(Replay(f, chain).value, HeightsFrom(h))
  {
    TagsWithinChain(f, chain);
  }

  /** Rows carry tags of the chain's own heights only. */
  lemma {:induction false} TagsWithinChain(f: Decoding, chain: seq<Block>)
    requires Lawful(f)
    requires Consecutive(chain) && Replay(f, chain).Some?
    ensures SpendColumnsAgree(Replay(f, chain).value)
    ensures chain == [] ==> Replay(f, chain).value == EMPTY
    ensures chain != [] ==>
              Untagged(Replay(f, chain).value, HeightsOutside(chain[0].height, TipHeight(chain)))
  {
    if chain != [] {
      ReplayLifecycle(f, chain);
    }
  }

  /** Rolling back any blocks whose heights include the top k of the chain, and
      otherwise only heights the chain does not have, leaves the shorter chain's
      table: only heights are needed, in any order. */
  lemma {:induction false} RollbackIsReplayOfPrefix(f: Decoding, chain: seq<Block>, undone: seq<Block>, k: nat)
    requires Lawful(f)
    requires Consecutive(chain) && Replay(f, chain).Some? && k <= |chain|
    requires forall i | 0 <= i < |chain| :: chain[i].height in HeightsOf(undone) <==> i >= |chain| - k
    ensures Replay(f, chain[..|chain| - k]) == Some(Erase(Replay(f, chain).value, HeightsOf(undone)))
  {
    TagsWithinChain(f, chain);
    if chain != [] {
      var t := Replay(f, chain).value;
      var n := |chain| - k;
      FaithfulHistory(f, chain, n);
      var a, b := HeightsFrom(chain[0].height + n), HeightsOf(undone);
      var outside := HeightsOutside(chain[0].height, TipHeight(chain));
      forall h: nat | h !in outside
        ensures h in a <==> h in b
      {
        assert chain[h - chain[0].height].height == h;
      }
      assert a - b <= outside && b - a <= outside;
      EraseAgree(t, a, b);
    }
  }
}
