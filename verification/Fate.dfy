/** Row by row, the tables as a function of the statements run: a second,
    declarative account of the ledger. It decides when decoding a block again
    changes nothing. */
module Fate {
  import opened Prelude
  import opened Chain
  import opened Tables
  import opened Ledger
  import opened History

  predicate Creates(s: Stmt, k: UtxoKey) { s.InsertUtxo? && s.key == k }

  /** Statement i is the first to insert key k. */
  predicate BornAt(ss: seq<Stmt>, k: UtxoKey, i: nat) {
    && i < |ss|
    && Creates(ss[i], k)
    && (forall j | 0 <= j < i :: !Creates(ss[j], k))
  }

  /** Statement j is the first after i whose WHERE clause matches the row. */
  predicate ClosedAt(ss: seq<Stmt>, k: UtxoKey, i: nat, j: nat) {
    && i < j < |ss|
    && ss[i].InsertUtxo?
    && Matches(ss[j], k, FreshRow(ss[i]))
    && (forall m | i < m < j :: !Matches(ss[m], k, FreshRow(ss[i])))
  }

  predicate NeverClosed(ss: seq<Stmt>, k: UtxoKey, i: nat) {
    && i < |ss|
    && ss[i].InsertUtxo?
    && (forall m | i < m < |ss| :: !Matches(ss[m], k, FreshRow(ss[i])))
  }

  lemma {:induction false} RowAppears(t: Contents, s: Stmt, k: UtxoKey)
    ensures k in Exec(t, s).utxos <==> k in t.utxos || Creates(s, k)
  {}

  /** A key is in the table exactly when it was inserted. */
  lemma {:induction false} RowExists(ss: seq<Stmt>, k: UtxoKey)
    ensures k in ExecAll(EMPTY, ss).utxos <==> exists i | 0 <= i < |ss| :: Creates(ss[i], k)
  {
    if ss != [] {
      var n := |ss| - 1;
      RowExists(ss[..n], k);
      RowAppears(ExecAll(EMPTY, ss[..n]), ss[n], k);
      hide Exec;
      assert forall i | 0 <= i < n :: ss[..n][i] == ss[i];
    }
  }

  lemma {:induction false} RowStep(t: Contents, s: Stmt, k: UtxoKey)
    requires k in t.utxos
    ensures k in Exec(t, s).utxos && Exec(t, s).utxos[k] == Touch(s, k, t.utxos[k])
  {}

  lemma {:induction false} BirthOfRow(ss: seq<Stmt>, k: UtxoKey)
    requires |ss| > 0 && BornAt(ss, k, |ss| - 1)
    ensures k in ExecAll(EMPTY, ss).utxos && ExecAll(EMPTY, ss).utxos[k] == FreshRow(ss[|ss| - 1])
  {
    RowExists(ss[..|ss| - 1], k);
  }

  lemma {:induction false} FreshIsOpen(s: Stmt)
    requires s.InsertUtxo?
    ensures Open(FreshRow(s))
  {}

  lemma {:induction false} CloserCloses(s: Stmt, k: UtxoKey, u: Utxo)
    requires Matches(s, k, u)
    ensures !Open(CloseRow(s, u))
  {}

  /** A row stays as its first insert made it until the first matching spend or
      sweep closes it, and never changes after that. */
  lemma {:induction false} RowFate(ss: seq<Stmt>, k: UtxoKey, i: nat) returns (closer: Option<nat>)
    requires BornAt(ss, k, i)
    ensures k in ExecAll(EMPTY, ss).utxos
    ensures closer.None? ==> NeverClosed(ss, k, i) && ExecAll(EMPTY, ss).utxos[k] == FreshRow(ss[i])
    ensures closer.Some? ==>
              && ClosedAt(ss, k, i, closer.value)
              && ExecAll(EMPTY, ss).utxos[k] == CloseRow(ss[closer.value], FreshRow(ss[i]))
  {
    var n := |ss| - 1;
    if i == n {
      BirthOfRow(ss, k);
      closer := None;
    } else {
      closer := RowFate(ss[..n], k, i);
      hide Exec, Matches, CloseRow, FreshRow, Open;
      RowStep(ExecAll(EMPTY, ss[..n]), ss[n], k);
      FreshIsOpen(ss[i]);
      if closer.Some? {
        CloserCloses(ss[closer.value], k, FreshRow(ss[i]));
      }
      if closer.None? && Matches(ss[n], k, FreshRow(ss[i])) {
        closer := Some(n);
      }
    }
  }

  lemma {:induction false} ConversionExists(ss: seq<Stmt>, k: ConversionKey)
    ensures k in ExecAll(EMPTY, ss).conversions
       <==> exists i | 0 <= i < |ss| :: ss[i].InsertConversion? && ss[i].ckey == k
  {
    if ss != [] {
      var n := |ss| - 1;
      ConversionExists(ss[..n], k);
      assert forall i | 0 <= i < n :: ss[..n][i] == ss[i];
    }
  }

  // ---- One row per outpoint --------------------------------------------------------

  /** Although created_block is part of the key, an outpoint has at most one row exactly
      when the inserts of one outpoint all carry the same height. */
  lemma {:induction false} OneRowIff(ss: seq<Stmt>)
    ensures (forall k, k' | k in ExecAll(EMPTY, ss).utxos && k' in ExecAll(EMPTY, ss).utxos
               && k.txHash == k'.txHash && k.txIndex == k'.txIndex :: k == k')
       <==> (forall i, j | 0 <= i < |ss| && 0 <= j < |ss| && ss[i].InsertUtxo? && ss[j].InsertUtxo?
               && ss[i].key.txHash == ss[j].key.txHash && ss[i].key.txIndex == ss[j].key.txIndex ::
               ss[i].key.createdBlock == ss[j].key.createdBlock)
  {
    var t := ExecAll(EMPTY, ss).utxos;
    hide ExecAll;
    forall i | 0 <= i < |ss| && ss[i].InsertUtxo?
      ensures ss[i].key in t
    {
      assert Creates(ss[i], ss[i].key);
      RowExists(ss, ss[i].key);
    }
    forall k | k in t
      ensures exists i | 0 <= i < |ss| :: ss[i].InsertUtxo? && ss[i].key == k
    {
      RowExists(ss, k);
      var i :| 0 <= i < |ss| && Creates(ss[i], k);
    }
  }

  // ---- Decoding a block again ------------------------------------------------------

  /** The guard of the spend update: some input of the block finds an open row. */
  ghost predicate HitsOpenRow(t: Contents, ss: seq<Stmt>) {
    exists i, k | 0 <= i < |ss| && ss[i].MarkSpent? && k in t.utxos ::
      Matches(ss[i], k, t.utxos[k]) && Open(t.utxos[k])
  }

  /** Inputs only refer to outputs created earlier on the chain, if at all. */
  ghost predicate InputsReferBack(ss: seq<Stmt>) {
    forall i, j | 0 <= i < |ss| && 0 <= j < |ss| && ss[i].MarkSpent? && ss[j].InsertUtxo? ::
      ss[j].key.txHash == ss[i].prevHash && ss[j].key.txIndex == ss[i].prevIndex ==> j < i
  }

  lemma {:induction false} TraceContains(f: Decoding, chain: seq<Block>, n: nat)
    requires n < |chain| && BlocksStmts(f, chain).Some?
    ensures f(chain[n]).Some?
    ensures forall s | s in f(chain[n]).value :: s in BlocksStmts(f, chain).value
    decreases |chain|
  {
    var m := |chain| - 1;
    if n < m {
      TraceContains(f, chain[..m], n);
    }
  }

  /** A statement of a block already on the chain changes nothing, unless it is a
      spend that finds an open row. */
  lemma {:induction false} RepeatIsNoop(f: Decoding, chain: seq<Block>, n: nat, s: Stmt)
    requires Lawful(f) && Consecutive(chain) && Replay(f, chain).Some? && n < |chain|
    requires f(chain[n]).Some? && s in f(chain[n]).value
    requires !HitsOpenRow(Replay(f, chain).value, [s])
    ensures Exec(Replay(f, chain).value, s) == Replay(f, chain).value
  {
    var t, trace := Replay(f, chain).value, BlocksStmts(f, chain).value;
    TraceContains(f, chain, n);
    var i :| 0 <= i < |trace| && trace[i] == s;
    match s
    case InsertUtxo(k, _, _, _, _, _) =>
      assert Creates(trace[i], k);
      RowExists(trace, k);
    case InsertConversion(k, _) =>
      ConversionExists(trace, k);
    case MarkSpent(_, _, _, _, _) =>
      forall k | k in t.utxos
        ensures Touch(s, k, t.utxos[k]) == t.utxos[k]
      {
        assert [s][0].MarkSpent?;
      }
    case SweepTrims(h) =>
      ReplayLifecycle(f, chain);
      BlockHeights(f, chain[n]);
      assert chain[|chain| - 1].height >= h;
      forall k | k in t.utxos
        ensures Touch(s, k, t.utxos[k]) == t.utxos[k]
      {
        assert RowLife(k, t.utxos[k], chain[0].height, TipHeight(chain), TipHeight(chain) + 1);
      }
  }

  lemma {:induction false} NoHitInOne(t: Contents, ss: seq<Stmt>, i: nat)
    requires !HitsOpenRow(t, ss) && i < |ss|
    ensures !HitsOpenRow(t, [ss[i]])
  {}

  lemma {:induction false} RepeatAllIsNoop(f: Decoding, chain: seq<Block>, n: nat, m: nat)
    requires Lawful(f) && Consecutive(chain) && Replay(f, chain).Some? && n < |chain|
    requires f(chain[n]).Some? && m <= |f(chain[n]).value|
    requires !HitsOpenRow(Replay(f, chain).value, f(chain[n]).value)
    ensures ExecAll(Replay(f, chain).value, f(chain[n]).value[..m]) == Replay(f, chain).value
  {
    hide Exec, Replay, HitsOpenRow, Lawful, Consecutive;
    if m > 0 {
      var ss := f(chain[n]).value;
      NoHitInOne(Replay(f, chain).value, ss, m - 1);
      RepeatAllIsNoop(f, chain, n, m - 1);
      assert ss[..m] == ss[..m - 1] + [ss[m - 1]];
      ExecSnoc(Replay(f, chain).value, ss[..m - 1], ss[m - 1]);
      RepeatIsNoop(f, chain, n, ss[m - 1]);
    }
  }

  /** A row that some statement matches does not stay open. */
  lemma {:induction false} MatchedRowCloses(t: Contents, ss: seq<Stmt>, i: nat, k: UtxoKey)
    requires i < |ss| && k in t.utxos && Matches(ss[i], k, t.utxos[k])
    ensures k in ExecAll(t, ss).utxos && !Open(ExecAll(t, ss).utxos[k])
  {
    var n := |ss| - 1;
    if i < n {
      MatchedRowCloses(t, ss[..n], i, k);
    } else {
      RowsKeepTerms(t, ss[..n], k);
    }
    RowStep(ExecAll(t, ss[..n]), ss[n], k);
  }

  lemma {:induction false} RowsKeepTerms(t: Contents, ss: seq<Stmt>, k: UtxoKey)
    requires k in t.utxos
    ensures k in ExecAll(t, ss).utxos
    ensures ExecAll(t, ss).utxos[k].trimDeadline == t.utxos[k].trimDeadline
    ensures ExecAll(t, ss).utxos[k].lockHeight == t.utxos[k].lockHeight
  {
    if ss != [] {
      RowsKeepTerms(t, ss[..|ss| - 1], k);
      RowStep(ExecAll(t, ss[..|ss| - 1]), ss[|ss| - 1], k);
    }
  }

  /** Decoding a block of the chain a second time, however far the table is past
      it, changes nothing exactly when no input of it finds an open row. */
  lemma {:induction false} RedecodeIsNoopIff(f: Decoding, chain: seq<Block>, n: nat)
    requires Lawful(f) && Consecutive(chain) && Replay(f, chain).Some? && n < |chain|
    ensures f(chain[n]).Some?
    ensures ExecAll(Replay(f, chain).value, f(chain[n]).value) == Replay(f, chain).value
       <==> !HitsOpenRow(Replay(f, chain).value, f(chain[n]).value)
  {
    TraceContains(f, chain, n);
    var t, ss := Replay(f, chain).value, f(chain[n]).value;
    if HitsOpenRow(t, ss) {
      var i, k :| 0 <= i < |ss| && ss[i].MarkSpent? && k in t.utxos && Matches(ss[i], k, t.utxos[k])
        && Open(t.utxos[k]);
      MatchedRowCloses(t, ss, i, k);
    } else {
      RepeatAllIsNoop(f, chain, n, |ss|);
      assert ss[..|ss|] == ss;
    }
  }

  /** Applying never overwrites a spent or trimmed tag. */
  lemma {:induction false} ClosedRowIsFinal(t: Contents, ss: seq<Stmt>, k: UtxoKey)
    requires k in t.utxos && !Open(t.utxos[k])
    ensures k in ExecAll(t, ss).utxos && ExecAll(t, ss).utxos[k] == t.utxos[k]
  {
    if ss != [] {
      ClosedRowIsFinal(t, ss[..|ss| - 1], k);
      RowStep(ExecAll(t, ss[..|ss| - 1]), ss[|ss| - 1], k);
    }
  }

  /** When inputs only refer back, no input of any block on the chain finds an open
      row, so every block may be decoded again. */
  lemma {:induction false} ReferringBackIsEnough(f: Decoding, chain: seq<Block>, n: nat)
    requires Lawful(f) && Consecutive(chain) && Replay(f, chain).Some? && n < |chain|
    requires InputsReferBack(BlocksStmts(f, chain).value)
    ensures f(chain[n]).Some?
    ensures !HitsOpenRow(Replay(f, chain).value, f(chain[n]).value)
    ensures ExecAll(Replay(f, chain).value, f(chain[n]).value) == Replay(f, chain).value
  {
    TraceContains(f, chain, n);
    var t, ss, trace := Replay(f, chain).value, f(chain[n]).value, BlocksStmts(f, chain).value;
    if HitsOpenRow(t, ss) {
      var i, k :| 0 <= i < |ss| && ss[i].MarkSpent? && k in t.utxos && Matches(ss[i], k, t.utxos[k])
        && Open(t.utxos[k]);
      assert ss[i] in trace;
      var p :| 0 <= p < |trace| && trace[p] == ss[i];
      SpentRowIsClosed(trace, k, p);
    }
    RedecodeIsNoopIff(f, chain, n);
  }

  lemma {:induction false} SpentRowIsClosed(ss: seq<Stmt>, k: UtxoKey, p: nat)
    requires InputsReferBack(ss) && k in ExecAll(EMPTY, ss).utxos
    requires p < |ss| && ss[p].MarkSpent? && Matches(ss[p], k, ExecAll(EMPTY, ss).utxos[k])
    ensures !Open(ExecAll(EMPTY, ss).utxos[k])
  {
    RowExists(ss, k);
    var i: nat :| i < |ss| && Creates(ss[i], k);
    RowExists(ss[..i + 1], k);
    assert ss == ss[..i + 1] + ss[i + 1..];
    ExecConcat(EMPTY, ss[..i + 1], ss[i + 1..]);
    assert Creates(ss[..i + 1][i], k);
    assert ss[i + 1..][p - i - 1] == ss[p];
    MatchedRowCloses(ExecAll(EMPTY, ss[..i + 1]), ss[i + 1..], p - i - 1, k);
  }
}
