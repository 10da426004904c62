/** Outpoints across a whole chain, in terms of the blocks' transactions: which rows a
    replay holds, when an outpoint has one row only, and when inputs refer back. */
module References {
  import opened Prelude
  import opened Chain
  import opened QiDecode
  import opened Tables
  import opened Ledger
  import opened Fate
  import opened Decoder
  import opened Effects

  // ---- The rows of a replay ------------------------------------------------------------------

  /** Some Qi transaction of the block, or some ETX, files an output under k. */
  ghost predicate FiledIn(c: Consensus, b: Block, k: UtxoKey) {
    b.raw.Some? && (FirstPayer(b.raw.value, 0, b.height, k).Some? || FirstEtx(c, b.raw.value, 0, b.height, k).Some?)
  }

  /** Some Qi transaction of the block spends the outpoint of k. */
  ghost predicate NamedIn(b: Block, k: UtxoKey) {
    b.raw.Some? && FirstSpender(b.raw.value, 0, k.txHash, k.txIndex).Some?
  }

  /** A replayed table has a row under k exactly when some block of the chain files one. */
  lemma {:induction false} RowsOfReplay(c: Consensus, chain: seq<Block>, k: UtxoKey)
    requires Replay(Decode(c), chain).Some?
    ensures k in Replay(Decode(c), chain).value.utxos <==> exists n | 0 <= n < |chain| :: FiledIn(c, chain[n], k)
  {
    hide *;
    if chain == [] {
      NoRows(c, k);
    } else {
      var n := |chain| - 1;
      assert chain == chain[..n] + [chain[n]];
      ReplayStep(Decode(c), chain[..n], chain[n]);
      RowsOfReplay(c, chain[..n], k);
      RowsAfterBlock(c, Replay(Decode(c), chain[..n]).value, chain[n], k);
      FiledMeaning(c, chain[n], k);
      FiledSnoc(c, chain, chain[..n], chain[n], k);
    }
  }

  lemma {:induction false} NoRows(c: Consensus, k: UtxoKey)
    ensures Replay(Decode(c), []) == Some(EMPTY) && k !in EMPTY.utxos
  {}

  lemma {:induction false} FiledMeaning(c: Consensus, b: Block, k: UtxoKey)
    ensures FiledIn(c, b, k) <==>
              b.raw.Some? && (FirstPayer(b.raw.value, 0, b.height, k).Some?
                              || FirstEtx(c, b.raw.value, 0, b.height, k).Some?)
  {}

  lemma {:induction false} FiledSnoc(c: Consensus, blocks: seq<Block>, before: seq<Block>, b: Block, k: UtxoKey)
    requires blocks == before + [b]
    ensures (exists n | 0 <= n < |blocks| :: FiledIn(c, blocks[n], k))
       <==> (exists n | 0 <= n < |before| :: FiledIn(c, before[n], k)) || FiledIn(c, b, k)
  {
    hide FiledIn;
    assert blocks[|before|] == b;
    assert forall i | 0 <= i < |before| :: before[i] == blocks[i];
  }

  lemma {:induction false} FiledAtHeight(c: Consensus, b: Block, k: UtxoKey)
    requires FiledIn(c, b, k)
    ensures k.createdBlock == b.height
  {
    hide FirstPayer, FirstEtx;
  }

  // ---- One row per outpoint --------------------------------------------------------------------

  ghost predicate OneRowEach(t: Contents) {
    forall k, k' | k in t.utxos && k' in t.utxos && k.txHash == k'.txHash && k.txIndex == k'.txIndex :: k == k'
  }

  /** No outpoint is filed by two blocks of the chain. */
  ghost predicate FiledOnce(c: Consensus, chain: seq<Block>) {
    forall n, m, k, k' | 0 <= n < m < |chain| && FiledIn(c, chain[n], k) && FiledIn(c, chain[m], k') ::
      k.txHash != k'.txHash || k.txIndex != k'.txIndex
  }

  /** Although created_block is part of the key, every outpoint has at most one row exactly
      when no two blocks file the same outpoint. */
  lemma {:induction false} OneRowPerOutpointIff(c: Consensus, chain: seq<Block>)
    requires Consecutive(chain) && Replay(Decode(c), chain).Some?
    ensures OneRowEach(Replay(Decode(c), chain).value) <==> FiledOnce(c, chain)
  {
    hide Replay, Decode, FiledIn;
    var t := Replay(Decode(c), chain).value;
    if FiledOnce(c, chain) {
      forall k, k' | k in t.utxos && k' in t.utxos && k.txHash == k'.txHash && k.txIndex == k'.txIndex
        ensures k == k'
      {
        RowsOfReplay(c, chain, k);
        RowsOfReplay(c, chain, k');
        var n :| 0 <= n < |chain| && FiledIn(c, chain[n], k);
        var m :| 0 <= m < |chain| && FiledIn(c, chain[m], k');
        FiledAtHeight(c, chain[n], k);
        FiledAtHeight(c, chain[m], k');
      }
    }
    if OneRowEach(t) {
      forall n, m, k, k' | 0 <= n < m < |chain| && FiledIn(c, chain[n], k) && FiledIn(c, chain[m], k')
        ensures k.txHash != k'.txHash || k.txIndex != k'.txIndex
      {
        RowsOfReplay(c, chain, k);
        RowsOfReplay(c, chain, k');
        FiledAtHeight(c, chain[n], k);
        FiledAtHeight(c, chain[m], k');
      }
    }
  }

  /** The block carries a Qi transaction or an ETX with this hash. */
  ghost predicate Carries(b: Block, hash: Bytes) {
    b.raw.Some? && exists i | 0 <= i < |b.raw.value| ::
      (b.raw.value[i].txType == TX_TYPE_QI || b.raw.value[i].txType == TX_TYPE_EXTERNAL)
        && DecodeHash(b.raw.value[i].hash) == Some(hash)
  }

  lemma {:induction false} FilerCarries(c: Consensus, b: Block, k: UtxoKey)
    requires FiledIn(c, b, k)
    ensures Carries(b, k.txHash)
  {
    var p, e := FirstPayer(b.raw.value, 0, b.height, k), FirstEtx(c, b.raw.value, 0, b.height, k);
    hide FirstPayer, FirstEtx, DecodeHash, DecodeAddr;
    if p.Some? {
      assert b.raw.value[p.value].txType == TX_TYPE_QI && DecodeHash(b.raw.value[p.value].hash) == Some(k.txHash);
    } else {
      assert EtxPays(c, b.raw.value[e.value], b.height, k);
      EtxHasType(c, b.raw.value[e.value], b.height, k);
    }
  }

  lemma {:induction false} EtxHasType(c: Consensus, tx: RawTx, h: nat, k: UtxoKey)
    requires EtxPays(c, tx, h, k)
    ensures tx.txType == TX_TYPE_EXTERNAL
  {}

  /** With unique transaction hashes the promise of one row per outpoint holds. */
  lemma {:induction false} UniqueHashesSuffice(c: Consensus, chain: seq<Block>)
    requires Consecutive(chain) && Replay(Decode(c), chain).Some?
    requires forall n, m, hash | 0 <= n < m < |chain| && Carries(chain[n], hash) :: !Carries(chain[m], hash)
    ensures OneRowEach(Replay(Decode(c), chain).value)
  {
    hide FiledIn, Carries, Replay;
    forall n, m, k, k' | 0 <= n < m < |chain| && FiledIn(c, chain[n], k) && FiledIn(c, chain[m], k')
      ensures k.txHash != k'.txHash || k.txIndex != k'.txIndex
    {
      FilerCarries(c, chain[n], k);
      FilerCarries(c, chain[m], k');
    }
    OneRowPerOutpointIff(c, chain);
  }

  // ---- Inputs that refer back ---------------------------------------------------------------------

  /** Inputs only spend outputs that earlier transactions file, if any do: no Qi
      transaction names an outpoint that it, a later Qi transaction of the block, or an
      ETX of the block files, and none names one that a later block files. */
  ghost predicate TxsReferBack(c: Consensus, txs: seq<RawTx>, h: nat) {
    && (forall i, j, k: UtxoKey | 0 <= i <= j < |txs| && TxNames(txs[i], k.txHash, k.txIndex) :: !TxPays(txs[j], h, k))
    && (forall i, j, k: UtxoKey | 0 <= i < |txs| && 0 <= j < |txs| && TxNames(txs[i], k.txHash, k.txIndex) ::
        !EtxPays(c, txs[j], h, k))
  }

  ghost predicate ChainRefersBack(c: Consensus, chain: seq<Block>) {
    && (forall n | 0 <= n < |chain| && chain[n].raw.Some? :: TxsReferBack(c, chain[n].raw.value, chain[n].height))
    && (forall n, m, k | 0 <= n < m < |chain| && NamedIn(chain[n], k) :: !FiledIn(c, chain[m], k))
  }

  // The same of a list of statements, which is read off row by row.

  ghost predicate Spends(ss: seq<Stmt>, k: UtxoKey) {
    exists s | s in ss :: s.MarkSpent? && s.prevHash == k.txHash && s.prevIndex == k.txIndex
  }

  ghost predicate Inserts(ss: seq<Stmt>, k: UtxoKey) { exists s | s in ss :: Creates(s, k) }

  lemma {:induction false} SpendsConcat(a: seq<Stmt>, b: seq<Stmt>, k: UtxoKey)
    ensures Spends(a + b, k) <==> Spends(a, k) || Spends(b, k)
  {}

  lemma {:induction false} InsertsConcat(a: seq<Stmt>, b: seq<Stmt>, k: UtxoKey)
    ensures Inserts(a + b, k) <==> Inserts(a, k) || Inserts(b, k)
  {}

  lemma {:induction false} InsertsIff(ss: seq<Stmt>, k: UtxoKey)
    ensures Inserts(ss, k) <==> RowAfter(None, ss, k).Some?
  {
    if ss != [] {
      var n := |ss| - 1;
      InsertsIff(ss[..n], k);
      assert ss[..n] + [ss[n]] == ss;
      InsertsConcat(ss[..n], [ss[n]], k);
      assert Inserts([ss[n]], k) <==> Creates(ss[n], k) by {
        assert ss[n] in [ss[n]];
      }
    }
  }

  /** An open row that no sweep matches. */
  const BLANK := Utxo([], 0, 0, 0, [], None, None, None, None, None)

  lemma {:induction false} SpendsIff(ss: seq<Stmt>, k: UtxoKey)
    ensures var u := RowAfter(Some(BLANK), ss, k);
            u.Some? && if Spends(ss, k) then !Open(u.value) else u.value == BLANK
  {
    if ss != [] {
      var n := |ss| - 1;
      SpendsIff(ss[..n], k);
      assert ss[..n] + [ss[n]] == ss;
      SpendsConcat(ss[..n], [ss[n]], k);
      assert Spends([ss[n]], k) <==> Matches(ss[n], k, BLANK) by {
        assert ss[n] in [ss[n]];
      }
    }
  }

  /** A spend before the insert it names. */
  lemma {:induction false} CrossBreaks(a: seq<Stmt>, b: seq<Stmt>, k: UtxoKey)
    requires Spends(a, k) && Inserts(b, k)
    ensures !InputsReferBack(a + b)
  {
    var s :| s in a && s.MarkSpent? && s.prevHash == k.txHash && s.prevIndex == k.txIndex;
    var r :| r in b && Creates(r, k);
    var i, j :| 0 <= i < |a| && a[i] == s && 0 <= j < |b| && b[j] == r;
    assert (a + b)[i] == s && (a + b)[|a| + j] == r;
  }

  lemma {:induction false} CrossReference(a: seq<Stmt>, b: seq<Stmt>)
    requires InputsReferBack(a) && InputsReferBack(b) && !InputsReferBack(a + b)
    ensures exists k :: Spends(a, k) && Inserts(b, k)
  {
    var i, j :| 0 <= i < |a + b| && 0 <= j < |a + b| && (a + b)[i].MarkSpent? && (a + b)[j].InsertUtxo?
                && (a + b)[j].key.txHash == (a + b)[i].prevHash && (a + b)[j].key.txIndex == (a + b)[i].prevIndex
                  && !(j < i);
    assert forall x | 0 <= x < |a| :: (a + b)[x] == a[x];
    assert forall x | |a| <= x < |a + b| :: (a + b)[x] == b[x - |a|];
    assert i < |a| <= j;
    var k := (a + b)[j].key;
    assert a[i] in a && b[j - |a|] in b;
    assert Spends(a, k) && Inserts(b, k);
  }

  lemma {:induction false} PartsReferBack(a: seq<Stmt>, b: seq<Stmt>)
    requires InputsReferBack(a + b)
    ensures InputsReferBack(a) && InputsReferBack(b)
  {
    assert forall x | 0 <= x < |a| :: (a + b)[x] == a[x];
    assert forall x | 0 <= x < |b| :: (a + b)[|a| + x] == b[x];
  }

  lemma {:induction false} ReferBackConcat(a: seq<Stmt>, b: seq<Stmt>)
    ensures InputsReferBack(a + b)
       <==> InputsReferBack(a) && InputsReferBack(b) && forall k | Spends(a, k) :: !Inserts(b, k)
  {
    hide InputsReferBack, Spends, Inserts;
    if InputsReferBack(a + b) {
      PartsReferBack(a, b);
      forall k | Spends(a, k)
        ensures !Inserts(b, k)
      {
        if Inserts(b, k) {
          CrossBreaks(a, b, k);
        }
      }
    } else if InputsReferBack(a) && InputsReferBack(b) {
      CrossReference(a, b);
    }
  }

  lemma {:induction false} WithoutSpends(ss: seq<Stmt>)
    requires forall k :: !Spends(ss, k)
    ensures InputsReferBack(ss)
  {
    forall i | 0 <= i < |ss| && ss[i].MarkSpent?
      ensures Spends(ss, UtxoKey(ss[i].prevHash, ss[i].prevIndex, 0))
    {
      assert ss[i] in ss;
    }
  }

  lemma {:induction false} WithoutInserts(ss: seq<Stmt>)
    requires forall k :: !Inserts(ss, k)
    ensures InputsReferBack(ss)
  {
    forall i | 0 <= i < |ss| && ss[i].InsertUtxo?
      ensures Inserts(ss, ss[i].key)
    {
      assert ss[i] in ss;
    }
  }

  // ---- What the statements of a block spend and insert -------------------------------------------

  lemma {:induction false} QiTxMentions(c: Consensus, tx: RawTx, h: nat, k: UtxoKey)
    requires QiTxStmts(c, tx, h).Some?
    ensures Spends(QiTxStmts(c, tx, h).value, k) <==> TxNames(tx, k.txHash, k.txIndex)
    ensures Inserts(QiTxStmts(c, tx, h).value, k) <==> TxPays(tx, h, k)
  {
    var ss := QiTxStmts(c, tx, h).value;
    SpendsIff(ss, k);
    InsertsIff(ss, k);
    QiTxRow(c, tx, h, Some(BLANK), k);
    QiTxRow(c, tx, h, None, k);
    hide QiTxStmts, TxNames, TxPays, RowAfter, Spends, Inserts;
  }

  lemma {:induction false} QiTxsMention(c: Consensus, txs: seq<RawTx>, from: nat, h: nat, k: UtxoKey)
    requires from <= |txs| && QiTxsStmts(c, txs[from..], h).Some?
    ensures Spends(QiTxsStmts(c, txs[from..], h).value, k) <==> FirstSpender(txs, from, k.txHash, k.txIndex).Some?
    ensures Inserts(QiTxsStmts(c, txs[from..], h).value, k) <==> FirstPayer(txs, from, h, k).Some?
  {
    var ss := QiTxsStmts(c, txs[from..], h).value;
    SpendsIff(ss, k);
    InsertsIff(ss, k);
    QiTxsRow(c, txs, from, h, Some(BLANK), k);
    QiTxsRow(c, txs, from, h, None, k);
    hide QiTxsStmts, RowAfter, Spends, Inserts, FirstInput, TxPays, OutputRow;
  }

  lemma {:induction false} EtxsMention(c: Consensus, txs: seq<RawTx>, h: nat, k: UtxoKey)
    requires EtxsStmts(c, txs, h).Some?
    ensures !Spends(EtxsStmts(c, txs, h).value, k)
    ensures Inserts(EtxsStmts(c, txs, h).value, k) <==> FirstEtx(c, txs, 0, h, k).Some?
  {
    var ss := EtxsStmts(c, txs, h).value;
    assert txs[0..] == txs;
    SpendsIff(ss, k);
    InsertsIff(ss, k);
    EtxsRow(c, txs, 0, h, Some(BLANK), k);
    EtxsRow(c, txs, 0, h, None, k);
    hide EtxsStmts, RowAfter, Spends, Inserts, FirstEtx, CoinRow;
  }

  lemma {:induction false} BlockMentions(c: Consensus, b: Block, k: UtxoKey)
    requires Decode(c)(b).Some?
    ensures Spends(Decode(c)(b).value, k) <==> NamedIn(b, k)
    ensures Inserts(Decode(c)(b).value, k) <==> FiledIn(c, b, k)
  {
    DecodedParts(c, b);
    var qi, etx := QiTxsStmts(c, b.raw.value, b.height).value, EtxsStmts(c, b.raw.value, b.height).value;
    assert b.raw.value[0..] == b.raw.value;
    QiTxsMention(c, b.raw.value, 0, b.height, k);
    EtxsMention(c, b.raw.value, b.height, k);
    SweepMentionsNothing(b.height, k);
    hide Decode, QiTxsStmts, EtxsStmts, Spends, Inserts, FirstSpender, FirstPayer, FirstEtx;
    SpendsConcat(qi, etx, k);
    SpendsConcat(qi + etx, [SweepTrims(b.height)], k);
    InsertsConcat(qi, etx, k);
    InsertsConcat(qi + etx, [SweepTrims(b.height)], k);
  }

  lemma {:induction false} SweepMentionsNothing(h: nat, k: UtxoKey)
    ensures !Spends([SweepTrims(h)], k) && !Inserts([SweepTrims(h)], k)
  {}

  // ---- Referring back, in both forms ---------------------------------------------------------------

  lemma {:induction false} QiTxRefersBackIff(c: Consensus, tx: RawTx, h: nat)
    requires QiTxStmts(c, tx, h).Some?
    ensures InputsReferBack(QiTxStmts(c, tx, h).value)
       <==> forall k: UtxoKey | TxNames(tx, k.txHash, k.txIndex) :: !TxPays(tx, h, k)
  {
    if tx.txType == TX_TYPE_QI {
      var txHash := DecodeHash(tx.hash).value;
      assert tx.inputs[0..] == tx.inputs && tx.outputs[0..] == tx.outputs;
      var ins, outs := InputStmts(txHash, tx.inputs, h).value, OutputStmts(c, txHash, 0, tx.outputs, h).value;
      forall k: UtxoKey
        ensures !Inserts(ins, k) && !Spends(outs, k)
        ensures Spends(ins, k) <==> TxNames(tx, k.txHash, k.txIndex)
        ensures Inserts(outs, k) <==> TxPays(tx, h, k)
      {
        SideMentions(c, tx, txHash, h, k);
      }
      hide InputStmts, OutputStmts, TxNames, TxPays, Spends, Inserts, InputsReferBack;
      WithoutInserts(ins);
      WithoutSpends(outs);
      ReferBackConcat(ins, outs);
    }
  }

  lemma {:induction false} SideMentions(c: Consensus, tx: RawTx, txHash: Bytes, h: nat, k: UtxoKey)
    requires tx.txType == TX_TYPE_QI && DecodeHash(tx.hash) == Some(txHash)
    requires InputStmts(txHash, tx.inputs, h).Some? && OutputStmts(c, txHash, 0, tx.outputs, h).Some?
    ensures var ins, outs := InputStmts(txHash, tx.inputs, h).value, OutputStmts(c, txHash, 0, tx.outputs, h).value;
            && !Inserts(ins, k) && !Spends(outs, k)
            && (Spends(ins, k) <==> TxNames(tx, k.txHash, k.txIndex))
            && (Inserts(outs, k) <==> TxPays(tx, h, k))
  {
    assert tx.inputs[0..] == tx.inputs && tx.outputs[0..] == tx.outputs;
    var ins, outs := InputStmts(txHash, tx.inputs, h).value, OutputStmts(c, txHash, 0, tx.outputs, h).value;
    hide InputStmts, OutputStmts, Spends, Inserts, RowAfter, FirstInput, FirstOutput, DecodeHash, OutputRow;
    SpendsIff(ins, k);
    InsertsIff(ins, k);
    SpendsIff(outs, k);
    InsertsIff(outs, k);
    InputsRow(txHash, tx, 0, h, Some(BLANK), k);
    InputsRow(txHash, tx, 0, h, None, k);
    OutputsRow(c, tx, txHash, 0, h, Some(BLANK), k);
    OutputsRow(c, tx, txHash, 0, h, None, k);
  }

  /** The Qi transactions from position `from` on. */
  ghost predicate QiReferBack(txs: seq<RawTx>, from: nat, h: nat) {
    forall i, j, k: UtxoKey | from <= i <= j < |txs| && TxNames(txs[i], k.txHash, k.txIndex) :: !TxPays(txs[j], h, k)
  }

  lemma {:induction false} QiTxsReferBackIff(c: Consensus, txs: seq<RawTx>, from: nat, h: nat)
    requires from <= |txs| && QiTxsStmts(c, txs[from..], h).Some?
    ensures InputsReferBack(QiTxsStmts(c, txs[from..], h).value) <==> QiReferBack(txs, from, h)
    decreases |txs| - from
  {
    if from < |txs| {
      var rest := txs[from..];
      assert rest[0] == txs[from] && rest[1..] == txs[from + 1..];
      hide QiTxStmts, TxNames, TxPays, Spends, Inserts, InputsReferBack;
      var first, later := QiTxStmts(c, txs[from], h).value, QiTxsStmts(c, txs[from + 1..], h).value;
      QiTxRefersBackIff(c, txs[from], h);
      QiTxsReferBackIff(c, txs, from + 1, h);
      ReferBackConcat(first, later);
      forall k: UtxoKey
        ensures Spends(first, k) <==> TxNames(txs[from], k.txHash, k.txIndex)
        ensures Inserts(later, k) <==> FirstPayer(txs, from + 1, h, k).Some?
      {
        QiTxMentions(c, txs[from], h, k);
        QiTxsMention(c, txs, from + 1, h, k);
      }
      QiReferBackStep(txs, from, h);
    } else {
      assert QiTxsStmts(c, txs[from..], h).value == [];
    }
  }

  lemma {:induction false} QiReferBackStep(txs: seq<RawTx>, from: nat, h: nat)
    requires from < |txs|
    ensures QiReferBack(txs, from, h) <==>
              && QiReferBack(txs, from + 1, h)
              && (forall k: UtxoKey | TxNames(txs[from], k.txHash, k.txIndex) :: !TxPays(txs[from], h, k))
              && (forall k: UtxoKey | TxNames(txs[from], k.txHash, k.txIndex) :: FirstPayer(txs, from + 1, h, k).None?)
  {
    hide TxNames, TxPays;
  }

  lemma {:induction false} BlockRefersBackIff(c: Consensus, b: Block)
    requires Decode(c)(b).Some?
    ensures b.raw.Some?
    ensures InputsReferBack(Decode(c)(b).value) <==> TxsReferBack(c, b.raw.value, b.height)
  {
    DecodedParts(c, b);
    var txs, h := b.raw.value, b.height;
    var qi, etx := QiTxsStmts(c, txs, h).value, EtxsStmts(c, txs, h).value;
    assert txs[0..] == txs;
    hide Decode, QiTxsStmts, EtxsStmts, Spends, Inserts, InputsReferBack, TxNames, TxPays, EtxPays;
    QiTxsReferBackIff(c, txs, 0, h);
    forall k: UtxoKey
      ensures Spends(qi, k) <==> FirstSpender(txs, 0, k.txHash, k.txIndex).Some?
      ensures !Spends(etx, k) && !Spends([SweepTrims(h)], k) && !Inserts([SweepTrims(h)], k)
      ensures Inserts(etx, k) <==> FirstEtx(c, txs, 0, h, k).Some?
    {
      QiTxsMention(c, txs, 0, h, k);
      EtxsMention(c, txs, h, k);
      SweepMentionsNothing(h, k);
    }
    hide FirstSpender, FirstEtx, QiReferBack, TxsReferBack;
    WithoutSpends(etx);
    WithoutSpends([SweepTrims(h)]);
    ReferBackConcat(qi, etx);
    ReferBackConcat(qi + etx, [SweepTrims(h)]);
    TxsReferBackParts(c, txs, h);
  }

  lemma {:induction false} TxsReferBackParts(c: Consensus, txs: seq<RawTx>, h: nat)
    ensures TxsReferBack(c, txs, h) <==>
              && QiReferBack(txs, 0, h)
              && forall k: UtxoKey | FirstSpender(txs, 0, k.txHash, k.txIndex).Some? :: FirstEtx(c, txs, 0, h, k).None?
  {
    hide TxNames, TxPays, EtxPays;
    if TxsReferBack(c, txs, h) {
      forall k: UtxoKey | FirstSpender(txs, 0, k.txHash, k.txIndex).Some?
        ensures FirstEtx(c, txs, 0, h, k).None?
      {}
    } else if QiReferBack(txs, 0, h) {
      var i, j, k: UtxoKey :| 0 <= i < |txs| && 0 <= j < |txs| && TxNames(txs[i], k.txHash, k.txIndex)
        && EtxPays(c, txs[j], h, k);
      assert FirstSpender(txs, 0, k.txHash, k.txIndex).Some? && FirstEtx(c, txs, 0, h, k).Some?;
    }
  }

  lemma {:induction false} BlocksMention(c: Consensus, blocks: seq<Block>, k: UtxoKey)
    requires BlocksStmts(Decode(c), blocks).Some?
    ensures Spends(BlocksStmts(Decode(c), blocks).value, k) <==> exists n | 0 <= n < |blocks| :: NamedIn(blocks[n], k)
  {
    hide *;
    SplitLast(c, blocks);
    if blocks == [] {
      NothingMentioned(k);
    } else {
      var n := |blocks| - 1;
      BlocksMention(c, blocks[..n], k);
      BlockMentions(c, blocks[n], k);
      SpendsConcat(BlocksStmts(Decode(c), blocks[..n]).value, Decode(c)(blocks[n]).value, k);
      assert blocks == blocks[..n] + [blocks[n]];
      NamedSnoc(blocks, blocks[..n], blocks[n], k);
    }
  }

  lemma {:induction false} SplitLast(c: Consensus, blocks: seq<Block>)
    requires BlocksStmts(Decode(c), blocks).Some?
    ensures blocks == [] ==> BlocksStmts(Decode(c), blocks).value == []
    ensures blocks != [] ==>
              && BlocksStmts(Decode(c), blocks[..|blocks| - 1]).Some? && Decode(c)(blocks[|blocks| - 1]).Some?
              && BlocksStmts(Decode(c), blocks).value
              == BlocksStmts(Decode(c), blocks[..|blocks| - 1]).value + Decode(c)(blocks[|blocks| - 1]).value
  {
    hide Decode;
  }

  lemma {:induction false} NothingMentioned(k: UtxoKey)
    ensures !Spends([], k)
  {}

  lemma {:induction false} NamedSnoc(blocks: seq<Block>, before: seq<Block>, b: Block, k: UtxoKey)
    requires blocks == before + [b]
    ensures (exists n | 0 <= n < |blocks| :: NamedIn(blocks[n], k))
       <==> (exists n | 0 <= n < |before| :: NamedIn(before[n], k)) || NamedIn(b, k)
  {
    hide NamedIn;
    assert blocks[|before|] == b;
    assert forall i | 0 <= i < |before| :: before[i] == blocks[i];
  }

  /** The inputs of a chain refer back in its transactions exactly when the statements of
      its decoding do: a spend never comes before the insert it names. */
  lemma {:induction false} ReferBackIff(c: Consensus, chain: seq<Block>)
    requires BlocksStmts(Decode(c), chain).Some?
    ensures InputsReferBack(BlocksStmts(Decode(c), chain).value) <==> ChainRefersBack(c, chain)
  {
    if chain != [] {
      var n := |chain| - 1;
      SplitLast(c, chain);
      ReferBackIff(c, chain[..n]);
      BlockRefersBackIff(c, chain[n]);
      var before, last := BlocksStmts(Decode(c), chain[..n]).value, Decode(c)(chain[n]).value;
      hide Decode, BlocksStmts, Spends, Inserts, InputsReferBack, TxsReferBack, NamedIn, FiledIn;
      ReferBackConcat(before, last);
      forall k
        ensures Spends(before, k) <==> exists i | 0 <= i < n :: NamedIn(chain[..n][i], k)
        ensures Inserts(last, k) <==> FiledIn(c, chain[n], k)
      {
        BlocksMention(c, chain[..n], k);
        BlockMentions(c, chain[n], k);
      }
      ChainRefersBackStep(c, chain);
    }
  }

  lemma {:induction false} ChainRefersBackStep(c: Consensus, chain: seq<Block>)
    requires chain != [] && chain[|chain| - 1].raw.Some?
    ensures var n := |chain| - 1;
            ChainRefersBack(c, chain) <==>
              && ChainRefersBack(c, chain[..n])
              && TxsReferBack(c, chain[n].raw.value, chain[n].height)
              && forall k | (exists i | 0 <= i < n :: NamedIn(chain[..n][i], k)) :: !FiledIn(c, chain[n], k)
  {
    hide TxsReferBack, NamedIn, FiledIn;
    var n := |chain| - 1;
    assert forall i | 0 <= i < n :: chain[..n][i] == chain[i];
    if ChainRefersBack(c, chain) {
      forall k | exists i | 0 <= i < n :: NamedIn(chain[..n][i], k)
        ensures !FiledIn(c, chain[n], k)
      {
        var i :| 0 <= i < n && NamedIn(chain[..n][i], k);
        assert NamedIn(chain[i], k);
      }
    }
  }
}
