/** What decoding one block does to the tables, key by key, in terms of the block's body:
    which rows it spends and by whom, which it adds and with what contents, which it
    trims, and which conversion outputs it records. */
module Effects {
  import opened Prelude
  import opened Chain
  import opened QiDecode
  import opened Tables
  import opened Ledger
  import opened Fate
  import opened Decoder

  // ---- Spends ------------------------------------------------------------------------------

  /** Input j of a transaction names the outpoint (hash, index). */
  predicate InputNames(tx: RawTx, j: nat, hash: Bytes, index: int)
    requires j < |tx.inputs|
  {
    var prev := tx.inputs[j].previousOutPoint;
    DecodeHash(prev.txHash) == Some(hash) && Int32(prev.index) == index
  }

  /** The first input from position `from` on that names the outpoint. */
  function FirstInput(tx: RawTx, from: nat, hash: Bytes, index: int): (r: Option<nat>)
    requires from <= |tx.inputs|
    ensures r.Some? ==> from <= r.value < |tx.inputs| && InputNames(tx, r.value, hash, index)
    ensures forall j | from <= j < if r.Some? then r.value else |tx.inputs| :: !InputNames(tx, j, hash, index)
    decreases |tx.inputs| - from
  {
    if from == |tx.inputs| then None
    else if InputNames(tx, from, hash, index) then Some(from)
    else FirstInput(tx, from + 1, hash, index)
  }

  /** A Qi transaction that spends the outpoint. */
  predicate TxNames(tx: RawTx, hash: Bytes, index: int) {
    tx.txType == TX_TYPE_QI && FirstInput(tx, 0, hash, index).Some?
  }

  /** The first transaction from position `from` on that spends the outpoint. */
  function FirstSpender(txs: seq<RawTx>, from: nat, hash: Bytes, index: int): (r: Option<nat>)
    requires from <= |txs|
    ensures r.Some? ==> from <= r.value < |txs| && TxNames(txs[r.value], hash, index)
    ensures forall n | from <= n < if r.Some? then r.value else |txs| :: !TxNames(txs[n], hash, index)
    decreases |txs| - from
  {
    if from == |txs| then None
    else if TxNames(txs[from], hash, index) then Some(from)
    else FirstSpender(txs, from + 1, hash, index)
  }

  /** The row after input j of tx has spent it. */
  function SpentIn(u: Utxo, tx: RawTx, j: nat, h: nat): Utxo
    requires j < |tx.inputs|
  {
    var key := DecodePubkey(tx.inputs[j].pubKey);
    u.(spentBlock := Some(h), spentTx := DecodeHash(tx.hash), spenderPubkey := if key.Some? then key.value else None)
  }

  function SpentByTx(u: Utxo, tx: RawTx, h: nat, k: UtxoKey): Utxo {
    if Open(u) && TxNames(tx, k.txHash, k.txIndex)
    then SpentIn(u, tx, FirstInput(tx, 0, k.txHash, k.txIndex).value, h)
    else u
  }

  /** An open row is spent by the first input of the first transaction that names it. */
  function SpentBy(u: Utxo, txs: seq<RawTx>, from: nat, h: nat, k: UtxoKey): Utxo
    requires from <= |txs|
  {
    var n := FirstSpender(txs, from, k.txHash, k.txIndex);
    if n.Some? then SpentByTx(u, txs[n.value], h, k) else u
  }

  // ---- Outputs of Qi transactions ------------------------------------------------------------

  /** Output j of a Qi transaction stays in the Qi ledger and is filed under k. */
  predicate OutputFiled(tx: RawTx, j: nat, h: nat, k: UtxoKey)
    requires j < |tx.outputs|
  {
    && DecodeHash(tx.hash) == Some(k.txHash) && Int32(j) == k.txIndex && h == k.createdBlock
    && DecodeAddr(tx.outputs[j].address).Some?
    && IsQiScope(DecodeAddr(tx.outputs[j].address).value)
  }

  function FirstOutput(tx: RawTx, from: nat, h: nat, k: UtxoKey): (r: Option<nat>)
    requires from <= |tx.outputs|
    ensures r.Some? ==> from <= r.value < |tx.outputs| && OutputFiled(tx, r.value, h, k)
    ensures forall j | from <= j < if r.Some? then r.value else |tx.outputs| :: !OutputFiled(tx, j, h, k)
    decreases |tx.outputs| - from
  {
    if from == |tx.outputs| then None
    else if OutputFiled(tx, from, h, k) then Some(from)
    else FirstOutput(tx, from + 1, h, k)
  }

  predicate TxPays(tx: RawTx, h: nat, k: UtxoKey) { tx.txType == TX_TYPE_QI && FirstOutput(tx, 0, h, k).Some? }

  function FirstPayer(txs: seq<RawTx>, from: nat, h: nat, k: UtxoKey): (r: Option<nat>)
    requires from <= |txs|
    ensures r.Some? ==> from <= r.value < |txs| && TxPays(txs[r.value], h, k)
    ensures forall n | from <= n < if r.Some? then r.value else |txs| :: !TxPays(txs[n], h, k)
    decreases |txs| - from
  {
    if from == |txs| then None
    else if TxPays(txs[from], h, k) then Some(from)
    else FirstPayer(txs, from + 1, h, k)
  }

  /** An unspent row. */
  function NewRow(c: Consensus, to: Bytes, denomination: Byte, lockHeight: nat, source: nat, hash: Bytes, h: nat)
    : Utxo
  {
    Utxo(to, denomination, lockHeight, source, hash, None, None, None, NullIfZero(TrimDeadline(c, denomination, h)),
         None)
  }

  /** The row of output j: its address, the low byte of its denomination, the low 64 bits
      of its lock. */
  function OutputRow(c: Consensus, tx: RawTx, j: nat, h: nat, k: UtxoKey): Utxo
    requires j < |tx.outputs| && OutputFiled(tx, j, h, k)
  {
    var out := tx.outputs[j];
    NewRow(c, DecodeAddr(out.address).value, Uint8(out.denomination),
           if out.lock.Some? then Uint64(out.lock.value) else 0,
           SOURCE_QI_TX, k.txHash, h)
  }

  // ---- Coins of ETXs -------------------------------------------------------------------------

  /** The coin groups an ETX pays; none for those that are skipped. */
  function EtxGroups(c: Consensus, tx: RawTx, h: nat): seq<DerivedOutput> {
    if tx.txType != TX_TYPE_EXTERNAL || tx.value.None? then []
    else if tx.etxType == Some(ETX_TYPE_COINBASE) then
      if tx.input.Some? && tx.input.value != [] && tx.input.value[0] < 4
      then CoinbaseGroups(c, tx.value.value, tx.input.value[0], h) else []
    else if tx.etxType == Some(ETX_TYPE_CONVERSION) then
      ConversionGroups(c, tx.value.value, if tx.gas.Some? then tx.gas.value else 0, h)
    else []
  }

  /** The first coin number in a range that is filed under the index. */
  function FirstCoin(from: nat, until: nat, index: int): (r: Option<nat>)
    requires from <= until
    ensures r.Some? ==> from <= r.value < until && Int32(r.value) == index
    ensures forall i | from <= i < if r.Some? then r.value else until :: Int32(i) != index
    decreases until - from
  {
    if from == until then None
    else if Int32(from) == index then Some(from)
    else FirstCoin(from + 1, until, index)
  }

  /** Up to 2^31 coins, coin number i is simply filed under i. */
  lemma {:induction false} CoinNumbers(count: nat, index: int)
    requires count <= 0x8000_0000
    ensures FirstCoin(0, count, index) == if 0 <= index < count then Some(index) else None
  {
    assert forall i: nat | i < count :: Int32(i) == i;
    if 0 <= index < count {
      assert Int32(index) == index;
    }
  }

  /** The group coin number i belongs to. */
  function CoinGroup(groups: seq<DerivedOutput>, i: nat): DerivedOutput
    requires i < TotalCount(groups)
  {
    if i < groups[0].count then groups[0] else CoinGroup(groups[1..], i - groups[0].count)
  }

  predicate EtxPays(c: Consensus, tx: RawTx, h: nat, k: UtxoKey) {
    && tx.to.Some? && DecodeAddr(tx.to.value).Some? && IsQiScope(DecodeAddr(tx.to.value).value)
    && DecodeHash(tx.hash) == Some(k.txHash) && h == k.createdBlock
    && FirstCoin(0, TotalCount(EtxGroups(c, tx, h)), k.txIndex).Some?
  }

  function FirstEtx(c: Consensus, txs: seq<RawTx>, from: nat, h: nat, k: UtxoKey): (r: Option<nat>)
    requires from <= |txs|
    ensures r.Some? ==> from <= r.value < |txs| && EtxPays(c, txs[r.value], h, k)
    ensures forall n | from <= n < if r.Some? then r.value else |txs| :: !EtxPays(c, txs[n], h, k)
    decreases |txs| - from
  {
    if from == |txs| then None
    else if EtxPays(c, txs[from], h, k) then Some(from)
    else FirstEtx(c, txs, from + 1, h, k)
  }

  /** The row of a coin of an ETX. */
  function CoinRow(c: Consensus, tx: RawTx, h: nat, k: UtxoKey): Utxo
    requires EtxPays(c, tx, h, k)
  {
    var groups := EtxGroups(c, tx, h);
    var group := CoinGroup(groups, FirstCoin(0, TotalCount(groups), k.txIndex).value);
    NewRow(c, DecodeAddr(tx.to.value).value, Uint8(group.denomination), group.lockHeight,
           if tx.etxType == Some(ETX_TYPE_COINBASE) then SOURCE_COINBASE_ETX else SOURCE_CONVERSION_ETX, k.txHash, h)
  }

  // ---- One key under a list of statements -----------------------------------------------------

  function RowAt(t: Contents, k: UtxoKey): Option<Utxo> { if k in t.utxos then Some(t.utxos[k]) else None }

  function NextRow(u: Option<Utxo>, s: Stmt, k: UtxoKey): Option<Utxo> {
    if u.Some? then Some(Touch(s, k, u.value)) else if Creates(s, k) then Some(FreshRow(s)) else None
  }

  function RowAfter(u: Option<Utxo>, ss: seq<Stmt>, k: UtxoKey): Option<Utxo> {
    if ss == [] then u else NextRow(RowAfter(u, ss[..|ss| - 1], k), ss[|ss| - 1], k)
  }

  lemma {:induction false} RowAfterExec(t: Contents, ss: seq<Stmt>, k: UtxoKey)
    ensures RowAt(ExecAll(t, ss), k) == RowAfter(RowAt(t, k), ss, k)
  {
    if ss != [] {
      RowAfterExec(t, ss[..|ss| - 1], k);
      NextRowExec(ExecAll(t, ss[..|ss| - 1]), ss[|ss| - 1], k);
      hide Exec, NextRow;
    }
  }

  lemma {:induction false} NextRowExec(t: Contents, s: Stmt, k: UtxoKey)
    ensures RowAt(Exec(t, s), k) == NextRow(RowAt(t, k), s, k)
  {}

  lemma {:induction false} RowAfterConcat(u: Option<Utxo>, a: seq<Stmt>, b: seq<Stmt>, k: UtxoKey)
    ensures RowAfter(u, a + b, k) == RowAfter(RowAfter(u, a, k), b, k)
  {
    hide NextRow;
    if b == [] {
      assert a + b == a;
    } else {
      RowAfterConcat(u, a, b[..|b| - 1], k);
      assert (a + b)[..|a + b| - 1] == a + b[..|b| - 1];
    }
  }

  lemma {:induction false} RowAfterOne(u: Option<Utxo>, s: Stmt, k: UtxoKey)
    ensures RowAfter(u, [s], k) == NextRow(u, s, k)
  {
    assert [s][..0] == [];
  }

  // ---- The statements do what the body says ---------------------------------------------------

  lemma {:induction false} InputsRow(spender: Bytes, tx: RawTx, from: nat, h: nat, u: Option<Utxo>, k: UtxoKey)
    requires DecodeHash(tx.hash) == Some(spender) && from <= |tx.inputs|
    requires InputStmts(spender, tx.inputs[from..], h).Some?
    ensures var j := FirstInput(tx, from, k.txHash, k.txIndex);
            RowAfter(u, InputStmts(spender, tx.inputs[from..], h).value, k) ==
            if u.Some? && Open(u.value) && j.Some? then Some(SpentIn(u.value, tx, j.value, h)) else u
    decreases |tx.inputs| - from
  {
    if from < |tx.inputs| {
      var rest := tx.inputs[from..];
      assert rest[0] == tx.inputs[from] && rest[1..] == tx.inputs[from + 1..];
      OneInput(spender, tx, from, h, u, k);
      hide DecodeHash, DecodePubkey, InputStmt, InputNames, NextRow, Open, SpentIn;
      var s := InputStmt(spender, rest[0], h).value;
      RowAfterConcat(u, s, InputStmts(spender, rest[1..], h).value, k);
      InputsRow(spender, tx, from + 1, h, RowAfter(u, s, k), k);
      if u.Some? {
        SpentIsClosed(u.value, tx, from, h);
      }
    }
  }

  lemma {:induction false} SpentIsClosed(u: Utxo, tx: RawTx, j: nat, h: nat)
    requires j < |tx.inputs|
    ensures !Open(SpentIn(u, tx, j, h))
  {}

  lemma {:induction false} OneInput(spender: Bytes, tx: RawTx, j: nat, h: nat, u: Option<Utxo>, k: UtxoKey)
    requires DecodeHash(tx.hash) == Some(spender) && j < |tx.inputs|
    requires InputStmt(spender, tx.inputs[j], h).Some?
    ensures RowAfter(u, InputStmt(spender, tx.inputs[j], h).value, k)
         == if u.Some? && Open(u.value) && InputNames(tx, j, k.txHash, k.txIndex) then Some(SpentIn(u.value, tx, j, h))
           else u
  {
    hide DecodeHash, DecodePubkey, Storable;
    var ss := InputStmt(spender, tx.inputs[j], h).value;
    RowAfterOne(u, ss[0], k);
    assert ss == [ss[0]];
  }

  lemma {:induction false} OutputsRow(c: Consensus, tx: RawTx, txHash: Bytes, from: nat, h: nat, u: Option<Utxo>,
                                      k: UtxoKey)
    requires DecodeHash(tx.hash) == Some(txHash) && from <= |tx.outputs|
    requires OutputStmts(c, txHash, from, tx.outputs[from..], h).Some?
    ensures var j := FirstOutput(tx, from, h, k);
            RowAfter(u, OutputStmts(c, txHash, from, tx.outputs[from..], h).value, k) ==
            if u.None? && j.Some? then Some(OutputRow(c, tx, j.value, h, k)) else u
    decreases |tx.outputs| - from
  {
    if from < |tx.outputs| {
      var rest := tx.outputs[from..];
      assert rest[0] == tx.outputs[from] && rest[1..] == tx.outputs[from + 1..];
      OneOutput(c, tx, txHash, from, h, u, k);
      hide OutputStmt, OutputFiled, OutputRow, NextRow, DecodeHash;
      var s := OutputStmt(c, txHash, from, rest[0], h).value;
      RowAfterConcat(u, s, OutputStmts(c, txHash, from + 1, rest[1..], h).value, k);
      OutputsRow(c, tx, txHash, from + 1, h, RowAfter(u, s, k), k);
    }
  }

  lemma {:induction false} OneOutput(c: Consensus, tx: RawTx, txHash: Bytes, j: nat, h: nat, u: Option<Utxo>,
                                     k: UtxoKey)
    requires DecodeHash(tx.hash) == Some(txHash) && j < |tx.outputs|
    requires OutputStmt(c, txHash, j, tx.outputs[j], h).Some?
    ensures RowAfter(u, OutputStmt(c, txHash, j, tx.outputs[j], h).value, k)
         == if u.None? && OutputFiled(tx, j, h, k) then Some(OutputRow(c, tx, j, h, k)) else u
  {
    hide DecodeHash, DecodeAddr, Storable, TrimDeadline;
    var ss := OutputStmt(c, txHash, j, tx.outputs[j], h).value;
    RowAfterOne(u, ss[0], k);
    assert ss == [ss[0]];
  }

  /** One Qi transaction: spends first, then new rows. */
  function TxRow(c: Consensus, tx: RawTx, h: nat, u: Option<Utxo>, k: UtxoKey): Option<Utxo> {
    if u.Some? then Some(SpentByTx(u.value, tx, h, k))
    else if TxPays(tx, h, k) then Some(OutputRow(c, tx, FirstOutput(tx, 0, h, k).value, h, k))
    else None
  }

  lemma {:induction false} QiTxRow(c: Consensus, tx: RawTx, h: nat, u: Option<Utxo>, k: UtxoKey)
    requires QiTxStmts(c, tx, h).Some?
    ensures RowAfter(u, QiTxStmts(c, tx, h).value, k) == TxRow(c, tx, h, u, k)
  {
    if tx.txType == TX_TYPE_QI {
      var txHash := DecodeHash(tx.hash).value;
      hide DecodeHash, InputStmts, OutputStmts, InputNames, OutputRow, SpentIn, Open;
      assert tx.inputs[0..] == tx.inputs && tx.outputs[0..] == tx.outputs;
      InputsRow(txHash, tx, 0, h, u, k);
      var ins := InputStmts(txHash, tx.inputs, h).value;
      OutputsRow(c, tx, txHash, 0, h, RowAfter(u, ins, k), k);
      RowAfterConcat(u, ins, OutputStmts(c, txHash, 0, tx.outputs, h).value, k);
    }
  }

  /** All Qi transactions from position `from` on. */
  function QiRow(c: Consensus, txs: seq<RawTx>, from: nat, h: nat, u: Option<Utxo>, k: UtxoKey): Option<Utxo>
    requires from <= |txs|
  {
    if u.Some? then Some(SpentBy(u.value, txs, from, h, k))
    else
      var n :- FirstPayer(txs, from, h, k);
      Some(SpentBy(OutputRow(c, txs[n], FirstOutput(txs[n], 0, h, k).value, h, k), txs, n + 1, h, k))
  }

  lemma {:induction false} QiTxsRow(c: Consensus, txs: seq<RawTx>, from: nat, h: nat, u: Option<Utxo>, k: UtxoKey)
    requires from <= |txs| && QiTxsStmts(c, txs[from..], h).Some?
    ensures RowAfter(u, QiTxsStmts(c, txs[from..], h).value, k) == QiRow(c, txs, from, h, u, k)
    decreases |txs| - from
  {
    if from < |txs| {
      var rest := txs[from..];
      assert rest[0] == txs[from] && rest[1..] == txs[from + 1..];
      hide QiTxStmts, TxRow, QiRow, NextRow;
      var s := QiTxStmts(c, rest[0], h).value;
      QiTxRow(c, txs[from], h, u, k);
      RowAfterConcat(u, s, QiTxsStmts(c, rest[1..], h).value, k);
      QiTxsRow(c, txs, from + 1, h, RowAfter(u, s, k), k);
      QiRowStep(c, txs, from, h, u, k);
    }
  }

  lemma {:induction false} QiRowStep(c: Consensus, txs: seq<RawTx>, from: nat, h: nat, u: Option<Utxo>, k: UtxoKey)
    requires from < |txs|
    ensures QiRow(c, txs, from, h, u, k) == QiRow(c, txs, from + 1, h, TxRow(c, txs[from], h, u, k), k)
  {
    hide TxNames, TxPays, OutputRow, SpentIn, SpentByTx;
    if u.Some? {
      StaysSpent(txs, from, h, u, k);
    }
  }

  lemma {:induction false} StaysSpent(txs: seq<RawTx>, from: nat, h: nat, u: Option<Utxo>, k: UtxoKey)
    requires from < |txs| && u.Some?
    ensures SpentBy(SpentByTx(u.value, txs[from], h, k), txs, from + 1, h, k) == SpentBy(u.value, txs, from, h, k)
  {
    hide TxNames, FirstInput;
  }

  /** Coins of the groups, `taken` coins of the first group and `index` in all being done. */
  function CoinFrom(c: Consensus, etxHash: Bytes, to: Bytes, groups: seq<DerivedOutput>, taken: nat, index: nat,
                    source: nat, h: nat, u: Option<Utxo>, k: UtxoKey): Option<Utxo>
    requires if groups == [] then taken == 0 else taken <= groups[0].count
  {
    if u.Some? || k.txHash != etxHash || k.createdBlock != h then u
    else
      var i :- FirstCoin(index, index + TotalCount(groups) - taken, k.txIndex);
      var group := CoinGroup(groups, taken + i - index);
      Some(NewRow(c, to, Uint8(group.denomination), group.lockHeight, source, etxHash, h))
  }

  lemma {:induction false} NextGroup(c: Consensus, etxHash: Bytes, to: Bytes, groups: seq<DerivedOutput>, index: nat,
                                     source: nat, h: nat, u: Option<Utxo>, k: UtxoKey)
    requires groups != []
    ensures CoinFrom(c, etxHash, to, groups, groups[0].count, index, source, h, u, k)
         == CoinFrom(c, etxHash, to, groups[1..], 0, index, source, h, u, k)
  {
    hide NewRow, Int32, Uint8;
  }

  lemma {:induction false} NextCoin(c: Consensus, etxHash: Bytes, to: Bytes, groups: seq<DerivedOutput>, taken: nat,
                                    index: nat, source: nat, h: nat, u: Option<Utxo>, k: UtxoKey)
    requires groups != [] && taken < groups[0].count
    ensures CoinFrom(c, etxHash, to, groups, taken, index, source, h, u, k)
         == CoinFrom(c, etxHash, to, groups, taken + 1, index + 1, source, h,
                     CoinRowOrNone(c, etxHash, to, groups[0], index, source, h, u, k), k)
  {
    hide NewRow, Int32, Uint8;
  }

  function CoinRowOrNone(c: Consensus, etxHash: Bytes, to: Bytes, group: DerivedOutput, index: nat, source: nat, h: nat,
                         u: Option<Utxo>, k: UtxoKey): Option<Utxo>
  {
    if u.None? && k.txHash == etxHash && k.createdBlock == h && k.txIndex == Int32(index)
    then Some(NewRow(c, to, Uint8(group.denomination), group.lockHeight, source, etxHash, h))
    else u
  }

  lemma {:induction false} CoinsRow(c: Consensus, etxHash: Bytes, to: Bytes, groups: seq<DerivedOutput>, taken: nat,
                                    index: nat, source: nat, h: nat, u: Option<Utxo>, k: UtxoKey)
    requires if groups == [] then taken == 0 else taken <= groups[0].count
    requires CoinStmts(c, etxHash, to, groups, taken, index, source, h).Some?
    ensures RowAfter(u, CoinStmts(c, etxHash, to, groups, taken, index, source, h).value, k)
         == CoinFrom(c, etxHash, to, groups, taken, index, source, h, u, k)
    decreases |groups|, if groups == [] then 0 else groups[0].count - taken
  {
    if groups != [] {
      hide NextRow, UtxoStmt, CoinFrom, CoinRowOrNone;
      if taken >= groups[0].count {
        NextGroup(c, etxHash, to, groups, index, source, h, u, k);
        CoinsRow(c, etxHash, to, groups[1..], 0, index, source, h, u, k);
      } else {
        var s := UtxoStmt(c, etxHash, Int32(index), to, Uint8(groups[0].denomination), groups[0].lockHeight, source, h);
        var later := CoinStmts(c, etxHash, to, groups, taken + 1, index + 1, source, h).value;
        OneCoin(c, etxHash, to, groups[0], index, source, h, u, k);
        RowAfterConcat(u, [s], later, k);
        CoinsRow(c, etxHash, to, groups, taken + 1, index + 1, source, h, RowAfter(u, [s], k), k);
        NextCoin(c, etxHash, to, groups, taken, index, source, h, u, k);
      }
    } else {
      assert CoinFrom(c, etxHash, to, groups, taken, index, source, h, u, k) == u;
    }
  }

  lemma {:induction false} OneCoin(c: Consensus, etxHash: Bytes, to: Bytes, group: DerivedOutput, index: nat,
                                   source: nat, h: nat, u: Option<Utxo>, k: UtxoKey)
    ensures RowAfter(
              u, [UtxoStmt(c, etxHash, Int32(index), to, Uint8(group.denomination), group.lockHeight, source, h)], k)
         == CoinRowOrNone(c, etxHash, to, group, index, source, h, u, k)
  {
    hide TrimDeadline, Int32;
    RowAfterOne(u, UtxoStmt(c, etxHash, Int32(index), to, Uint8(group.denomination), group.lockHeight, source, h), k);
  }

  /** An ETX's statements are the coins of its groups. */
  lemma {:induction false} EtxAsCoins(c: Consensus, tx: RawTx, h: nat)
    requires EtxStmts(c, tx, h).Some?
    ensures EtxStmts(c, tx, h).value == []
         || (&& tx.to.Some? && DecodeAddr(tx.to.value).Some? && IsQiScope(DecodeAddr(tx.to.value).value)
             && DecodeHash(tx.hash).Some?
             && EtxStmts(c, tx, h)
               == CoinStmts(c, DecodeHash(tx.hash).value, DecodeAddr(tx.to.value).value, EtxGroups(c, tx, h), 0, 0,
                  if tx.etxType == Some(ETX_TYPE_COINBASE) then SOURCE_COINBASE_ETX else SOURCE_CONVERSION_ETX, h))
    ensures tx.to.Some? && DecodeAddr(tx.to.value).Some? && IsQiScope(DecodeAddr(tx.to.value).value)
            && EtxGroups(c, tx, h) != [] ==>
              && DecodeHash(tx.hash).Some?
              && EtxStmts(c, tx, h)
                == CoinStmts(c, DecodeHash(tx.hash).value, DecodeAddr(tx.to.value).value, EtxGroups(c, tx, h), 0, 0,
                  if tx.etxType == Some(ETX_TYPE_COINBASE) then SOURCE_COINBASE_ETX else SOURCE_CONVERSION_ETX, h)
  {
    hide DecodeHash, DecodeAddr, CoinbaseGroups, ConversionGroups, CoinStmts;
  }

  function EtxRowOrNone(c: Consensus, tx: RawTx, h: nat, u: Option<Utxo>, k: UtxoKey): Option<Utxo> {
    if u.None? && EtxPays(c, tx, h, k) then Some(CoinRow(c, tx, h, k)) else u
  }

  lemma {:induction false} EtxRow(c: Consensus, tx: RawTx, h: nat, u: Option<Utxo>, k: UtxoKey)
    requires EtxStmts(c, tx, h).Some?
    ensures RowAfter(u, EtxStmts(c, tx, h).value, k) == EtxRowOrNone(c, tx, h, u, k)
  {
    EtxAsCoins(c, tx, h);
    hide EtxStmts, CoinStmts, EtxGroups, DecodeHash, DecodeAddr, NewRow, NextRow;
    var groups := EtxGroups(c, tx, h);
    var addr := if tx.to.Some? then DecodeAddr(tx.to.value) else None;
    if addr.Some? && IsQiScope(addr.value) && groups != [] {
      CoinsRow(c, DecodeHash(tx.hash).value, addr.value, groups, 0, 0,
               if tx.etxType == Some(ETX_TYPE_COINBASE) then SOURCE_COINBASE_ETX else SOURCE_CONVERSION_ETX, h, u, k);
    } else {
      SkippedEtx(c, tx, h);
    }
  }

  lemma {:induction false} SkippedEtx(c: Consensus, tx: RawTx, h: nat)
    requires EtxStmts(c, tx, h).Some?
    requires !(tx.to.Some? && DecodeAddr(tx.to.value).Some? && IsQiScope(DecodeAddr(tx.to.value).value))
             || EtxGroups(c, tx, h) == []
    ensures EtxStmts(c, tx, h).value == [] && forall k :: !EtxPays(c, tx, h, k)
  {
    EtxAsCoins(c, tx, h);
    hide DecodeHash, DecodeAddr, EtxStmts;
  }

  function EtxsRowFrom(c: Consensus, txs: seq<RawTx>, from: nat, h: nat, u: Option<Utxo>, k: UtxoKey): Option<Utxo>
    requires from <= |txs|
  {
    if u.Some? then u
    else
      var n :- FirstEtx(c, txs, from, h, k);
      Some(CoinRow(c, txs[n], h, k))
  }

  lemma {:induction false} EtxsRow(c: Consensus, txs: seq<RawTx>, from: nat, h: nat, u: Option<Utxo>, k: UtxoKey)
    requires from <= |txs| && EtxsStmts(c, txs[from..], h).Some?
    ensures RowAfter(u, EtxsStmts(c, txs[from..], h).value, k) == EtxsRowFrom(c, txs, from, h, u, k)
    decreases |txs| - from
  {
    if from < |txs| {
      var rest := txs[from..];
      assert rest[0] == txs[from] && rest[1..] == txs[from + 1..];
      hide EtxStmts, EtxPays, CoinRow, NextRow;
      var s := EtxStmts(c, rest[0], h).value;
      EtxRow(c, txs[from], h, u, k);
      RowAfterConcat(u, s, EtxsStmts(c, rest[1..], h).value, k);
      EtxsRow(c, txs, from + 1, h, RowAfter(u, s, k), k);
    }
  }

  // ---- One block --------------------------------------------------------------------------------

  /** The row under k after the body of the block, before the sweep. */
  function BodyRow(c: Consensus, txs: seq<RawTx>, h: nat, u: Option<Utxo>, k: UtxoKey): Option<Utxo> {
    EtxsRowFrom(c, txs, 0, h, QiRow(c, txs, 0, h, u, k), k)
  }

  lemma {:induction false} BlockRow(c: Consensus, t: Contents, b: Block, k: UtxoKey)
    requires Decode(c)(b).Some?
    ensures b.raw.Some? && b.height <= MAX_INT64
    ensures RowAt(ExecAll(t, Decode(c)(b).value), k)
         == NextRow(BodyRow(c, b.raw.value, b.height, RowAt(t, k), k), SweepTrims(b.height), k)
  {
    BlockShape(c, b);
    hide BlockShaped, QiTxsStmts, EtxsStmts, NextRow, QiRow, EtxsRowFrom, RowAt;
    var h, u := b.height, RowAt(t, k);
    var qi, etx := QiTxsStmts(c, b.raw.value, h).value, EtxsStmts(c, b.raw.value, h).value;
    assert Decode(c)(b).value == qi + etx + [SweepTrims(h)];
    assert b.raw.value[0..] == b.raw.value;
    QiTxsRow(c, b.raw.value, 0, h, u, k);
    EtxsRow(c, b.raw.value, 0, h, QiRow(c, b.raw.value, 0, h, u, k), k);
    RowAfterConcat(u, qi, etx, k);
    RowAfterConcat(u, qi + etx, [SweepTrims(h)], k);
    RowAfterOne(RowAfter(u, qi + etx, k), SweepTrims(h), k);
    RowAfterExec(t, qi + etx + [SweepTrims(h)], k);
  }

  /** The fate of an open row under one block, all columns of it: spent by the first input
      of the first Qi transaction that names its outpoint; if there is none, trimmed
      exactly when its deadline is this height and it is unlocked; otherwise left as it
      was. */
  lemma {:induction false} OpenRowUnderBlock(c: Consensus, t: Contents, b: Block, k: UtxoKey)
    requires Decode(c)(b).Some? && k in t.utxos && Open(t.utxos[k])
    ensures b.raw.Some?
    ensures var before, txs, h := t.utxos[k], b.raw.value, b.height;
            var after := ExecAll(t, Decode(c)(b).value).utxos;
            var n := FirstSpender(txs, 0, k.txHash, k.txIndex);
            && k in after
            && after[k] ==
                 if n.Some?
                 then SpentIn(before, txs[n.value], FirstInput(txs[n.value], 0, k.txHash, k.txIndex).value, h)
                 else if before.trimDeadline == Some(h) && before.lockHeight == 0 then before.(trimmedBlock := Some(h))
                 else before
  {
    BlockRow(c, t, b, k);
    hide ExecAll, Decode, FirstInput, FirstSpender;
    assert BodyRow(c, b.raw.value, b.height, RowAt(t, k), k) == Some(SpentBy(t.utxos[k], b.raw.value, 0, b.height, k));
    assert RowAt(ExecAll(t, Decode(c)(b).value), k).Some?;
  }

  /** What a key without a row holds after one block: the output of the first Qi
      transaction that files one under it, spent if a later transaction of the block
      names it; otherwise the coin of the first ETX that does; otherwise nothing. */
  lemma {:induction false} NewRowUnderBlock(c: Consensus, t: Contents, b: Block, k: UtxoKey)
    requires Decode(c)(b).Some? && k !in t.utxos
    ensures b.raw.Some?
    ensures var txs, h := b.raw.value, b.height;
            var n, m := FirstPayer(txs, 0, h, k), FirstEtx(c, txs, 0, h, k);
            RowAt(ExecAll(t, Decode(c)(b).value), k) ==
            if n.Some?
            then Some(SpentBy(OutputRow(c, txs[n.value], FirstOutput(txs[n.value], 0, h, k).value, h, k),
                              txs, n.value + 1, h, k))
            else if m.Some? then Some(CoinRow(c, txs[m.value], h, k))
            else None
  {
    assert RowAt(t, k) == None;
    hide *;
    BlockRow(c, t, b, k);
    SweepSparesNewRows(c, b.raw.value, b.height, k);
    NewBody(c, b.raw.value, b.height, k);
  }

  lemma {:induction false} NewBody(c: Consensus, txs: seq<RawTx>, h: nat, k: UtxoKey)
    ensures var n, m := FirstPayer(txs, 0, h, k), FirstEtx(c, txs, 0, h, k);
            BodyRow(c, txs, h, None, k) ==
            if n.Some?
            then Some(SpentBy(OutputRow(c, txs[n.value], FirstOutput(txs[n.value], 0, h, k).value, h, k),
                              txs, n.value + 1, h, k))
            else if m.Some? then Some(CoinRow(c, txs[m.value], h, k))
            else None
  {
    hide FirstPayer, FirstEtx, FirstOutput, SpentBy, OutputRow, CoinRow, EtxPays, TxPays;
  }

  lemma {:induction false} SweepSparesNewRows(c: Consensus, txs: seq<RawTx>, h: nat, k: UtxoKey)
    requires h <= MAX_INT64
    ensures NextRow(BodyRow(c, txs, h, None, k), SweepTrims(h), k) == BodyRow(c, txs, h, None, k)
  {
    var u := BodyRow(c, txs, h, None, k);
    if u.Some? {
      NewRowDeadline(c, txs, h, k);
      NotYetDue(c, u.value.denomination, h);
      SweepSpares(u.value, h, k);
    }
  }

  /** A new row's deadline follows from its denomination. */
  lemma {:induction false} NewRowDeadline(c: Consensus, txs: seq<RawTx>, h: nat, k: UtxoKey)
    ensures var u := BodyRow(c, txs, h, None, k);
            u.Some? ==> u.value.trimDeadline == NullIfZero(TrimDeadline(c, u.value.denomination, h))
  {
    hide FirstSpender, FirstPayer, FirstEtx, FirstOutput, FirstInput, EtxPays, TxPays, TxNames, TrimDeadline,
         EtxGroups, CoinGroup, FirstCoin,
         DecodeHash, DecodeAddr, DecodePubkey, OutputFiled, Open;
  }

  lemma {:induction false} NotYetDue(c: Consensus, denomination: Byte, h: nat)
    requires h <= MAX_INT64
    ensures NullIfZero(TrimDeadline(c, denomination, h)) != Some(h)
  {
    DeadlineIsLater(c, denomination, h);
  }

  lemma {:induction false} SweepSpares(u: Utxo, h: nat, k: UtxoKey)
    requires u.trimDeadline != Some(h)
    ensures NextRow(Some(u), SweepTrims(h), k) == Some(u)
  {}

  /** The keys after one block. No row disappears. */
  lemma {:induction false} RowsAfterBlock(c: Consensus, t: Contents, b: Block, k: UtxoKey)
    requires Decode(c)(b).Some?
    ensures b.raw.Some?
    ensures k in ExecAll(t, Decode(c)(b).value).utxos
       <==> || k in t.utxos
            || FirstPayer(b.raw.value, 0, b.height, k).Some?
            || FirstEtx(c, b.raw.value, 0, b.height, k).Some?
  {
    BlockRow(c, t, b, k);
    hide ExecAll, Decode, FirstPayer, FirstEtx, SpentBy, OutputRow, CoinRow;
  }

  // ---- Conversion outputs -------------------------------------------------------------------------

  /** Output j of a Qi transaction leaves the Qi ledger and is recorded under ck. */
  predicate OutputConverted(tx: RawTx, j: nat, ck: ConversionKey)
    requires j < |tx.outputs|
  {
    && DecodeHash(tx.hash) == Some(ck.txHash) && Int32(j) == ck.outputIndex
    && DecodeAddr(tx.outputs[j].address).Some?
    && !IsQiScope(DecodeAddr(tx.outputs[j].address).value)
  }

  function FirstConversion(tx: RawTx, from: nat, ck: ConversionKey): (r: Option<nat>)
    requires from <= |tx.outputs|
    ensures r.Some? ==> from <= r.value < |tx.outputs| && OutputConverted(tx, r.value, ck)
    ensures forall j | from <= j < if r.Some? then r.value else |tx.outputs| :: !OutputConverted(tx, j, ck)
    decreases |tx.outputs| - from
  {
    if from == |tx.outputs| then None
    else if OutputConverted(tx, from, ck) then Some(from)
    else FirstConversion(tx, from + 1, ck)
  }

  predicate TxConverts(tx: RawTx, ck: ConversionKey) { tx.txType == TX_TYPE_QI && FirstConversion(tx, 0, ck).Some? }

  function FirstConverter(txs: seq<RawTx>, from: nat, ck: ConversionKey): (r: Option<nat>)
    requires from <= |txs|
    ensures r.Some? ==> from <= r.value < |txs| && TxConverts(txs[r.value], ck)
    ensures forall n | from <= n < if r.Some? then r.value else |txs| :: !TxConverts(txs[n], ck)
    decreases |txs| - from
  {
    if from == |txs| then None
    else if TxConverts(txs[from], ck) then Some(from)
    else FirstConverter(txs, from + 1, ck)
  }

  function ConversionOf(tx: RawTx, j: nat, h: nat, ck: ConversionKey): Conversion
    requires j < |tx.outputs| && OutputConverted(tx, j, ck)
  {
    Conversion(DecodeAddr(tx.outputs[j].address).value, Uint8(tx.outputs[j].denomination), h)
  }

  function ConversionAt(t: Contents, ck: ConversionKey): Option<Conversion> {
    if ck in t.conversions then Some(t.conversions[ck]) else None
  }

  /** The first conversion inserted under the key stays. */
  function ConversionAfter(u: Option<Conversion>, ss: seq<Stmt>, ck: ConversionKey): Option<Conversion>
    decreases |ss|
  {
    if u.Some? || ss == [] then u
    else ConversionAfter(if ss[0].InsertConversion? && ss[0].ckey == ck then Some(ss[0].conversion) else None,
                         ss[1..], ck)
  }

  lemma {:induction false} ConversionAfterExec(t: Contents, ss: seq<Stmt>, ck: ConversionKey)
    ensures ConversionAt(ExecAll(t, ss), ck) == ConversionAfter(ConversionAt(t, ck), ss, ck)
  {
    if ss != [] {
      var n := |ss| - 1;
      ConversionAfterExec(t, ss[..n], ck);
      assert ss == ss[..n] + [ss[n]];
      ConversionAfterConcat(ConversionAt(t, ck), ss[..n], [ss[n]], ck);
      NextConversionExec(ExecAll(t, ss[..n]), ss[n], ck);
      hide Exec;
    }
  }

  lemma {:induction false} NextConversionExec(t: Contents, s: Stmt, ck: ConversionKey)
    ensures ConversionAt(Exec(t, s), ck) == ConversionAfter(ConversionAt(t, ck), [s], ck)
  {
    assert [s][1..] == [];
  }

  lemma {:induction false} ConversionAfterConcat(u: Option<Conversion>, a: seq<Stmt>, b: seq<Stmt>, ck: ConversionKey)
    ensures ConversionAfter(u, a + b, ck) == ConversionAfter(ConversionAfter(u, a, ck), b, ck)
    decreases |a|
  {
    if a == [] {
      assert a + b == b;
    } else if u.None? {
      assert (a + b)[1..] == a[1..] + b;
      ConversionAfterConcat(if a[0].InsertConversion? && a[0].ckey == ck then Some(a[0].conversion) else None,
                            a[1..], b, ck);
    }
  }

  /** Statements that record no conversion. */
  lemma {:induction false} NoConversions(u: Option<Conversion>, ss: seq<Stmt>, ck: ConversionKey)
    requires forall s | s in ss :: !s.InsertConversion?
    ensures ConversionAfter(u, ss, ck) == u
  {
    if u.None? && ss != [] {
      NoConversions(None, ss[1..], ck);
    }
  }

  lemma {:induction false} InputsConvertNothing(spender: Bytes, ins: seq<RawTxIn>, h: nat)
    requires InputStmts(spender, ins, h).Some?
    ensures forall s | s in InputStmts(spender, ins, h).value :: s.MarkSpent?
  {
    hide DecodeHash, DecodePubkey, Storable;
    if ins != [] {
      InputsConvertNothing(spender, ins[1..], h);
    }
  }

  lemma {:induction false} CoinsConvertNothing(c: Consensus, etxHash: Bytes, to: Bytes, groups: seq<DerivedOutput>,
                                               taken: nat, index: nat, source: nat, h: nat)
    requires CoinStmts(c, etxHash, to, groups, taken, index, source, h).Some?
    ensures forall s | s in CoinStmts(c, etxHash, to, groups, taken, index, source, h).value :: s.InsertUtxo?
    decreases |groups|, if groups == [] then 0 else groups[0].count - taken
  {
    if groups != [] {
      if taken >= groups[0].count {
        CoinsConvertNothing(c, etxHash, to, groups[1..], 0, index, source, h);
      } else {
        CoinsConvertNothing(c, etxHash, to, groups, taken + 1, index + 1, source, h);
      }
    }
  }

  lemma {:induction false} EtxsConvertNothing(c: Consensus, txs: seq<RawTx>, h: nat)
    requires EtxsStmts(c, txs, h).Some?
    ensures forall s | s in EtxsStmts(c, txs, h).value :: s.InsertUtxo?
  {
    if txs != [] {
      EtxsConvertNothing(c, txs[1..], h);
      EtxAsCoins(c, txs[0], h);
      hide EtxStmts, EtxGroups, CoinStmts;
      if EtxStmts(c, txs[0], h).value != [] {
        CoinsConvertNothing(c, DecodeHash(txs[0].hash).value, DecodeAddr(txs[0].to.value).value,
                            EtxGroups(c, txs[0], h), 0, 0,
          if txs[0].etxType == Some(ETX_TYPE_COINBASE) then SOURCE_COINBASE_ETX else SOURCE_CONVERSION_ETX, h);
      }
    }
  }

  lemma {:induction false} OutputsConvert(c: Consensus, tx: RawTx, txHash: Bytes, from: nat, h: nat,
                                          u: Option<Conversion>, ck: ConversionKey)
    requires DecodeHash(tx.hash) == Some(txHash) && from <= |tx.outputs|
    requires OutputStmts(c, txHash, from, tx.outputs[from..], h).Some?
    ensures var j := FirstConversion(tx, from, ck);
            ConversionAfter(u, OutputStmts(c, txHash, from, tx.outputs[from..], h).value, ck) ==
            if u.None? && j.Some? then Some(ConversionOf(tx, j.value, h, ck)) else u
    decreases |tx.outputs| - from
  {
    if from < |tx.outputs| {
      var rest := tx.outputs[from..];
      assert rest[0] == tx.outputs[from] && rest[1..] == tx.outputs[from + 1..];
      OneOutputConverts(c, tx, txHash, from, h, u, ck);
      hide OutputStmt, OutputConverted, ConversionOf, DecodeHash;
      var s := OutputStmt(c, txHash, from, rest[0], h).value;
      ConversionAfterConcat(u, s, OutputStmts(c, txHash, from + 1, rest[1..], h).value, ck);
      OutputsConvert(c, tx, txHash, from + 1, h, ConversionAfter(u, s, ck), ck);
    }
  }

  lemma {:induction false} OneOutputConverts(c: Consensus, tx: RawTx, txHash: Bytes, j: nat, h: nat,
                                             u: Option<Conversion>, ck: ConversionKey)
    requires DecodeHash(tx.hash) == Some(txHash) && j < |tx.outputs|
    requires OutputStmt(c, txHash, j, tx.outputs[j], h).Some?
    ensures ConversionAfter(u, OutputStmt(c, txHash, j, tx.outputs[j], h).value, ck) ==
            if u.None? && OutputConverted(tx, j, ck) then Some(ConversionOf(tx, j, h, ck)) else u
  {
    hide DecodeHash, DecodeAddr, Storable, TrimDeadline;
    var ss := OutputStmt(c, txHash, j, tx.outputs[j], h).value;
    assert ss == [ss[0]] && ss[1..] == [];
  }

  function ConvertedFrom(txs: seq<RawTx>, from: nat, h: nat, u: Option<Conversion>, ck: ConversionKey)
    : Option<Conversion>
    requires from <= |txs|
  {
    if u.Some? then u
    else
      var n :- FirstConverter(txs, from, ck);
      Some(ConversionOf(txs[n], FirstConversion(txs[n], 0, ck).value, h, ck))
  }

  lemma {:induction false} QiTxConverts(c: Consensus, tx: RawTx, h: nat, u: Option<Conversion>, ck: ConversionKey)
    requires QiTxStmts(c, tx, h).Some?
    ensures ConversionAfter(u, QiTxStmts(c, tx, h).value, ck) ==
            if u.None? && TxConverts(tx, ck) then Some(ConversionOf(tx, FirstConversion(tx, 0, ck).value, h, ck)) else u
  {
    if tx.txType == TX_TYPE_QI {
      var txHash := DecodeHash(tx.hash).value;
      assert tx.outputs[0..] == tx.outputs;
      InputsConvertNothing(txHash, tx.inputs, h);
      hide DecodeHash, InputStmts, OutputStmts, ConversionOf;
      var ins := InputStmts(txHash, tx.inputs, h).value;
      NoConversions(u, ins, ck);
      OutputsConvert(c, tx, txHash, 0, h, u, ck);
      ConversionAfterConcat(u, ins, OutputStmts(c, txHash, 0, tx.outputs, h).value, ck);
    }
  }

  lemma {:induction false} QiTxsConvert(c: Consensus, txs: seq<RawTx>, from: nat, h: nat, u: Option<Conversion>,
                                        ck: ConversionKey)
    requires from <= |txs| && QiTxsStmts(c, txs[from..], h).Some?
    ensures ConversionAfter(u, QiTxsStmts(c, txs[from..], h).value, ck) == ConvertedFrom(txs, from, h, u, ck)
    decreases |txs| - from
  {
    if from < |txs| {
      var rest := txs[from..];
      assert rest[0] == txs[from] && rest[1..] == txs[from + 1..];
      QiTxConverts(c, txs[from], h, u, ck);
      hide QiTxStmts, TxConverts, ConversionOf;
      var s := QiTxStmts(c, rest[0], h).value;
      ConversionAfterConcat(u, s, QiTxsStmts(c, rest[1..], h).value, ck);
      QiTxsConvert(c, txs, from + 1, h, ConversionAfter(u, s, ck), ck);
    }
  }

  /** The conversion outputs after one block: those before, unchanged, and for every other
      key the output of the first Qi transaction that converts one under it. */
  lemma {:induction false} ConversionsAfterBlock(c: Consensus, t: Contents, b: Block, ck: ConversionKey)
    requires Decode(c)(b).Some?
    ensures b.raw.Some?
    ensures ConversionAt(ExecAll(t, Decode(c)(b).value), ck)
         == ConvertedFrom(b.raw.value, 0, b.height, ConversionAt(t, ck), ck)
  {
    var h, u := b.height, ConversionAt(t, ck);
    var qi, etx := QiTxsStmts(c, b.raw.value, h).value, EtxsStmts(c, b.raw.value, h).value;
    assert b.raw.value[0..] == b.raw.value;
    EtxsConvertNothing(c, b.raw.value, h);
    DecodedParts(c, b);
    hide QiTxsStmts, EtxsStmts, ConvertedFrom, ConversionAt, ConversionAfter, ExecAll, Decode;
    QiTxsConvert(c, b.raw.value, 0, h, u, ck);
    NoConversions(ConvertedFrom(b.raw.value, 0, h, u, ck), etx, ck);
    NoConversions(ConvertedFrom(b.raw.value, 0, h, u, ck), [SweepTrims(h)], ck);
    ConversionAfterConcat(u, qi, etx, ck);
    ConversionAfterConcat(u, qi + etx, [SweepTrims(h)], ck);
    ConversionAfterExec(t, qi + etx + [SweepTrims(h)], ck);
  }

  lemma {:induction false} DecodedParts(c: Consensus, b: Block)
    requires Decode(c)(b).Some?
    ensures b.raw.Some? && QiTxsStmts(c, b.raw.value, b.height).Some? && EtxsStmts(c, b.raw.value, b.height).Some?
    ensures Decode(c)(b).value
         == QiTxsStmts(c, b.raw.value, b.height).value + EtxsStmts(c, b.raw.value, b.height).value
           + [SweepTrims(b.height)]
  {}
}
