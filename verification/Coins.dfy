/** The rows an ETX becomes: one per derived coin. */
module Coins {
  import opened Prelude
  import opened Denominations
  import opened QiDecode
  import opened Chain
  import opened Tables
  import opened Decoder
  import opened Effects

  /** The summed values of the rows' denominations. */
  ghost function RowsValue(table: seq<nat>, ss: seq<Stmt>): nat
    requires forall i | 0 <= i < |ss| :: ss[i].InsertUtxo? && ss[i].denomination < |table|
  {
    if ss == [] then 0 else table[ss[0].denomination] + RowsValue(table, ss[1..])
  }

  /** Statement i inserts coin number index + i of the ETX. */
  ghost predicate CoinRows(table: seq<nat>, ss: seq<Stmt>, etxHash: Bytes, to: Bytes, index: nat, source: nat, h: nat) {
    forall i | 0 <= i < |ss| ::
      && ss[i].InsertUtxo?
      && ss[i].key == UtxoKey(etxHash, index + i, h)
      && ss[i].address == to
      && ss[i].source == source
      && ss[i].denomination < |table|
  }

  ghost predicate GroupsFit(table: seq<nat>, groups: seq<DerivedOutput>, taken: nat, index: nat) {
    && (forall i | 0 <= i < |groups| :: groups[i].denomination < |table|)
    && (if groups == [] then taken == 0 else taken <= groups[0].count)
    && index + TotalCount(groups) - taken <= MAX_OUTPUT_INDEX + 1
  }

  /** Value of the coins still to come. */
  ghost function Outstanding(table: seq<nat>, groups: seq<DerivedOutput>, taken: nat): nat
    requires forall i | 0 <= i < |groups| :: groups[i].denomination < |table|
    requires if groups == [] then taken == 0 else taken <= groups[0].count
  {
    if groups == [] then 0
    else Times(groups[0].count - taken, table[groups[0].denomination]) + TotalValue(table, groups[1..])
  }

  lemma {:induction false} CoinStmtsMeaning(table: seq<nat>, c: Consensus, etxHash: Bytes, to: Bytes,
                                            groups: seq<DerivedOutput>, taken: nat, index: nat, source: nat, h: nat)
    requires |table| <= 256 && GroupsFit(table, groups, taken, index)
    requires CoinStmts(c, etxHash, to, groups, taken, index, source, h).Some?
    ensures var ss := CoinStmts(c, etxHash, to, groups, taken, index, source, h).value;
            && CoinRows(table, ss, etxHash, to, index, source, h)
            && |ss| == TotalCount(groups) - taken
            && RowsValue(table, ss) == Outstanding(table, groups, taken)
    decreases |groups|, if groups == [] then 0 else groups[0].count - taken
  {
    if groups != [] {
      if taken >= groups[0].count {
        CoinStmtsMeaning(table, c, etxHash, to, groups[1..], 0, index, source, h);
      } else {
        CoinStmtsMeaning(table, c, etxHash, to, groups, taken + 1, index + 1, source, h);
        var first := UtxoStmt(c, etxHash, Int32(index), to, Uint8(groups[0].denomination), groups[0].lockHeight,
                              source, h);
        var rest := CoinStmts(c, etxHash, to, groups, taken + 1, index + 1, source, h).value;
        PrependCoin(table, first, rest, etxHash, to, index, source, h);
        assert CoinStmts(c, etxHash, to, groups, taken, index, source, h) == Some([first] + rest);
      }
    }
  }

  lemma {:induction false} PrependCoin(table: seq<nat>, first: Stmt, rest: seq<Stmt>, etxHash: Bytes, to: Bytes,
                                       index: nat, source: nat, h: nat)
    requires first.InsertUtxo? && first.key == UtxoKey(etxHash, index, h) && first.address == to
    requires first.source == source && first.denomination < |table|
    requires CoinRows(table, rest, etxHash, to, index + 1, source, h)
    ensures CoinRows(table, [first] + rest, etxHash, to, index, source, h)
    ensures RowsValue(table, [first] + rest) == table[first.denomination] + RowsValue(table, rest)
  {}

  /** The rows of an expansion: indices 0 to n-1, each once and none above the largest
      output index; n is the capped number of coins, and the rows are worth what the
      expansion is worth, which is the whole value exactly when the cap does not bite. */
  ghost predicate FaithfulRows(ss: seq<Stmt>, etxHash: Bytes, to: Bytes, source: nat, h: nat, value: nat, cap: nat)
    requires DivisorChain(DENOMINATIONS)
  {
    var uncapped := MinCoins(DENOMINATIONS, DENOMINATION_COUNT, value);
    && CoinRows(DENOMINATIONS, ss, etxHash, to, 0, source, h)
    && |ss| == Min(cap, uncapped) <= MAX_OUTPUT_INDEX + 1
    && RowsValue(DENOMINATIONS, ss) <= value
    && (RowsValue(DENOMINATIONS, ss) == value <==> uncapped <= cap)
  }

  lemma {:induction false} ExpansionRows(c: Consensus, etxHash: Bytes, to: Bytes, value: nat, lockHeight: nat,
                                         gasLimit: nat, source: nat, h: nat)
    requires SplitsLargestFirst(c, value)
    requires CoinStmts(c, etxHash, to, DerivedOutputs(c, value, lockHeight, gasLimit), 0, 0, source, h).Some?
    ensures DivisorChain(DENOMINATIONS)
    ensures FaithfulRows(
              CoinStmts(c, etxHash, to, DerivedOutputs(c, value, lockHeight, gasLimit), 0, 0, source, h).value,
                         etxHash, to, source, h, value, OutputCap(c, gasLimit))
  {
    CappedExpansion(c, value, lockHeight, gasLimit);
    var groups := DerivedOutputs(c, value, lockHeight, gasLimit);
    CoinStmtsMeaning(DENOMINATIONS, c, etxHash, to, groups, 0, 0, source, h);
  }

  /** A conversion ETX at any gas limit becomes the rows of its capped expansion. */
  lemma {:induction false} ConversionRows(c: Consensus, etxHash: Bytes, to: Bytes, tx: RawTx, h: nat)
    requires tx.value.Some? && SplitsLargestFirst(c, tx.value.value)
    requires ConversionStmts(c, etxHash, to, tx, h).Some?
    ensures DivisorChain(DENOMINATIONS)
    ensures FaithfulRows(ConversionStmts(c, etxHash, to, tx, h).value, etxHash, to, SOURCE_CONVERSION_ETX, h,
                         tx.value.value,
                         OutputCap(c, if tx.gas.Some? then tx.gas.value else 0))
  {
    ExpansionRows(c, etxHash, to, tx.value.value, Uint64(h + c.conversionLockPeriod),
                  if tx.gas.Some? then tx.gas.value else 0, SOURCE_CONVERSION_ETX, h);
  }

  /** A well-formed coinbase ETX becomes the rows of its lockup value, without gas cap. */
  lemma {:induction false} CoinbaseRows(c: Consensus, etxHash: Bytes, to: Bytes, tx: RawTx, h: nat)
    requires tx.value.Some? && tx.input.Some? && tx.input.value != [] && tx.input.value[0] < 4
    requires SplitsLargestFirst(c, c.coinbaseValue(tx.value.value, tx.input.value[0], h))
    requires CoinbaseStmts(c, etxHash, to, tx, h).Some?
    ensures DivisorChain(DENOMINATIONS)
    ensures FaithfulRows(CoinbaseStmts(c, etxHash, to, tx, h).value, etxHash, to, SOURCE_COINBASE_ETX, h,
                         c.coinbaseValue(tx.value.value, tx.input.value[0], h), MAX_OUTPUT_INDEX + 1)
  {
    ExpansionRows(c, etxHash, to, c.coinbaseValue(tx.value.value, tx.input.value[0], h),
                  Uint64(h + c.lockupDepth[tx.input.value[0]]), 0, SOURCE_COINBASE_ETX, h);
  }

  /** The keys an ETX's coins are filed under: its hash, this height, and each index below
      the capped number of coins of its value, once. */
  lemma {:induction false} EtxKeys(c: Consensus, tx: RawTx, h: nat, k: UtxoKey, value: nat, lockHeight: nat,
                                   gasLimit: nat)
    requires SplitsLargestFirst(c, value)
    requires EtxGroups(c, tx, h) == DerivedOutputs(c, value, lockHeight, gasLimit)
    requires tx.to.Some? && DecodeAddr(tx.to.value).Some? && IsQiScope(DecodeAddr(tx.to.value).value)
    ensures DivisorChain(DENOMINATIONS)
    ensures EtxPays(c, tx, h, k) <==>
              && DecodeHash(tx.hash) == Some(k.txHash) && k.createdBlock == h
              && 0 <= k.txIndex < Min(OutputCap(c, gasLimit), MinCoins(DENOMINATIONS, DENOMINATION_COUNT, value))
  {
    CappedExpansion(c, value, lockHeight, gasLimit);
    hide DerivedOutputs, EtxGroups, DecodeAddr, DecodeHash, TotalValue, Best, MinCoins, OutputCap;
    CoinNumbers(TotalCount(EtxGroups(c, tx, h)), k.txIndex);
  }

  /** For a coinbase ETX that is not skipped, and for a conversion. */
  lemma {:induction false} CoinbaseKeys(c: Consensus, tx: RawTx, h: nat, k: UtxoKey)
    requires tx.txType == TX_TYPE_EXTERNAL && tx.etxType == Some(ETX_TYPE_COINBASE)
    requires tx.value.Some? && tx.input.Some? && tx.input.value != [] && tx.input.value[0] < 4
    requires tx.to.Some? && DecodeAddr(tx.to.value).Some? && IsQiScope(DecodeAddr(tx.to.value).value)
    requires SplitsLargestFirst(c, c.coinbaseValue(tx.value.value, tx.input.value[0], h))
    ensures DivisorChain(DENOMINATIONS)
    ensures EtxPays(c, tx, h, k) <==>
              && DecodeHash(tx.hash) == Some(k.txHash) && k.createdBlock == h
              && 0 <= k.txIndex < Min(MAX_OUTPUT_INDEX + 1,
                                      MinCoins(DENOMINATIONS, DENOMINATION_COUNT,
                                               c.coinbaseValue(tx.value.value, tx.input.value[0], h)))
  {
    hide DerivedOutputs, DecodeAddr, DecodeHash, EtxPays, MinCoins, SplitsLargestFirst;
    EtxKeys(c, tx, h, k, c.coinbaseValue(tx.value.value, tx.input.value[0], h),
            Uint64(h + c.lockupDepth[tx.input.value[0]]), 0);
  }

  lemma {:induction false} ConversionKeys(c: Consensus, tx: RawTx, h: nat, k: UtxoKey)
    requires tx.txType == TX_TYPE_EXTERNAL && tx.etxType == Some(ETX_TYPE_CONVERSION)
    requires tx.value.Some? && SplitsLargestFirst(c, tx.value.value)
    requires tx.to.Some? && DecodeAddr(tx.to.value).Some? && IsQiScope(DecodeAddr(tx.to.value).value)
    ensures DivisorChain(DENOMINATIONS)
    ensures EtxPays(c, tx, h, k) <==>
              && DecodeHash(tx.hash) == Some(k.txHash) && k.createdBlock == h
              && 0 <= k.txIndex < Min(OutputCap(c, if tx.gas.Some? then tx.gas.value else 0),
                                      MinCoins(DENOMINATIONS, DENOMINATION_COUNT, tx.value.value))
  {
    hide DerivedOutputs, DecodeAddr, DecodeHash, EtxPays, MinCoins, SplitsLargestFirst, OutputCap;
    EtxKeys(c, tx, h, k, tx.value.value, Uint64(h + c.conversionLockPeriod), if tx.gas.Some? then tx.gas.value else 0);
  }
}
