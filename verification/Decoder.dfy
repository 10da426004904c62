/** The UTXO event decoder: a block becomes a list of statements; rolling a block
    back looks at its height only. */
module Decoder {
  import opened Prelude
  import opened Chain
  import opened QiDecode
  import opened Tables
  import opened Ledger
  import Hex

  function DecodeSized(s: string, size: nat): Option<Bytes> {
    var b :- Hex.Decode(Hex.TrimPrefix0x(s));
    if |b| == size then Some(b) else None
  }

  function DecodeHash(s: string): Option<Bytes> { DecodeSized(s, 32) }

  function DecodeAddr(s: string): Option<Bytes> { DecodeSized(s, 20) }

  /** An empty public key is stored as NULL. */
  function DecodePubkey(s: string): Option<Option<Bytes>> {
    if Hex.TrimPrefix0x(s) == "" then Some(None)
    else
      var b :- Hex.Decode(Hex.TrimPrefix0x(s));
      Some(Some(b))
  }

  predicate IsQiScope(addr: Bytes) { |addr| == 20 && addr[1] >= 0x80 }

  function NullIfZero(v: nat): Option<nat> { if v == 0 then None else Some(v) }

  function UtxoStmt(c: Consensus, txHash: Bytes, index: int, address: Bytes, denomination: Byte, lockHeight: nat,
                    source: nat, height: nat): Stmt
  {
    InsertUtxo(UtxoKey(txHash, index, height), address, denomination, lockHeight, source,
               NullIfZero(TrimDeadline(c, denomination, height)))
  }

  function Emit(s: Stmt): Option<seq<Stmt>> { if Storable(s) then Some([s]) else None }

  // ---- The statements of a block -------------------------------------------------

  function InputStmt(spender: Bytes, i: RawTxIn, height: nat): Option<seq<Stmt>> {
    var prev :- DecodeHash(i.previousOutPoint.txHash);
    var pubkey :- DecodePubkey(i.pubKey);
    Emit(MarkSpent(height, spender, pubkey, prev, Int32(i.previousOutPoint.index)))
  }

  function InputStmts(spender: Bytes, ins: seq<RawTxIn>, height: nat): Option<seq<Stmt>> {
    if ins == [] then Some([])
    else Then(InputStmt(spender, ins[0], height), InputStmts(spender, ins[1..], height))
  }

  function OutputStmt(c: Consensus, txHash: Bytes, index: nat, out: RawTxOut, height: nat): Option<seq<Stmt>> {
    var addr :- DecodeAddr(out.address);
    var denomination := Uint8(out.denomination);
    if !IsQiScope(addr) then
      Emit(InsertConversion(ConversionKey(txHash, Int32(index)), Conversion(addr, denomination, height)))
    else
      var lock := if out.lock.Some? then Uint64(out.lock.value) else 0;
      Emit(UtxoStmt(c, txHash, Int32(index), addr, denomination, lock, SOURCE_QI_TX, height))
  }

  /** outs are a transaction's outputs from position `index` on. */
  function OutputStmts(c: Consensus, txHash: Bytes, index: nat, outs: seq<RawTxOut>, height: nat)
    : Option<seq<Stmt>>
    decreases outs
  {
    if outs == [] then Some([])
    else Then(OutputStmt(c, txHash, index, outs[0], height), OutputStmts(c, txHash, index + 1, outs[1..], height))
  }

  /** Spends first, then outputs; transactions of other types are skipped. */
  function QiTxStmts(c: Consensus, tx: RawTx, height: nat): Option<seq<Stmt>> {
    if tx.txType != TX_TYPE_QI then Some([])
    else
      var txHash :- DecodeHash(tx.hash);
      Then(InputStmts(txHash, tx.inputs, height), OutputStmts(c, txHash, 0, tx.outputs, height))
  }

  function QiTxsStmts(c: Consensus, txs: seq<RawTx>, height: nat): Option<seq<Stmt>> {
    if txs == [] then Some([]) else Then(QiTxStmts(c, txs[0], height), QiTxsStmts(c, txs[1..], height))
  }

  /** One row per coin of the groups, `taken` coins of the first group being done
      and `index` rows in all. */
  function CoinStmts(c: Consensus, etxHash: Bytes, to: Bytes, groups: seq<DerivedOutput>, taken: nat, index: nat,
                     source: nat, height: nat): Option<seq<Stmt>>
    decreases |groups|, if groups == [] then 0 else groups[0].count - taken
  {
    if groups == [] then Some([])
    else if taken >= groups[0].count then CoinStmts(c, etxHash, to, groups[1..], 0, index, source, height)
    else
      var g := groups[0];
      Then(Emit(UtxoStmt(c, etxHash, Int32(index), to, Uint8(g.denomination), g.lockHeight, source, height)),
           CoinStmts(c, etxHash, to, groups, taken + 1, index + 1, source, height))
  }

  function CoinbaseGroups(c: Consensus, value: nat, lockupByte: nat, height: nat): seq<DerivedOutput>
    requires lockupByte < 4
  {
    DerivedOutputs(c, c.coinbaseValue(value, lockupByte, height), Uint64(height + c.lockupDepth[lockupByte]), 0)
  }

  function ConversionGroups(c: Consensus, value: nat, gasLimit: nat, height: nat): seq<DerivedOutput> {
    DerivedOutputs(c, value, Uint64(height + c.conversionLockPeriod), gasLimit)
  }

  /** Missing input, a lockup byte out of range or a missing value skip the ETX. */
  function CoinbaseStmts(c: Consensus, etxHash: Bytes, to: Bytes, tx: RawTx, height: nat): Option<seq<Stmt>> {
    if tx.input.None? || tx.input.value == [] || tx.input.value[0] >= 4 || tx.value.None? then Some([])
    else CoinStmts(c, etxHash, to, CoinbaseGroups(c, tx.value.value, tx.input.value[0], height), 0, 0,
                   SOURCE_COINBASE_ETX, height)
  }

  function ConversionStmts(c: Consensus, etxHash: Bytes, to: Bytes, tx: RawTx, height: nat): Option<seq<Stmt>> {
    if tx.value.None? then Some([])
    else
      var gas := if tx.gas.Some? then tx.gas.value else 0;
      CoinStmts(c, etxHash, to, ConversionGroups(c, tx.value.value, gas, height), 0, 0,
                SOURCE_CONVERSION_ETX, height)
  }

  function EtxStmts(c: Consensus, tx: RawTx, height: nat): Option<seq<Stmt>> {
    if tx.txType != TX_TYPE_EXTERNAL || tx.etxType.None? || tx.to.None? then Some([])
    else
      var to :- DecodeAddr(tx.to.value);
      if !IsQiScope(to) then Some([])
      else
        var etxHash :- DecodeHash(tx.hash);
        if tx.etxType.value == ETX_TYPE_COINBASE then CoinbaseStmts(c, etxHash, to, tx, height)
        else if tx.etxType.value == ETX_TYPE_CONVERSION then ConversionStmts(c, etxHash, to, tx, height)
        else Some([])
  }

  function EtxsStmts(c: Consensus, txs: seq<RawTx>, height: nat): Option<seq<Stmt>> {
    if txs == [] then Some([]) else Then(EtxStmts(c, txs[0], height), EtxsStmts(c, txs[1..], height))
  }

  /** All Qi transactions, then all ETXs, then the trim sweep; None is a decode error. */
  function BlockStmts(c: Consensus, b: Block): Option<seq<Stmt>> {
    var txs :- b.raw;
    Then(Then(QiTxsStmts(c, txs, b.height), EtxsStmts(c, txs, b.height)), Emit(SweepTrims(b.height)))
  }

  /** The decoding that the rules c give. */
  function Decode(c: Consensus): Decoding { b => BlockStmts(c, b) }

  // ---- The shape of a block's statements -------------------------------------------

  ghost predicate AllShaped(ss: Option<seq<Stmt>>, h: nat) {
    ss.Some? ==> forall i | 0 <= i < |ss.value| :: Shaped(ss.value[i], h)
  }

  lemma {:induction false} InputsShaped(spender: Bytes, ins: seq<RawTxIn>, h: nat)
    ensures AllShaped(InputStmts(spender, ins, h), h)
  {
    if ins != [] {
      InputsShaped(spender, ins[1..], h);
    }
  }

  lemma {:induction false} UtxoShaped(c: Consensus, txHash: Bytes, index: int, to: Bytes, denomination: Byte, lock: nat,
                                      source: nat, h: nat)
    ensures AllShaped(Emit(UtxoStmt(c, txHash, index, to, denomination, lock, source, h)), h)
  {}

  lemma {:induction false} OutputsShaped(c: Consensus, txHash: Bytes, index: nat, outs: seq<RawTxOut>, h: nat)
    ensures AllShaped(OutputStmts(c, txHash, index, outs, h), h)
    decreases outs
  {
    if outs != [] {
      OutputsShaped(c, txHash, index + 1, outs[1..], h);
      var addr := DecodeAddr(outs[0].address);
      if addr.Some? {
        var lock := if outs[0].lock.Some? then Uint64(outs[0].lock.value) else 0;
        UtxoShaped(c, txHash, Int32(index), addr.value, Uint8(outs[0].denomination), lock, SOURCE_QI_TX, h);
      }
    }
  }

  lemma {:induction false} QiTxsShaped(c: Consensus, txs: seq<RawTx>, h: nat)
    ensures AllShaped(QiTxsStmts(c, txs, h), h)
  {
    if txs != [] {
      QiTxsShaped(c, txs[1..], h);
      var txHash := DecodeHash(txs[0].hash);
      if txHash.Some? {
        InputsShaped(txHash.value, txs[0].inputs, h);
        OutputsShaped(c, txHash.value, 0, txs[0].outputs, h);
      }
    }
  }

  lemma {:induction false} CoinsShaped(c: Consensus, etxHash: Bytes, to: Bytes, groups: seq<DerivedOutput>, taken: nat,
                                       index: nat, source: nat, h: nat)
    ensures AllShaped(CoinStmts(c, etxHash, to, groups, taken, index, source, h), h)
    decreases |groups|, if groups == [] then 0 else groups[0].count - taken
  {
    if groups != [] {
      if taken >= groups[0].count {
        CoinsShaped(c, etxHash, to, groups[1..], 0, index, source, h);
      } else {
        UtxoShaped(c, etxHash, Int32(index), to, Uint8(groups[0].denomination), groups[0].lockHeight, source, h);
        CoinsShaped(c, etxHash, to, groups, taken + 1, index + 1, source, h);
      }
    }
  }

  lemma {:induction false} EtxShaped(c: Consensus, tx: RawTx, h: nat)
    ensures AllShaped(EtxStmts(c, tx, h), h)
  {
    if EtxStmts(c, tx, h).Some? && EtxStmts(c, tx, h).value != [] {
      var to, etxHash := DecodeAddr(tx.to.value).value, DecodeHash(tx.hash).value;
      if tx.etxType.value == ETX_TYPE_COINBASE {
        CoinsShaped(c, etxHash, to, CoinbaseGroups(c, tx.value.value, tx.input.value[0], h), 0, 0, SOURCE_COINBASE_ETX,
                    h);
      } else {
        var gas := if tx.gas.Some? then tx.gas.value else 0;
        CoinsShaped(c, etxHash, to, ConversionGroups(c, tx.value.value, gas, h), 0, 0, SOURCE_CONVERSION_ETX, h);
      }
    }
  }

  lemma {:induction false} EtxsShaped(c: Consensus, txs: seq<RawTx>, h: nat)
    ensures AllShaped(EtxsStmts(c, txs, h), h)
  {
    if txs != [] {
      EtxsShaped(c, txs[1..], h);
      EtxShaped(c, txs[0], h);
    }
  }

  lemma {:induction false} BlockShape(c: Consensus, b: Block)
    requires BlockStmts(c, b).Some?
    ensures BlockShaped(BlockStmts(c, b).value, b.height)
  {
    QiTxsShaped(c, b.raw.value, b.height);
    EtxsShaped(c, b.raw.value, b.height);
    var body := QiTxsStmts(c, b.raw.value, b.height).value + EtxsStmts(c, b.raw.value, b.height).value;
    assert BlockStmts(c, b).value == body + [SweepTrims(b.height)];
  }

  /** The decoder's statements for a block carry its height only, sweep last, and
      give new rows deadlines that lie ahead. */
  lemma {:induction false} DecodeIsLawful(c: Consensus)
    ensures Lawful(Decode(c))
  {
    forall b: Block | Decode(c)(b).Some? {
      BlockShape(c, b);
    }
  }

  // ---- The decoder's methods -------------------------------------------------------

  /** The outcome of a step: it succeeded exactly when the statements exist, and
      then ran them all. A failed step's transaction is aborted by its caller. */
  predicate Ran(before: Contents, after: Contents, ok: bool, stmts: Option<seq<Stmt>>) {
    ok == stmts.Some? && (ok ==> after == ExecAll(before, stmts.value))
  }

  lemma {:induction false} OneStmt(t: Contents, s: Stmt)
    ensures ExecAll(t, [s]) == Exec(t, s)
  {}

  /** Keeps a loop's account: `rest` is first followed by later. */
  lemma {:induction false} NextStep(t: Contents, done: seq<Stmt>, first: Option<seq<Stmt>>, later: Option<seq<Stmt>>)
    ensures first.Some? ==>
              && Then(Some(done), Then(first, later)) == Then(Some(done + first.value), later)
              && ExecAll(t, done + first.value) == ExecAll(ExecAll(t, done), first.value)
    ensures first.None? ==> Then(Some(done), Then(first, later)).None?
  {
    if first.Some? {
      ExecConcat(t, done, first.value);
      if later.Some? {
        assert done + (first.value + later.value) == (done + first.value) + later.value;
      }
    }
  }

  lemma {:induction false} StartOf<T>(xs: seq<T>, whole: Option<seq<Stmt>>)
    ensures xs[0..] == xs && Then(Some([]), whole) == whole
  {
    NothingThen(whole);
  }

  lemma {:induction false} EndOf<T>(xs: seq<T>, done: seq<Stmt>)
    ensures xs[|xs|..] == [] && Then(Some(done), Some([])) == Some(done)
  {
    ThenNothing(Some(done));
  }

  method ApplyInputs(tx: Session, spender: Bytes, ins: seq<RawTxIn>, height: nat) returns (ok: bool)
    modifies tx
    ensures Ran(old(tx.View()), tx.View(), ok, InputStmts(spender, ins, height))
  {
    ghost var before := tx.View();
    ghost var done: seq<Stmt> := [];
    StartOf(ins, InputStmts(spender, ins, height));
    for n := 0 to |ins|
      invariant InputStmts(spender, ins, height) == Then(Some(done), InputStmts(spender, ins[n..], height))
      invariant tx.View() == ExecAll(before, done)
    {
      NextStep(before, done, InputStmt(spender, ins[n], height), InputStmts(spender, ins[n..][1..], height));
      assert ins[n..][1..] == ins[n + 1..];
      var prev := DecodeHash(ins[n].previousOutPoint.txHash);
      var pubkey := DecodePubkey(ins[n].pubKey);
      if prev.None? || pubkey.None? {
        return false;
      }
      ok := tx.MarkSpent(height, spender, pubkey.value, prev.value, Int32(ins[n].previousOutPoint.index));
      if !ok {
        return;
      }
      OneStmt(ExecAll(before, done), InputStmt(spender, ins[n], height).value[0]);
      done := done + InputStmt(spender, ins[n], height).value;
    }
    ok := true;
    EndOf(ins, done);
  }

  method ApplyOutputs(c: Consensus, tx: Session, txHash: Bytes, outs: seq<RawTxOut>, height: nat) returns (ok: bool)
    modifies tx
    ensures Ran(old(tx.View()), tx.View(), ok, OutputStmts(c, txHash, 0, outs, height))
  {
    ghost var before := tx.View();
    ghost var done: seq<Stmt> := [];
    StartOf(outs, OutputStmts(c, txHash, 0, outs, height));
    for idx := 0 to |outs|
      invariant OutputStmts(c, txHash, 0, outs, height)
             == Then(Some(done), OutputStmts(c, txHash, idx, outs[idx..], height))
      invariant tx.View() == ExecAll(before, done)
    {
      ghost var here := OutputStmt(c, txHash, idx, outs[idx], height);
      NextStep(before, done, here, OutputStmts(c, txHash, idx + 1, outs[idx..][1..], height));
      assert outs[idx..][1..] == outs[idx + 1..];
      var addr := DecodeAddr(outs[idx].address);
      if addr.None? {
        return false;
      }
      var denomination := Uint8(outs[idx].denomination);
      if !IsQiScope(addr.value) {
        ok := tx.InsertConversion(ConversionKey(txHash, Int32(idx)), Conversion(addr.value, denomination, height));
      } else {
        var lockHeight: nat := 0;
        if outs[idx].lock.Some? {
          lockHeight := Uint64(outs[idx].lock.value);
        }
        var trimDeadline := TrimDeadline(c, denomination, height);
        ok := tx.InsertUtxo(UtxoKey(txHash, Int32(idx), height), addr.value, denomination, lockHeight,
                            SOURCE_QI_TX, NullIfZero(trimDeadline));
      }
      if !ok {
        return;
      }
      OneStmt(ExecAll(before, done), here.value[0]);
      done := done + here.value;
    }
    ok := true;
    EndOf(outs, done);
  }

  method ApplyQiTx(c: Consensus, tx: Session, raw: RawTx, height: nat) returns (ok: bool)
    modifies tx
    ensures Ran(old(tx.View()), tx.View(), ok, QiTxStmts(c, raw, height))
  {
    if raw.txType != TX_TYPE_QI {
      return true;
    }
    var txHash := DecodeHash(raw.hash);
    if txHash.None? {
      return false;
    }
    ok := ApplyInputs(tx, txHash.value, raw.inputs, height);
    if !ok {
      return;
    }
    ok := ApplyOutputs(c, tx, txHash.value, raw.outputs, height);
    if ok {
      ExecConcat(old(tx.View()), InputStmts(txHash.value, raw.inputs, height).value,
                 OutputStmts(c, txHash.value, 0, raw.outputs, height).value);
    }
  }

  method ApplyQiTxs(c: Consensus, tx: Session, txs: seq<RawTx>, height: nat) returns (ok: bool)
    modifies tx
    ensures Ran(old(tx.View()), tx.View(), ok, QiTxsStmts(c, txs, height))
  {
    ghost var before := tx.View();
    ghost var done: seq<Stmt> := [];
    StartOf(txs, QiTxsStmts(c, txs, height));
    for n := 0 to |txs|
      invariant QiTxsStmts(c, txs, height) == Then(Some(done), QiTxsStmts(c, txs[n..], height))
      invariant tx.View() == ExecAll(before, done)
    {
      ghost var here := QiTxStmts(c, txs[n], height);
      NextStep(before, done, here, QiTxsStmts(c, txs[n..][1..], height));
      assert txs[n..][1..] == txs[n + 1..];
      ok := ApplyQiTx(c, tx, txs[n], height);
      if !ok {
        return;
      }
      done := done + here.value;
    }
    ok := true;
    EndOf(txs, done);
  }

  /** The nested loops shared by coinbase and conversion ETXs. */
  method InsertCoins(c: Consensus, tx: Session, etxHash: Bytes, to: Bytes, groups: seq<DerivedOutput>, source: nat,
                     height: nat) returns (ok: bool)
    modifies tx
    ensures Ran(old(tx.View()), tx.View(), ok, CoinStmts(c, etxHash, to, groups, 0, 0, source, height))
  {
    ghost var whole := CoinStmts(c, etxHash, to, groups, 0, 0, source, height);
    ghost var before := tx.View();
    ghost var done: seq<Stmt> := [];
    var idx: nat := 0;
    StartOf(groups, whole);
    for i := 0 to |groups|
      invariant whole == Then(Some(done), CoinStmts(c, etxHash, to, groups[i..], 0, idx, source, height))
      invariant tx.View() == ExecAll(before, done)
    {
      var o := groups[i];
      for j := 0 to o.count
        invariant whole == Then(Some(done), CoinStmts(c, etxHash, to, groups[i..], j, idx, source, height))
        invariant tx.View() == ExecAll(before, done)
      {
        ghost var here := UtxoStmt(c, etxHash, Int32(idx), to, Uint8(o.denomination), o.lockHeight, source, height);
        NextStep(before, done, Emit(here), CoinStmts(c, etxHash, to, groups[i..], j + 1, idx + 1, source, height));
        var trimDeadline := TrimDeadline(c, Uint8(o.denomination), height);
        ok := tx.InsertUtxo(UtxoKey(etxHash, Int32(idx), height), to, Uint8(o.denomination), o.lockHeight,
                            source, NullIfZero(trimDeadline));
        if !ok {
          return;
        }
        OneStmt(ExecAll(before, done), here);
        done := done + [here];
        idx := idx + 1;
      }
      assert groups[i..][1..] == groups[i + 1..];
    }
    ok := true;
    EndOf(groups, done);
  }

  method InsertCoinbaseETXOutputs(c: Consensus, tx: Session, etxHash: Bytes, to: Bytes, raw: RawTx, height: nat)
    returns (ok: bool)
    modifies tx
    ensures Ran(old(tx.View()), tx.View(), ok, CoinbaseStmts(c, etxHash, to, raw, height))
  {
    if raw.input.None? || |raw.input.value| == 0 {
      return true;
    }
    var lockupByte := raw.input.value[0];
    if lockupByte >= 4 {
      return true;
    }
    if raw.value.None? {
      return true;
    }
    var groups := DerivedOutputsCapped(c, c.coinbaseValue(raw.value.value, lockupByte, height),
                                       Uint64(height + c.lockupDepth[lockupByte]), 0);
    ok := InsertCoins(c, tx, etxHash, to, groups, SOURCE_COINBASE_ETX, height);
  }

  method InsertConversionETXOutputs(c: Consensus, tx: Session, etxHash: Bytes, to: Bytes, value: nat, gasLimit: nat,
                                    height: nat) returns (ok: bool)
    modifies tx
    ensures Ran(old(tx.View()), tx.View(), ok,
                CoinStmts(c, etxHash, to, ConversionGroups(c, value, gasLimit, height), 0, 0,
                                  SOURCE_CONVERSION_ETX, height))
  {
    var groups := DerivedOutputsCapped(c, value, Uint64(height + c.conversionLockPeriod), gasLimit);
    ok := InsertCoins(c, tx, etxHash, to, groups, SOURCE_CONVERSION_ETX, height);
  }

  method ApplyEtx(c: Consensus, tx: Session, raw: RawTx, height: nat) returns (ok: bool)
    modifies tx
    ensures Ran(old(tx.View()), tx.View(), ok, EtxStmts(c, raw, height))
  {
    if raw.txType != TX_TYPE_EXTERNAL || raw.etxType.None? || raw.to.None? {
      return true;
    }
    var to := DecodeAddr(raw.to.value);
    if to.None? {
      return false;
    }
    if !IsQiScope(to.value) {
      return true;
    }
    var etxHash := DecodeHash(raw.hash);
    if etxHash.None? {
      return false;
    }
    if raw.etxType.value == ETX_TYPE_COINBASE {
      ok := InsertCoinbaseETXOutputs(c, tx, etxHash.value, to.value, raw, height);
    } else if raw.etxType.value == ETX_TYPE_CONVERSION {
      if raw.value.None? {
        return true;
      }
      var gasLimit: nat := 0;
      if raw.gas.Some? {
        gasLimit := raw.gas.value;
      }
      ok := InsertConversionETXOutputs(c, tx, etxHash.value, to.value, raw.value.value, gasLimit, height);
    } else {
      ok := true;
    }
  }

  method ApplyEtxs(c: Consensus, tx: Session, txs: seq<RawTx>, height: nat) returns (ok: bool)
    modifies tx
    ensures Ran(old(tx.View()), tx.View(), ok, EtxsStmts(c, txs, height))
  {
    ghost var before := tx.View();
    ghost var done: seq<Stmt> := [];
    StartOf(txs, EtxsStmts(c, txs, height));
    for n := 0 to |txs|
      invariant EtxsStmts(c, txs, height) == Then(Some(done), EtxsStmts(c, txs[n..], height))
      invariant tx.View() == ExecAll(before, done)
    {
      ghost var here := EtxStmts(c, txs[n], height);
      NextStep(before, done, here, EtxsStmts(c, txs[n..][1..], height));
      assert txs[n..][1..] == txs[n + 1..];
      ok := ApplyEtx(c, tx, txs[n], height);
      if !ok {
        return;
      }
      done := done + here.value;
    }
    ok := true;
    EndOf(txs, done);
  }

  method ApplyBlock(c: Consensus, tx: Session, b: Block) returns (ok: bool)
    modifies tx
    ensures Ran(old(tx.View()), tx.View(), ok, Decode(c)(b))
  {
    ghost var before := tx.View();
    if b.raw.None? {
      return false;
    }
    ok := ApplyQiTxs(c, tx, b.raw.value, b.height);
    if !ok {
      return;
    }
    ok := ApplyEtxs(c, tx, b.raw.value, b.height);
    if !ok {
      return;
    }
    ghost var qi, etx := QiTxsStmts(c, b.raw.value, b.height).value, EtxsStmts(c, b.raw.value, b.height).value;
    ExecConcat(before, qi, etx);
    ok := tx.SweepTrims(b.height);
    OneStmt(ExecAll(before, qi + etx), SweepTrims(b.height));
    ExecConcat(before, qi + etx, [SweepTrims(b.height)]);
  }

  lemma {:induction false} NoBlocks(f: Decoding, t: Contents, blocks: seq<Block>)
    ensures BlocksStmts(f, blocks[..0]) == Some([]) && ExecAll(t, []) == t
  {}

  method DecodeApply(c: Consensus, tx: Session, blocks: seq<Block>) returns (ok: bool)
    modifies tx
    ensures Ran(old(tx.View()), tx.View(), ok, BlocksStmts(Decode(c), blocks))
  {
    hide Exec, ExecAll, BlockStmts, BlocksStmts;
    ghost var before := tx.View();
    NoBlocks(Decode(c), before, blocks);
    ghost var done: Option<seq<Stmt>> := Some([]);
    for n := 0 to |blocks|
      invariant done.Some? && done == BlocksStmts(Decode(c), blocks[..n])
      invariant tx.View() == ExecAll(before, done.value)
    {
      ghost var here := Decode(c)(blocks[n]);
      assert blocks[..n + 1] == blocks[..n] + [blocks[n]];
      BlocksSnoc(Decode(c), blocks[..n], blocks[n]);
      ok := ApplyBlock(c, tx, blocks[n]);
      if !ok {
        LaterBlocksFail(Decode(c), blocks, n + 1);
        return;
      }
      ExecConcat(before, done.value, here.value);
      done := Then(done, here);
    }
    ok := true;
    assert blocks[..|blocks|] == blocks;
  }

  /** Untrim, unspend, delete created rows, delete conversion rows: together they
      erase the block's height. */
  method RollbackBlock(tx: Session, b: Block)
    modifies tx
    ensures tx.View() == Erase(old(tx.View()), iset{b.height})
  {
    UndoIsErase(tx.View(), b.height);
    hide Erase, UnTrimmed, UnSpent, WithoutCreated, WithoutConversions;
    tx.UnTrim(b.height);
    tx.UnSpend(b.height);
    tx.DeleteCreated(b.height);
    tx.DeleteConversions(b.height);
  }

  method DecodeRollback(tx: Session, blocks: seq<Block>)
    modifies tx
    ensures tx.View() == Erase(old(tx.View()), HeightsOf(blocks))
  {
    ghost var before := tx.View();
    assert HeightsOf(blocks[..0]) == iset{};
    for n := 0 to |blocks|
      invariant tx.View() == Erase(before, HeightsOf(blocks[..n]))
    {
      RollbackBlock(tx, blocks[n]);
      EraseTwice(before, HeightsOf(blocks[..n]), iset{blocks[n].height});
      assert HeightsOf(blocks[..n]) + iset{blocks[n].height} == HeightsOf(blocks[..n + 1]);
    }
    assert blocks[..|blocks|] == blocks;
  }
}
