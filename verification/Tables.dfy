/** The utxos and conversion_outputs tables, and the SQL statements the decoder
    issues against them inside one transaction. */
module Tables {
  import opened Prelude

  /** Primary key of utxos: tx_hash, tx_index, created_block. */
  datatype UtxoKey = UtxoKey(txHash: Bytes, txIndex: int, createdBlock: nat)

  /** The other columns; None is NULL. */
  datatype Utxo = Utxo(
    address: Bytes,
    denomination: Byte,
    lockHeight: nat,
    source: nat,
    createdTx: Bytes,
    spentBlock: Option<nat>,
    spentTx: Option<Bytes>,
    spenderPubkey: Option<Bytes>,
    trimDeadline: Option<nat>,
    trimmedBlock: Option<nat>)

  datatype ConversionKey = ConversionKey(txHash: Bytes, outputIndex: int)

  datatype Conversion = Conversion(toAddress: Bytes, denomination: Byte, blockHeight: nat)

  datatype Contents = Contents(utxos: map<UtxoKey, Utxo>, conversions: map<ConversionKey, Conversion>)

  const EMPTY := Contents(map[], map[])

  /** Neither spent nor trimmed. */
  predicate Open(u: Utxo) { u.spentBlock.None? && u.trimmedBlock.None? }

  /** The statements a block's decoding consists of. */
  datatype Stmt =
    | MarkSpent(height: nat, spender: Bytes, pubkey: Option<Bytes>, prevHash: Bytes, prevIndex: int)
    | InsertUtxo(key: UtxoKey, address: Bytes, denomination: Byte, lockHeight: nat, source: nat,
                 deadline: Option<nat>)
    | InsertConversion(ckey: ConversionKey, conversion: Conversion)
    | SweepTrims(height: nat)

  /** The block height a statement writes. */
  function HeightOf(s: Stmt): nat {
    match s
    case MarkSpent(h, _, _, _, _) => h
    case InsertUtxo(k, _, _, _, _, _) => k.createdBlock
    case InsertConversion(_, c) => c.blockHeight
    case SweepTrims(h) => h
  }

  /** Every number fits its BIGINT column; otherwise the statement fails. */
  predicate Storable(s: Stmt) {
    && HeightOf(s) <= MAX_INT64
    && (s.InsertUtxo? ==> s.lockHeight <= MAX_INT64 && (s.deadline.Some? ==> s.deadline.value <= MAX_INT64))
  }

  function FreshRow(s: Stmt): Utxo
    requires s.InsertUtxo?
  {
    Utxo(s.address, s.denomination, s.lockHeight, s.source, s.key.txHash, None, None, None, s.deadline, None)
  }

  /** The WHERE clauses of the two closing updates, apart from "still open". */
  predicate Matches(s: Stmt, k: UtxoKey, u: Utxo) {
    match s
    case MarkSpent(_, _, _, hash, index) => k.txHash == hash && k.txIndex == index
    case SweepTrims(h) => u.trimDeadline == Some(h) && u.lockHeight == 0
    case _ => false
  }

  /** The SET clauses. */
  function CloseRow(s: Stmt, u: Utxo): Utxo {
    match s
    case MarkSpent(h, spender, pubkey, _, _) =>
      u.(spentBlock := Some(h), spentTx := Some(spender), spenderPubkey := pubkey)
    case SweepTrims(h) => u.(trimmedBlock := Some(h))
    case _ => u
  }

  function Touch(s: Stmt, k: UtxoKey, u: Utxo): Utxo {
    if Open(u) && Matches(s, k, u) then CloseRow(s, u) else u
  }

  /** The effect of one statement; a conflicting insert does nothing. */
  function Exec(t: Contents, s: Stmt): Contents {
    match s
    case InsertUtxo(key, _, _, _, _, _) =>
      if key in t.utxos then t else t.(utxos := t.utxos[key := FreshRow(s)])
    case InsertConversion(key, c) =>
      if key in t.conversions then t else t.(conversions := t.conversions[key := c])
    case _ => t.(utxos := map k | k in t.utxos :: Touch(s, k, t.utxos[k]))
  }

  function ExecAll(t: Contents, ss: seq<Stmt>): Contents {
    if ss == [] then t else Exec(ExecAll(t, ss[..|ss| - 1]), ss[|ss| - 1])
  }

  lemma {:induction false} ExecSnoc(t: Contents, ss: seq<Stmt>, s: Stmt)
    ensures ExecAll(t, ss + [s]) == Exec(ExecAll(t, ss), s)
  {
    assert (ss + [s])[..|ss|] == ss;
  }

  lemma {:induction false} ExecConcat(t: Contents, a: seq<Stmt>, b: seq<Stmt>)
    ensures ExecAll(t, a + b) == ExecAll(ExecAll(t, a), b)
  {
    if b == [] {
      assert a + b == a;
    } else {
      var n := |b| - 1;
      ExecConcat(t, a, b[..n]);
      assert a + b == (a + b[..n]) + [b[n]];
      ExecSnoc(t, a + b[..n], b[n]);
    }
  }

  // ---- Undo by height ----------------------------------------------------------

  function EraseTag(tag: Option<nat>, heights: iset<nat>): Option<nat> {
    if tag.Some? && tag.value in heights then None else tag
  }

  function EraseRow(u: Utxo, heights: iset<nat>): Utxo {
    var untrimmed := u.(trimmedBlock := EraseTag(u.trimmedBlock, heights));
    if u.spentBlock.Some? && u.spentBlock.value in heights
    then untrimmed.(spentBlock := None, spentTx := None, spenderPubkey := None)
    else untrimmed
  }

  /** Forget everything tagged with one of these heights, looking at tags only. */
  function Erase(t: Contents, heights: iset<nat>): Contents {
    Contents(
      map k | k in t.utxos && k.createdBlock !in heights :: EraseRow(t.utxos[k], heights),
      map c | c in t.conversions && t.conversions[c].blockHeight !in heights :: t.conversions[c])
  }

  /** spent_tx and spender_pubkey are NULL wherever spent_block is. */
  ghost predicate SpendColumnsAgree(t: Contents) {
    forall k | k in t.utxos ::
      t.utxos[k].spentBlock.None? ==> t.utxos[k].spentTx.None? && t.utxos[k].spenderPubkey.None?
  }

  /** No row carries a tag of one of these heights. */
  ghost predicate Untagged(t: Contents, heights: iset<nat>) {
    && (forall k | k in t.utxos ::
          && k.createdBlock !in heights
          && (t.utxos[k].spentBlock.Some? ==> t.utxos[k].spentBlock.value !in heights)
          && (t.utxos[k].trimmedBlock.Some? ==> t.utxos[k].trimmedBlock.value !in heights))
    && (forall c | c in t.conversions :: t.conversions[c].blockHeight !in heights)
  }

  lemma {:induction false} ExecKeepsSpendColumns(t: Contents, s: Stmt)
    requires SpendColumnsAgree(t)
    ensures SpendColumnsAgree(Exec(t, s))
  {}

  /** A statement of an erased height leaves no trace. */
  lemma {:induction false} EraseExec(t: Contents, s: Stmt, heights: iset<nat>)
    requires SpendColumnsAgree(t) && HeightOf(s) in heights
    ensures Erase(Exec(t, s), heights) == Erase(t, heights)
  {}

  lemma {:induction false} EraseExecAll(t: Contents, ss: seq<Stmt>, heights: iset<nat>)
    requires SpendColumnsAgree(t)
    requires forall s <- ss :: HeightOf(s) in heights
    ensures SpendColumnsAgree(ExecAll(t, ss))
    ensures Erase(ExecAll(t, ss), heights) == Erase(t, heights)
  {
    if ss != [] {
      var n := |ss| - 1;
      EraseExecAll(t, ss[..n], heights);
      ExecKeepsSpendColumns(ExecAll(t, ss[..n]), ss[n]);
      EraseExec(ExecAll(t, ss[..n]), ss[n], heights);
    }
  }

  /** Erasing changes nothing exactly when no row carries such a tag. */
  lemma {:induction false} EraseIsNoopIffUntagged(t: Contents, heights: iset<nat>)
    ensures Erase(t, heights) == t <==> Untagged(t, heights)
  {}

  /** Erasing in two steps is erasing the union: the order of rollbacks does not
      matter and repeating one changes nothing. */
  lemma {:induction false} EraseTwice(t: Contents, a: iset<nat>, b: iset<nat>)
    ensures Erase(Erase(t, a), b) == Erase(t, a + b)
  {}

  /** Only the heights that occur as tags matter. */
  lemma {:induction false} EraseAgree(t: Contents, a: iset<nat>, b: iset<nat>)
    requires Untagged(t, a - b) && Untagged(t, b - a)
    ensures Erase(t, a) == Erase(t, b)
  {}

  // ---- The four undo statements, each against the statement it undoes ----------

  function UnTrimmed(t: Contents, h: nat): Contents {
    t.(utxos := map k | k in t.utxos :: t.utxos[k].(trimmedBlock := EraseTag(t.utxos[k].trimmedBlock, iset{h})))
  }

  function UnSpent(t: Contents, h: nat): Contents {
    t.(utxos := map k | k in t.utxos ::
         if t.utxos[k].spentBlock == Some(h)
           then t.utxos[k].(spentBlock := None, spentTx := None, spenderPubkey := None)
         else t.utxos[k])
  }

  function WithoutCreated(t: Contents, h: nat): Contents {
    t.(utxos := map k | k in t.utxos && k.createdBlock != h :: t.utxos[k])
  }

  function WithoutConversions(t: Contents, h: nat): Contents {
    t.(conversions := map c | c in t.conversions && t.conversions[c].blockHeight != h :: t.conversions[c])
  }

  /** Un-trimming takes back a sweep of its height, and restores the tables exactly when
      no row was trimmed at that height before. */
  lemma {:induction false} UnTrimInvertsSweep(t: Contents, h: nat)
    ensures UnTrimmed(Exec(t, SweepTrims(h)), h) == UnTrimmed(t, h)
    ensures UnTrimmed(Exec(t, SweepTrims(h)), h) == t <==> forall k | k in t.utxos :: t.utxos[k].trimmedBlock != Some(h)
  {
    assert UnTrimmed(Exec(t, SweepTrims(h)), h) == UnTrimmed(t, h);
    if k :| k in t.utxos && t.utxos[k].trimmedBlock == Some(h) {
      assert UnTrimmed(t, h).utxos[k] != t.utxos[k];
    }
  }

  /** Un-spending takes back a spend of its height, all three columns of it. */
  lemma {:induction false} UnSpendInvertsSpend(t: Contents, s: Stmt)
    requires s.MarkSpent? && SpendColumnsAgree(t)
    ensures UnSpent(Exec(t, s), s.height) == UnSpent(t, s.height)
    ensures UnSpent(Exec(t, s), s.height) == t <==> forall k | k in t.utxos :: t.utxos[k].spentBlock != Some(s.height)
  {
    assert UnSpent(Exec(t, s), s.height) == UnSpent(t, s.height);
    if k :| k in t.utxos && t.utxos[k].spentBlock == Some(s.height) {
      assert UnSpent(t, s.height).utxos[k] != t.utxos[k];
    }
  }

  /** Deleting by created_block takes back an insert of that height. */
  lemma {:induction false} DeleteInvertsInsert(t: Contents, s: Stmt)
    requires s.InsertUtxo?
    ensures var h := s.key.createdBlock;
            && WithoutCreated(Exec(t, s), h) == WithoutCreated(t, h)
            && (WithoutCreated(Exec(t, s), h) == t <==> forall k | k in t.utxos :: k.createdBlock != h)
  {
    var h := s.key.createdBlock;
    assert WithoutCreated(Exec(t, s), h) == WithoutCreated(t, h);
    if k :| k in t.utxos && k.createdBlock == h {
      assert k !in WithoutCreated(t, h).utxos;
    }
  }

  /** Deleting conversions by block_height takes back an insert of that height. */
  lemma {:induction false} DeleteInvertsConversion(t: Contents, s: Stmt)
    requires s.InsertConversion?
    ensures var h := s.conversion.blockHeight;
            && WithoutConversions(Exec(t, s), h) == WithoutConversions(t, h)
            && (WithoutConversions(Exec(t, s), h) == t
                <==> forall c | c in t.conversions :: t.conversions[c].blockHeight != h)
  {
    var h := s.conversion.blockHeight;
    assert WithoutConversions(Exec(t, s), h) == WithoutConversions(t, h);
    if c :| c in t.conversions && t.conversions[c].blockHeight == h {
      assert c !in WithoutConversions(t, h).conversions;
    }
  }

  /** The four together forget the height. */
  lemma {:induction false} UndoIsErase(t: Contents, h: nat)
    ensures WithoutConversions(WithoutCreated(UnSpent(UnTrimmed(t, h), h), h), h) == Erase(t, iset{h})
  {}

  // ---- The statements as methods on the tables --------------------------------

  /** A transaction's view of the two tables. */
  class Session {
    var utxos: map<UtxoKey, Utxo>
    var conversions: map<ConversionKey, Conversion>

    constructor ()
      ensures View() == EMPTY
    {
      utxos, conversions := map[], map[];
    }

    function View(): Contents
      reads this
    {
      Contents(utxos, conversions)
    }

    method MarkSpent(height: nat, spender: Bytes, pubkey: Option<Bytes>, prevHash: Bytes, prevIndex: int)
      returns (ok: bool)
      modifies this
      ensures var s := Stmt.MarkSpent(height, spender, pubkey, prevHash, prevIndex);
              ok == Storable(s) && View() == if ok then Exec(old(View()), s) else old(View())
    {
      ok := height <= MAX_INT64;
      if ok {
        utxos := map k | k in utxos ::
          var u := utxos[k];
          if k.txHash == prevHash && k.txIndex == prevIndex && u.spentBlock.None? && u.trimmedBlock.None?
          then u.(spentBlock := Some(height), spentTx := Some(spender), spenderPubkey := pubkey)
          else u;
      }
    }

    method InsertUtxo(key: UtxoKey, address: Bytes, denomination: Byte, lockHeight: nat, source: nat,
                      deadline: Option<nat>)
      returns (ok: bool)
      modifies this
      ensures var s := Stmt.InsertUtxo(key, address, denomination, lockHeight, source, deadline);
              ok == Storable(s) && View() == if ok then Exec(old(View()), s) else old(View())
    {
      ok := key.createdBlock <= MAX_INT64 && lockHeight <= MAX_INT64
        && (deadline.Some? ==> deadline.value <= MAX_INT64);
      if ok && key !in utxos {
        utxos := utxos[key := Utxo(address, denomination, lockHeight, source, key.txHash,
                                   None, None, None, deadline, None)];
      }
    }

    method InsertConversion(key: ConversionKey, conversion: Conversion) returns (ok: bool)
      modifies this
      ensures var s := Stmt.InsertConversion(key, conversion);
              ok == Storable(s) && View() == if ok then Exec(old(View()), s) else old(View())
    {
      ok := conversion.blockHeight <= MAX_INT64;
      if ok && key !in conversions {
        conversions := conversions[key := conversion];
      }
    }

    method SweepTrims(height: nat) returns (ok: bool)
      modifies this
      ensures var s := Stmt.SweepTrims(height);
              ok == Storable(s) && View() == if ok then Exec(old(View()), s) else old(View())
    {
      ok := height <= MAX_INT64;
      if ok {
        utxos := map k | k in utxos ::
          var u := utxos[k];
          if u.trimDeadline == Some(height) && u.spentBlock.None? && u.trimmedBlock.None? && u.lockHeight == 0
          then u.(trimmedBlock := Some(height))
          else u;
      }
    }

    method UnTrim(height: nat)
      modifies this
      ensures View() == UnTrimmed(old(View()), height)
    {
      utxos := map k | k in utxos ::
        var u := utxos[k];
        if u.trimmedBlock == Some(height) then u.(trimmedBlock := None) else u;
    }

    method UnSpend(height: nat)
      modifies this
      ensures View() == UnSpent(old(View()), height)
    {
      utxos := map k | k in utxos ::
        var u := utxos[k];
        if u.spentBlock == Some(height) then u.(spentBlock := None, spentTx := None, spenderPubkey := None) else u;
    }

    method DeleteCreated(height: nat)
      modifies this
      ensures View() == WithoutCreated(old(View()), height)
    {
      utxos := map k | k in utxos && k.createdBlock != height :: utxos[k];
    }

    method DeleteConversions(height: nat)
      modifies this
      ensures View() == WithoutConversions(old(View()), height)
    {
      conversions := map c | c in conversions && conversions[c].blockHeight != height :: conversions[c];
    }
  }
}
