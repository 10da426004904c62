/** The history query and its keyset pagination. */
module Pagination {
  import opened Prelude
  import opened Chain
  import opened Tables
  import opened Ledger
  import opened History

  /** A position in the history order. */
  datatype Cursor = Cursor(block: nat, txHash: Bytes, txIndex: int)

  function Position(k: UtxoKey): Cursor { Cursor(k.createdBlock, k.txHash, k.txIndex) }

  /** The order of BYTEA values: byte by byte, a prefix first. */
  predicate BytesLess(a: Bytes, b: Bytes)
    decreases a
  {
    if b == [] then false
    else if a == [] then true
    else a[0] < b[0] || (a[0] == b[0] && BytesLess(a[1..], b[1..]))
  }

  /** The query's WHERE clause: a strictly before b in ascending order. */
  predicate Less(a: Cursor, b: Cursor) {
    || a.block < b.block
    || (a.block == b.block && BytesLess(a.txHash, b.txHash))
    || (a.block == b.block && a.txHash == b.txHash && a.txIndex < b.txIndex)
  }

  lemma {:induction false} BytesTrichotomy(a: Bytes, b: Bytes)
    ensures a == b || BytesLess(a, b) || BytesLess(b, a)
    ensures !(BytesLess(a, b) && BytesLess(b, a)) && !BytesLess(a, a)
    decreases a
  {
    if a != [] && b != [] {
      BytesTrichotomy(a[1..], b[1..]);
      assert a == [a[0]] + a[1..] && b == [b[0]] + b[1..];
    }
    BytesIrreflexive(a);
  }

  lemma {:induction false} BytesIrreflexive(a: Bytes)
    ensures !BytesLess(a, a)
  {
    if a != [] {
      BytesIrreflexive(a[1..]);
    }
  }

  lemma {:induction false} BytesTransitive(a: Bytes, b: Bytes, c: Bytes)
    requires BytesLess(a, b) && BytesLess(b, c)
    ensures BytesLess(a, c)
    decreases a
  {
    if a != [] && a[0] == b[0] && b[0] == c[0] {
      BytesTransitive(a[1..], b[1..], c[1..]);
    }
  }

  /** The order is a strict total order. */
  lemma {:induction false} LessIsTotal(a: Cursor, b: Cursor)
    ensures a == b || Less(a, b) || Less(b, a)
    ensures !(Less(a, b) && Less(b, a)) && !Less(a, a)
  {
    BytesTrichotomy(a.txHash, b.txHash);
    BytesIrreflexive(a.txHash);
  }

  lemma {:induction false} LessTransitive(a: Cursor, b: Cursor, c: Cursor)
    requires Less(a, b) && Less(b, c)
    ensures Less(a, c)
  {
    if BytesLess(a.txHash, b.txHash) && BytesLess(b.txHash, c.txHash) {
      BytesTransitive(a.txHash, b.txHash, c.txHash);
    }
  }

  /** k1 is older in the history than k2. */
  predicate Older(k1: UtxoKey, k2: UtxoKey) { Less(Position(k1), Position(k2)) }

  /** Older is a strict total order on keys. */
  lemma {:induction false} OlderIsTotal(a: UtxoKey, b: UtxoKey)
    ensures a == b || Older(a, b) || Older(b, a)
    ensures !(Older(a, b) && Older(b, a)) && !Older(a, a)
  {
    LessIsTotal(Position(a), Position(b));
    LessIsTotal(Position(a), Position(a));
  }

  lemma {:induction false} OlderTransitive(a: UtxoKey, b: UtxoKey, c: UtxoKey)
    requires Older(a, b) && Older(b, c)
    ensures Older(a, c)
  {
    LessTransitive(Position(a), Position(b), Position(c));
  }

  // ---- ORDER BY ... DESC LIMIT n ---------------------------------------------------------

  ghost predicate IsNewest(keys: set<UtxoKey>, m: UtxoKey) {
    m in keys && forall k | k in keys && k != m :: Older(k, m)
  }

  lemma {:induction false} HasNewest(keys: set<UtxoKey>)
    requires keys != {}
    ensures exists m :: IsNewest(keys, m)
    decreases keys
  {
    hide Older;
    var k :| k in keys;
    if keys == {k} {
      assert IsNewest(keys, k);
    } else {
      var rest := keys - {k};
      HasNewest(rest);
      var m :| IsNewest(rest, m);
      OlderIsTotal(k, m);
      if Older(k, m) {
        assert IsNewest(keys, m);
      } else {
        forall j | j in keys && j != k
          ensures Older(j, k)
        {
          if j != m {
            OlderTransitive(j, m, k);
          }
        }
        assert IsNewest(keys, k);
      }
    }
  }

  ghost function Newest(keys: set<UtxoKey>): (m: UtxoKey)
    requires keys != {}
    ensures IsNewest(keys, m)
  {
    HasNewest(keys);
    var m :| IsNewest(keys, m);
    m
  }

  /** The newest keys first, at most limit of them. */
  ghost function Page(keys: set<UtxoKey>, limit: nat): seq<UtxoKey> {
    if keys == {} || limit == 0 then [] else [Newest(keys)] + Page(keys - {Newest(keys)}, limit - 1)
  }

  /** The whole history in order. */
  ghost function InOrder(keys: set<UtxoKey>): seq<UtxoKey> { Page(keys, |keys|) }

  ghost predicate StrictlyDescending(s: seq<UtxoKey>) {
    forall i, j | 0 <= i < j < |s| :: Older(s[j], s[i])
  }

  lemma {:induction false} PageLists(keys: set<UtxoKey>, limit: nat)
    ensures |Page(keys, limit)| == Min(limit, |keys|)
    ensures forall k <- Page(keys, limit) :: k in keys
    decreases limit
  {
    hide Older;
    if keys != {} && limit > 0 {
      var m := Newest(keys);
      PageLists(keys - {m}, limit - 1);
      assert |keys - {m}| == |keys| - 1;
    }
  }

  lemma {:induction false} PageDescends(keys: set<UtxoKey>, limit: nat)
    ensures StrictlyDescending(Page(keys, limit))
    decreases limit
  {
    hide Older;
    if keys != {} && limit > 0 {
      var m := Newest(keys);
      var q := Page(keys - {m}, limit - 1);
      PageLists(keys - {m}, limit - 1);
      PageDescends(keys - {m}, limit - 1);
      forall i, j | 0 <= i < j < |[m] + q|
        ensures Older(([m] + q)[j], ([m] + q)[i])
      {
        assert ([m] + q)[j] == q[j - 1] && q[j - 1] in keys - {m};
        if i > 0 {
          assert ([m] + q)[i] == q[i - 1];
        }
      }
    }
  }

  lemma {:induction false} PageLeavesOlder(keys: set<UtxoKey>, limit: nat, k: UtxoKey)
    requires k in keys && k !in Page(keys, limit)
    ensures |Page(keys, limit)| == limit
    ensures limit > 0 ==> Older(k, Page(keys, limit)[limit - 1])
    decreases limit
  {
    hide Older;
    if limit > 0 {
      var m := Newest(keys);
      var q := Page(keys - {m}, limit - 1);
      assert Page(keys, limit) == [m] + q && k != m;
      PageLeavesOlder(keys - {m}, limit - 1, k);
      if limit > 1 {
        assert ([m] + q)[limit - 1] == q[limit - 2];
      }
    }
  }

  /** A page holds as many keys as fit, strictly descending, and all that is left out is
      older than its last. */
  lemma {:induction false} PageMeaning(keys: set<UtxoKey>, limit: nat)
    ensures var p := Page(keys, limit);
            && |p| == Min(limit, |keys|)
            && (forall k <- p :: k in keys)
            && StrictlyDescending(p)
            && (forall k | k in keys && k !in p :: |p| == limit && (p != [] ==> Older(k, p[|p| - 1])))
  {
    hide Page, Older, StrictlyDescending;
    var p := Page(keys, limit);
    PageLists(keys, limit);
    PageDescends(keys, limit);
    forall k | k in keys && k !in p
      ensures |p| == limit && (p != [] ==> Older(k, p[|p| - 1]))
    {
      PageLeavesOlder(keys, limit, k);
    }
  }

  /** InOrder lists every key once, strictly descending. */
  lemma {:induction false} InOrderMeaning(keys: set<UtxoKey>)
    ensures |InOrder(keys)| == |keys|
    ensures StrictlyDescending(InOrder(keys))
    ensures forall k :: k in InOrder(keys) <==> k in keys
  {
    PageMeaning(keys, |keys|);
    AllListed(keys, |keys|);
  }

  lemma {:induction false} AllListed(keys: set<UtxoKey>, limit: nat)
    requires limit >= |keys|
    ensures forall k | k in keys :: k in Page(keys, limit)
    decreases limit
  {
    if keys != {} {
      var m := Newest(keys);
      assert |keys - {m}| == |keys| - 1;
      AllListed(keys - {m}, limit - 1);
    }
  }

  ghost function OlderThan(keys: set<UtxoKey>, last: UtxoKey): set<UtxoKey> {
    set k | k in keys && Older(k, last)
  }

  /** What is older than an old key is the same with or without the newest one. */
  lemma {:induction false} OlderThanSkipsNewest(keys: set<UtxoKey>, last: UtxoKey)
    requires keys != {} && last in keys
    ensures last !in OlderThan(keys, last)
    ensures last == Newest(keys) ==> OlderThan(keys, last) == keys - {last}
    ensures last != Newest(keys) ==> OlderThan(keys - {Newest(keys)}, last) == OlderThan(keys, last)
  {
    hide Older;
    var m := Newest(keys);
    OlderIsTotal(m, last);
    OlderIsTotal(last, last);
  }

  /** A full page is the beginning of the order, and what is older than its last key is
      the rest. */
  lemma {:induction false} PageThenRest(keys: set<UtxoKey>, limit: nat)
    requires 0 < limit <= |keys|
    ensures |Page(keys, limit)| == limit && Page(keys, limit)[limit - 1] in keys
    ensures var last := Page(keys, limit)[limit - 1];
            && last !in OlderThan(keys, last)
            && InOrder(keys) == Page(keys, limit) + InOrder(OlderThan(keys, last))
    decreases limit
  {
    hide Older, OlderThan;
    var m := Newest(keys);
    var others := keys - {m};
    assert |others| == |keys| - 1;
    var p := Page(keys, limit);
    if limit == 1 {
      assert Page(others, 0) == [];
      OlderThanSkipsNewest(keys, m);
      assert InOrder(keys) == [m] + InOrder(others);
    } else {
      PageThenRest(others, limit - 1);
      var q := Page(others, limit - 1);
      var last := q[limit - 2];
      assert p == [m] + q && p[limit - 1] == last;
      OlderThanSkipsNewest(keys, last);
      assert InOrder(keys) == [m] + InOrder(others);
      assert [m] + (q + InOrder(OlderThan(keys, last))) == p + InOrder(OlderThan(keys, last));
    }
  }

  // ---- The handler ------------------------------------------------------------------------

  /** The clamp of the store. */
  function Clamp(limit: int): (n: nat)
    ensures 1 <= n <= 200
  {
    if limit <= 0 || limit > 200 then 50 else limit
  }

  ghost function Below(keys: set<UtxoKey>, before: Option<Cursor>): set<UtxoKey> {
    if before.None? then keys else set k | k in keys && Less(Position(k), before.value)
  }

  /** Crash is the out-of-range index of taking the last of no rows. */
  datatype Reply = Items(keys: seq<UtxoKey>, next: Option<Cursor>) | Crash

  /** One request: the store clamps the limit, the handler compares the number of rows
      with the raw limit to decide whether there is a next page. */
  ghost function HistoryReply(keys: set<UtxoKey>, before: Option<Cursor>, limit: int): Reply {
    var rows := Page(Below(keys, before), Clamp(limit));
    if |rows| != limit then Items(rows, None)
    else if rows == [] then Crash
    else Items(rows, Some(Position(rows[|rows| - 1])))
  }

  /** Following next_cursor to the end, starting from `before`; None when a request
      crashes. */
  ghost function Crawl(keys: set<UtxoKey>, before: Option<Cursor>, limit: int): Option<seq<UtxoKey>>
    decreases Below(keys, before)
  {
    match HistoryReply(keys, before, limit)
    case Crash => None
    case Items(rows, None) => Some(rows)
    case Items(rows, Some(next)) =>
      NextIsSmaller(keys, before, limit);
      var rest :- Crawl(keys, Some(next), limit);
      Some(rows + rest)
  }

  lemma {:induction false} BelowNext(keys: set<UtxoKey>, before: Option<Cursor>, last: UtxoKey)
    requires last in Below(keys, before)
    ensures Below(keys, Some(Position(last))) == OlderThan(Below(keys, before), last)
  {
    forall k | k in keys && Older(k, last)
      ensures k in Below(keys, before)
    {
      if before.Some? {
        LessTransitive(Position(k), Position(last), before.value);
      }
    }
  }

  lemma {:induction false} NextIsSmaller(keys: set<UtxoKey>, before: Option<Cursor>, limit: int)
    requires var r := HistoryReply(keys, before, limit); r.Items? && r.next.Some?
    ensures Below(keys, HistoryReply(keys, before, limit).next) < Below(keys, before)
  {
    var s := Below(keys, before);
    var rows := Page(s, Clamp(limit));
    PageMeaning(s, Clamp(limit));
    var last := rows[|rows| - 1];
    BelowNext(keys, before, last);
    LessIsTotal(Position(last), Position(last));
    assert last in s && last !in Below(keys, Some(Position(last)));
  }

  /** One request answers the beginning of what is below its cursor, and hands out a
      cursor to the rest, if any. */
  lemma {:induction false} OneRequest(keys: set<UtxoKey>, before: Option<Cursor>, limit: int)
    requires 1 <= limit <= 200
    ensures var reply := HistoryReply(keys, before, limit);
            && reply.Items?
            && (reply.next.None? ==> reply.keys == InOrder(Below(keys, before)))
            && (reply.next.Some? ==>
                  && Below(keys, reply.next) < Below(keys, before)
                  && InOrder(Below(keys, before)) == reply.keys + InOrder(Below(keys, reply.next)))
  {
    hide Page, InOrder, Older, OlderThan, StrictlyDescending, Less;
    var s := Below(keys, before);
    var rows := Page(s, limit);
    PageMeaning(s, limit);
    if |rows| == limit {
      PageThenRest(s, limit);
      BelowNext(keys, before, rows[limit - 1]);
      NextIsSmaller(keys, before, limit);
    } else {
      PageIsAll(s, limit);
    }
  }

  /** With a limit the API allows, the concatenated pages are exactly the history from the
      cursor on, in order, each key once. */
  lemma {:induction false} CrawlIsExact(keys: set<UtxoKey>, before: Option<Cursor>, limit: int)
    requires 1 <= limit <= 200
    ensures Crawl(keys, before, limit) == Some(InOrder(Below(keys, before)))
    decreases Below(keys, before)
  {
    OneRequest(keys, before, limit);
    hide HistoryReply, Below, InOrder;
    var reply := HistoryReply(keys, before, limit);
    if reply.next.Some? {
      CrawlIsExact(keys, reply.next, limit);
    }
  }

  lemma {:induction false} PageIsAll(keys: set<UtxoKey>, limit: nat)
    requires limit >= |keys|
    ensures Page(keys, limit) == InOrder(keys)
    decreases limit
  {
    if keys != {} {
      var m := Newest(keys);
      assert |keys - {m}| == |keys| - 1;
      PageIsAll(keys - {m}, limit - 1);
    }
  }

  /** When following the cursors gives the whole history: for every limit from 1 to 200,
      and outside that range, where the clamp makes the row count differ from the raw
      limit, only when the history fits one clamped page; a limit of 0 crashes on an
      empty history. */
  lemma {:induction false} CrawlIsExactIff(keys: set<UtxoKey>, limit: int)
    ensures Crawl(keys, None, limit) == Some(InOrder(keys))
       <==> 1 <= limit <= 200 || (|keys| <= 50 && !(limit == 0 && keys == {}))
  {
    if 1 <= limit <= 200 {
      CrawlIsExact(keys, None, limit);
    } else {
      PageMeaning(keys, 50);
      InOrderMeaning(keys);
      if |keys| <= 50 {
        PageIsAll(keys, 50);
      }
      if keys == {} {
        assert Page(keys, 50) == [];
      }
    }
  }

  // ---- Pages while the chain grows ---------------------------------------------------------

  function HistoryKeys(t: Contents, addr: Bytes): set<UtxoKey> {
    set k | k in t.utxos && t.utxos[k].address == addr
  }

  lemma {:induction false} StepKeepsOlderHistory(t: Contents, s: Stmt, addr: Bytes, before: Cursor)
    requires HeightOf(s) > before.block
    ensures Below(HistoryKeys(Exec(t, s), addr), Some(before)) == Below(HistoryKeys(t, addr), Some(before))
  {}

  /** Blocks above the cursor, applied between two requests, do not change which keys
      come out from the cursor on. */
  lemma {:induction false} GrowthKeepsOlderHistory(t: Contents, ss: seq<Stmt>, addr: Bytes, before: Cursor)
    requires forall i | 0 <= i < |ss| :: HeightOf(ss[i]) > before.block
    ensures Below(HistoryKeys(ExecAll(t, ss), addr), Some(before)) == Below(HistoryKeys(t, addr), Some(before))
  {
    if ss != [] {
      var n := |ss| - 1;
      GrowthKeepsOlderHistory(t, ss[..n], addr, before);
      StepKeepsOlderHistory(ExecAll(t, ss[..n]), ss[n], addr, before);
    }
  }

  /** Nor do rollbacks of blocks above the cursor. */
  lemma {:induction false} RollbackKeepsOlderHistory(t: Contents, heights: iset<nat>, addr: Bytes, before: Cursor)
    requires forall h | h in heights :: h > before.block
    ensures Below(HistoryKeys(Erase(t, heights), addr), Some(before)) == Below(HistoryKeys(t, addr), Some(before))
  {}

  // ---- A crawl while the table changes between requests --------------------------------------

  /** Following the cursors when request i sees tables[i]; None when a request crashes or
      the tables run out. */
  ghost function CrawlThrough(tables: seq<set<UtxoKey>>, before: Option<Cursor>, limit: int): Option<seq<UtxoKey>>
    decreases |tables|
  {
    if tables == [] then None
    else
      match HistoryReply(tables[0], before, limit)
      case Crash => None
      case Items(rows, None) => Some(rows)
      case Items(rows, Some(next)) =>
        var rest :- CrawlThrough(tables[1..], Some(next), limit);
        Some(rows + rest)
  }

  /** From each request to the next, the keys below the cursor just handed out stay the
      same. */
  ghost predicate StableBelow(tables: seq<set<UtxoKey>>, before: Option<Cursor>, limit: int)
    decreases |tables|
  {
    |tables| > 1 ==>
      var reply := HistoryReply(tables[0], before, limit);
      reply.Items? && reply.next.Some? ==>
        && Below(tables[1], reply.next) == Below(tables[0], reply.next)
        && StableBelow(tables[1..], reply.next, limit)
  }

  /** The joined pages are the history as it was at the first request, whatever happens
      above the cursors between any two requests. */
  lemma {:induction false} CrawlThroughIsExact(tables: seq<set<UtxoKey>>, before: Option<Cursor>, limit: int)
    requires 1 <= limit <= 200 && tables != [] && |tables| > |Below(tables[0], before)|
    requires StableBelow(tables, before, limit)
    ensures CrawlThrough(tables, before, limit) == Some(InOrder(Below(tables[0], before)))
    decreases |tables|
  {
    var keys := tables[0];
    var s := Below(keys, before);
    var reply := HistoryReply(keys, before, limit);
    OneRequest(keys, before, limit);
    hide HistoryReply, Below, InOrder, Page;
    if reply.next.Some? {
      SmallerSet(Below(keys, reply.next), s);
      CrawlThroughIsExact(tables[1..], reply.next, limit);
    }
  }

  lemma {:induction false} SmallerSet(a: set<UtxoKey>, b: set<UtxoKey>)
    requires a < b
    ensures |a| < |b|
  {
    var k :| k in b && k !in a;
    assert a <= b - {k};
    SubsetSize(a, b - {k});
  }

  lemma {:induction false} SubsetSize(a: set<UtxoKey>, b: set<UtxoKey>)
    requires a <= b
    ensures |a| <= |b|
  {
    assert b == a + (b - a);
  }

  /** Rolling back these heights and running these statements touches only heights above
      the given one. */
  ghost predicate Above(heights: iset<nat>, ss: seq<Stmt>, height: nat) {
    && (forall h | h in heights :: h > height)
    && (forall i | 0 <= i < |ss| :: HeightOf(ss[i]) > height)
  }

  /** A reorganisation, or plain growth, above a height. */
  ghost predicate ReorgAbove(t: Contents, t': Contents, height: nat) {
    exists heights, ss :: Above(heights, ss, height) && t' == ExecAll(Erase(t, heights), ss)
  }

  /** Two chains that share a prefix reaching this height. */
  ghost predicate AgreeUpTo(chain: seq<Block>, chain': seq<Block>, height: nat, n: nat) {
    0 < n <= |chain| && n <= |chain'| && chain[..n] == chain'[..n] && chain[n - 1].height >= height
  }

  /** Whatever commits lie between them, the tables of such chains differ by one
      reorganisation above the height. */
  lemma {:induction false} SharedPrefixIsReorgAbove(f: Decoding, chain: seq<Block>, chain': seq<Block>, height: nat,
                                                    n: nat)
    requires Lawful(f) && Consecutive(chain) && Consecutive(chain')
    requires Replay(f, chain).Some? && Replay(f, chain').Some?
    requires AgreeUpTo(chain, chain', height, n)
    ensures ReorgAbove(Replay(f, chain).value, Replay(f, chain').value, height)
  {
    var from := chain[0].height + n;
    var heights, added := HeightsFrom(from), chain'[n..];
    assert chain'[..n] + added == chain' && chain'[0] == chain[..n][0];
    FaithfulHistory(f, chain, n);
    ReplayAppend(f, chain'[..n], added);
    BlocksHeights(f, added);
    SuffixHeights(chain', n);
    hide Replay, BlocksStmts, Erase, ExecAll, HeightsOf;
    assert Above(heights, BlocksStmts(f, added).value, height);
  }

  lemma {:induction false} ReorgKeepsOlderHistory(t: Contents, t': Contents, addr: Bytes, before: Cursor)
    requires ReorgAbove(t, t', before.block)
    ensures Below(HistoryKeys(t', addr), Some(before)) == Below(HistoryKeys(t, addr), Some(before))
  {
    var heights, ss :| Above(heights, ss, before.block) && t' == ExecAll(Erase(t, heights), ss);
    RollbackKeepsOlderHistory(t, heights, addr, before);
    GrowthKeepsOlderHistory(Erase(t, heights), ss, addr, before);
  }

  function HistoriesOf(tables: seq<Contents>, addr: Bytes): seq<set<UtxoKey>> {
    seq(|tables|, i requires 0 <= i < |tables| => HistoryKeys(tables[i], addr))
  }

  /** Between each request and the next, the chain changes only above the block of the
      cursor just handed out. */
  ghost predicate ReorgsAboveCursors(tables: seq<Contents>, addr: Bytes, before: Option<Cursor>, limit: int)
    decreases |tables|
  {
    |tables| > 1 ==>
      var reply := HistoryReply(HistoryKeys(tables[0], addr), before, limit);
      reply.Items? && reply.next.Some? ==>
        && ReorgAbove(tables[0], tables[1], reply.next.value.block)
        && ReorgsAboveCursors(tables[1..], addr, reply.next, limit)
  }

  lemma {:induction false} ReorgsAreStable(tables: seq<Contents>, addr: Bytes, before: Option<Cursor>, limit: int)
    requires ReorgsAboveCursors(tables, addr, before, limit)
    ensures StableBelow(HistoriesOf(tables, addr), before, limit)
    decreases |tables|
  {
    if |tables| > 1 {
      var reply := HistoryReply(HistoryKeys(tables[0], addr), before, limit);
      assert HistoriesOf(tables, addr)[1..] == HistoriesOf(tables[1..], addr);
      if reply.Items? && reply.next.Some? {
        ReorgKeepsOlderHistory(tables[0], tables[1], addr, reply.next.value);
        hide HistoryReply, Below, HistoryKeys, ReorgAbove;
        ReorgsAreStable(tables[1..], addr, reply.next, limit);
      }
    }
  }

  /** A crawl completes as if nothing had happened, although between any two of its
      requests blocks above the cursor are rolled back and applied. */
  lemma {:induction false} CrawlSurvivesReorgs(tables: seq<Contents>, addr: Bytes, before: Option<Cursor>, limit: int)
    requires 1 <= limit <= 200 && tables != [] && |tables| > |Below(HistoryKeys(tables[0], addr), before)|
    requires ReorgsAboveCursors(tables, addr, before, limit)
    ensures CrawlThrough(HistoriesOf(tables, addr), before, limit)
         == Some(InOrder(Below(HistoryKeys(tables[0], addr), before)))
  {
    ReorgsAreStable(tables, addr, before, limit);
    CrawlThroughIsExact(HistoriesOf(tables, addr), before, limit);
  }

  // ---- Over the chains of a run -------------------------------------------------------

  ghost predicate Replayed(f: Decoding, chains: seq<seq<Block>>) {
    forall i | 0 <= i < |chains| :: Consecutive(chains[i]) && Replay(f, chains[i]).Some?
  }

  /** The tables when each request is answered. */
  ghost function TablesOf(f: Decoding, chains: seq<seq<Block>>): seq<Contents>
    requires Replayed(f, chains)
  {
    seq(|chains|, i requires 0 <= i < |chains| => Replay(f, chains[i]).value)
  }

  /** The chain at each request and the one at the next share the blocks up to the cursor
      just handed out. */
  ghost predicate SharedUpToCursors(f: Decoding, chains: seq<seq<Block>>, addr: Bytes, before: Option<Cursor>,
                                    limit: int)
    requires Replayed(f, chains)
    decreases |chains|
  {
    |chains| > 1 ==>
      var reply := HistoryReply(HistoryKeys(Replay(f, chains[0]).value, addr), before, limit);
      reply.Items? && reply.next.Some? ==>
        && (exists n: nat :: AgreeUpTo(chains[0], chains[1], reply.next.value.block, n))
        && SharedUpToCursors(f, chains[1..], addr, reply.next, limit)
  }

  lemma {:induction false} SharedChainsReorgAbove(f: Decoding, chains: seq<seq<Block>>, addr: Bytes,
                                                  before: Option<Cursor>, limit: int)
    requires Lawful(f) && Replayed(f, chains) && SharedUpToCursors(f, chains, addr, before, limit)
    ensures ReorgsAboveCursors(TablesOf(f, chains), addr, before, limit)
    decreases |chains|
  {
    if |chains| > 1 {
      var reply := HistoryReply(HistoryKeys(Replay(f, chains[0]).value, addr), before, limit);
      assert TablesOf(f, chains)[1..] == TablesOf(f, chains[1..]);
      if reply.Items? && reply.next.Some? {
        var n: nat :| AgreeUpTo(chains[0], chains[1], reply.next.value.block, n);
        SharedPrefixIsReorgAbove(f, chains[0], chains[1], reply.next.value.block, n);
        hide HistoryReply, HistoryKeys, ReorgAbove, Replay, Lawful, Consecutive, AgreeUpTo;
        SharedChainsReorgAbove(f, chains[1..], addr, reply.next, limit);
      }
    }
  }

  /** Any number of commits may lie between two requests: as long as the chain keeps the
      blocks up to the cursor, the crawl is exact. */
  lemma {:induction false} CrawlSurvivesCommits(f: Decoding, chains: seq<seq<Block>>, addr: Bytes,
                                                before: Option<Cursor>, limit: int)
    requires Lawful(f) && Replayed(f, chains) && SharedUpToCursors(f, chains, addr, before, limit)
    requires 1 <= limit <= 200 && chains != []
    requires |chains| > |Below(HistoryKeys(Replay(f, chains[0]).value, addr), before)|
    ensures CrawlThrough(HistoriesOf(TablesOf(f, chains), addr), before, limit)
         == Some(InOrder(Below(HistoryKeys(Replay(f, chains[0]).value, addr), before)))
  {
    SharedChainsReorgAbove(f, chains, addr, before, limit);
    hide Replay, Lawful, Replayed, SharedUpToCursors, ReorgsAboveCursors, HistoryKeys, Below, InOrder, CrawlThrough,
         HistoriesOf;
    CrawlSurvivesReorgs(TablesOf(f, chains), addr, before, limit);
  }
}
