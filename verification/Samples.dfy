/** Small blocks on which the findings can be seen. */
module Samples {
  import opened Prelude
  import opened Chain
  import opened QiDecode
  import opened Tables
  import opened Ledger
  import opened Decoder
  import opened Effects
  import opened References
  import opened Reads
  import opened FollowerSpec
  import opened Window
  import opened Stores
  import opened Runs
  import opened Reach
  import opened Forks
  import opened Lanes
  import opened PostgresStore
  import Hex

  function BareTx(hash: Bytes, inputs: seq<RawTxIn>, outputs: seq<RawTxOut>): RawTx {
    RawTx(Hex.Encode(hash), TX_TYPE_QI, None, None, None, None, None, inputs, outputs)
  }

  lemma {:induction false} EncodedHex(bs: Bytes)
    ensures Hex.Decode(Hex.TrimPrefix0x(Hex.Encode(bs))) == Some(bs)
  {
    Hex.DecodeEncode(bs);
    if bs != [] {
      assert Hex.Encode(bs)[1] == Hex.CharOf(bs[0] % 16) != 'x';
    }
  }

  lemma {:induction false} SpenderStmts(c: Consensus, a: Bytes, b: Bytes, h: nat)
    requires |a| == 32 && |b| == 32 && h <= MAX_INT64
    ensures QiTxStmts(c, BareTx(a, [RawTxIn(RawOutpoint(Hex.Encode(b), 0), "")], []), h)
         == Some([MarkSpent(h, a, None, b, 0)])
  {
    EncodedHex(a);
    EncodedHex(b);
    hide Hex.Encode, Hex.Decode;
    var ins := [RawTxIn(RawOutpoint(Hex.Encode(b), 0), "")];
    var spend := Some([MarkSpent(h, a, None, b, 0)]);
    assert InputStmt(a, ins[0], h) == spend;
    assert ins[1..] == [];
    ThenNothing(spend);
    assert InputStmts(a, ins, h) == Then(spend, InputStmts(a, [], h)) == spend;
    assert OutputStmts(c, a, 0, [], h) == Some([]);
  }

  /** One output of denomination d to addr. */
  function PayTx(hash: Bytes, addr: Bytes, d: Byte): RawTx {
    BareTx(hash, [], [RawTxOut(Hex.Encode(addr), d, None)])
  }

  lemma {:induction false} PayerStmts(c: Consensus, hash: Bytes, addr: Bytes, d: Byte, h: nat)
    requires |hash| == 32 && IsQiScope(addr)
    requires h <= MAX_INT64 && TrimDeadline(c, d, h) <= MAX_INT64
    ensures QiTxStmts(c, PayTx(hash, addr, d), h) == Some([UtxoStmt(c, hash, 0, addr, d, 0, SOURCE_QI_TX, h)])
  {
    EncodedHex(hash);
    EncodedHex(addr);
    hide Hex.Encode, Hex.Decode;
    var outs := [RawTxOut(Hex.Encode(addr), d, None)];
    var create := Some([UtxoStmt(c, hash, 0, addr, d, 0, SOURCE_QI_TX, h)]);
    assert OutputStmt(c, hash, 0, outs[0], h) == create;
    assert outs[1..] == [];
    ThenNothing(create);
    assert OutputStmts(c, hash, 0, outs, h) == Then(create, OutputStmts(c, hash, 1, [], h)) == create;
    NothingThen(create);
    assert InputStmts(hash, [], h) == Some([]);
  }

  /** A block with that one transaction. */
  function PayBlock(name: string, parent: string, h: nat, hash: Bytes, addr: Bytes, d: Byte): Block {
    Block(h, Hash(name), Hash(parent), Some([PayTx(hash, addr, d)]))
  }

  lemma {:induction false} PayTxFiles(c: Consensus, h: nat, hash: Bytes, addr: Bytes, d: Byte)
    requires |hash| == 32 && IsQiScope(addr)
    ensures var tx, k := PayTx(hash, addr, d), UtxoKey(hash, 0, h);
            && TxPays(tx, h, k)
            && FirstOutput(tx, 0, h, k) == Some(0)
            && OutputRow(c, tx, 0, h, k) == NewRow(c, addr, d, 0, SOURCE_QI_TX, hash, h)
  {
    EncodedHex(hash);
    EncodedHex(addr);
    hide Hex.Encode, Hex.Decode, TrimDeadline;
    assert OutputFiled(PayTx(hash, addr, d), 0, h, UtxoKey(hash, 0, h));
  }

  lemma {:induction false} OneTxDecodes(c: Consensus, b: Block, tx: RawTx)
    requires b.raw == Some([tx]) && b.height <= MAX_INT64
    requires QiTxStmts(c, tx, b.height).Some? && EtxStmts(c, tx, b.height).Some?
    ensures Decode(c)(b).Some?
  {
    hide QiTxStmts, EtxStmts;
    assert [tx][1..] == [];
    assert QiTxsStmts(c, [], b.height) == Some([]) && EtxsStmts(c, [], b.height) == Some([]);
  }

  lemma {:induction false} PayBlockDecodes(c: Consensus, name: string, parent: string, h: nat, hash: Bytes, addr: Bytes,
                                           d: Byte)
    requires |hash| == 32 && IsQiScope(addr)
    requires h <= MAX_INT64 && TrimDeadline(c, d, h) <= MAX_INT64
    ensures Decode(c)(PayBlock(name, parent, h, hash, addr, d)).Some?
  {
    PayerStmts(c, hash, addr, d, h);
    assert EtxStmts(c, PayTx(hash, addr, d), h) == Some([]);
    hide Decode, QiTxStmts, EtxStmts, PayTx, UtxoStmt;
    OneTxDecodes(c, PayBlock(name, parent, h, hash, addr, d), PayTx(hash, addr, d));
  }

  /** The row of the paying transaction is filed by its block, and spent by none of it. */
  lemma {:induction false} PayBlockFiles(c: Consensus, name: string, parent: string, h: nat, hash: Bytes, addr: Bytes,
                                         d: Byte)
    requires |hash| == 32 && IsQiScope(addr)
    ensures var b, k := PayBlock(name, parent, h, hash, addr, d), UtxoKey(hash, 0, h);
            && FiledIn(c, b, k)
            && FirstPayer(b.raw.value, 0, h, k) == Some(0)
            && FirstSpender(b.raw.value, 1, hash, 0) == None
  {
    PayTxFiles(c, h, hash, addr, d);
    hide TxPays, FirstOutput, PayTx, OutputRow, TxNames;
    var b := PayBlock(name, parent, h, hash, addr, d);
    assert b.raw.value[0] == PayTx(hash, addr, d);
  }

  /** A chain of one decodable block. */
  lemma {:induction false} OneBlockReplay(f: Decoding, b: Block)
    requires f(b).Some?
    ensures Replay(f, [b]) == Some(ExecAll(EMPTY, f(b).value))
  {
    assert [] + [b] == [b];
    assert Replay(f, []) == Some(EMPTY);
    hide Replay;
    ReplayStep(f, [], b);
  }

  // ---- A repeated transaction -----------------------------------------------------------------

  /** The same transaction in two consecutive blocks gives its outpoint two rows. */
  lemma {:induction false} RepeatedTransaction(c: Consensus, h: nat, hash: Bytes, addr: Bytes)
    requires |hash| == 32 && IsQiScope(addr)
    requires h < MAX_INT64 && TrimDeadline(c, 0, h) <= MAX_INT64 && TrimDeadline(c, 0, h + 1) <= MAX_INT64
    ensures var chain := [PayBlock("a", "z", h, hash, addr, 0), PayBlock("b", "a", h + 1, hash, addr, 0)];
            && Consecutive(chain)
            && Replay(Decode(c), chain).Some?
            && !OneRowEach(Replay(Decode(c), chain).value)
  {
    var one, two := PayBlock("a", "z", h, hash, addr, 0), PayBlock("b", "a", h + 1, hash, addr, 0);
    PayBlockDecodes(c, "a", "z", h, hash, addr, 0);
    PayBlockDecodes(c, "b", "a", h + 1, hash, addr, 0);
    PayBlockFiles(c, "a", "z", h, hash, addr, 0);
    PayBlockFiles(c, "b", "a", h + 1, hash, addr, 0);
    hide Decode, FiledIn, Consecutive, Replay, OneRowEach, FirstPayer, FirstSpender, TrimDeadline;
    TwoFilers(c, one, two, UtxoKey(hash, 0, h), UtxoKey(hash, 0, h + 1));
  }

  lemma {:induction false} TwoFilers(c: Consensus, one: Block, two: Block, k: UtxoKey, k': UtxoKey)
    requires Decode(c)(one).Some? && Decode(c)(two).Some? && two.height == one.height + 1
    requires FiledIn(c, one, k) && FiledIn(c, two, k') && k.txHash == k'.txHash && k.txIndex == k'.txIndex
    ensures var chain := [one, two];
            Consecutive(chain) && Replay(Decode(c), chain).Some? && !OneRowEach(Replay(Decode(c), chain).value)
  {
    hide Decode, FiledIn, Replay, OneRowEach, FiledOnce;
    var chain := [one, two];
    assert [one] + [two] == chain;
    OneBlockReplay(Decode(c), one);
    ReplayStep(Decode(c), [one], two);
    FiledTwice(c, chain, k, k');
    OneRowPerOutpointIff(c, chain);
  }

  lemma {:induction false} FiledTwice(c: Consensus, chain: seq<Block>, k: UtxoKey, k': UtxoKey)
    requires |chain| >= 2 && FiledIn(c, chain[0], k) && FiledIn(c, chain[1], k')
    requires k.txHash == k'.txHash && k.txIndex == k'.txIndex
    ensures !FiledOnce(c, chain)
  {
    hide FiledIn;
  }

  // ---- An unknown denomination ------------------------------------------------------------------

  /** A Qi output of denomination 15 is accepted, and from then on neither its address's
      balance nor the statistics can be computed. */
  lemma {:induction false} UnknownDenomination(c: Consensus, h: nat, hash: Bytes, addr: Bytes)
    requires |hash| == 32 && IsQiScope(addr)
    requires h <= MAX_INT64 && TrimDeadline(c, 15, h) <= MAX_INT64
    ensures var chain := [PayBlock("a", "z", h, hash, addr, 15)];
            && Replay(Decode(c), chain).Some?
            && var t := Replay(Decode(c), chain).value.utxos;
               !Priced(t, OpenOf(t, addr)) && !Priced(t, OpenKeys(t))
  {
    var b, k := PayBlock("a", "z", h, hash, addr, 15), UtxoKey(hash, 0, h);
    PayBlockDecodes(c, "a", "z", h, hash, addr, 15);
    PayBlockFiles(c, "a", "z", h, hash, addr, 15);
    PayTxFiles(c, h, hash, addr, 15);
    NewRowUnderBlock(c, EMPTY, b, k);
    hide Decode, PayTx, TxPays, FirstOutput, OutputRow, FirstPayer, FirstSpender, TrimDeadline, ExecAll, Replay;
    OneBlockReplay(Decode(c), b);
    var t := Replay(Decode(c), [b]).value.utxos;
    assert b.raw.value[0] == PayTx(hash, addr, 15);
    assert RowAt(Replay(Decode(c), [b]).value, k) == Some(NewRow(c, addr, 15, 0, SOURCE_QI_TX, hash, h));
    assert k in OpenOf(t, addr) && k in OpenKeys(t);
    assert ValueOf(15) == None;
  }

  // ---- A lost reply ---------------------------------------------------------------------------------

  /** One block without transactions, and the reply to its commit is lost: the store has
      the block, the follower has none. */
  lemma {:induction false} FirstReplyLost(c: Consensus, maxDepth: nat)
    ensures var b := Block(1, Hash("a"), Hash("z"), Some([]));
            var world: Universe := map[Hash("a") := b];
            var events := [Head(b, map[], Lost)];
            && ValidUniverse(world) && Lawful(Decode(c))
            && Inv(world, Decode(c), maxDepth, INITIAL)
            && ValidEvent(world, events[0])
            && !Synced(Run(world, Decode(c), maxDepth, INITIAL, events), maxDepth)
  {
    var b := Block(1, Hash("a"), Hash("z"), Some([]));
    var world: Universe := map[Hash("a") := b];
    DecodeIsLawful(c);
    assert QiTxsStmts(c, [], 1) == Some([]) && EtxsStmts(c, [], 1) == Some([]);
    assert Decode(c)(b).Some?;
    hide Decode, Inv, Synced, Run;
    assert Hash("a").text == "a" && NO_HASH.text == "";
    LostReplyDesyncs(world, Decode(c), maxDepth, b);
  }

  // ---- Dropped forks ----------------------------------------------------------------------

  function Bare(h: nat, name: string, parent: string): Block { Block(h, Hash(name), Hash(parent), Some([])) }

  const G := Bare(1, "g", "z")
  const A := Bare(2, "a", "g")
  const B := Bare(2, "b", "g")
  const C := Bare(3, "c", "b")

  /** Blocks a and b both follow g, and c follows b. */
  const FORK: Universe := map[Hash("g") := G, Hash("a") := A, Hash("b") := B, Hash("c") := C]

  /** The follower has ingested g and a. */
  const GROWN: seq<Event> := [Head(G, map[], Committed), Head(A, map[], Committed)]

  lemma {:induction false} ForkWorld(c: Consensus)
    ensures ValidUniverse(FORK) && Lawful(Decode(c))
    ensures Served(FORK, G) && Served(FORK, A) && Served(FORK, B) && Served(FORK, C)
    ensures Decode(c)(G).Some? && Decode(c)(A).Some?
    ensures A.hash != B.hash && G.hash != A.hash
  {
    DecodeIsLawful(c);
    hide Decode, Lawful;
    NamesDiffer();
    EmptyDecodes(c, G);
    EmptyDecodes(c, A);
  }

  lemma {:induction false} NamesDiffer()
    ensures Hash("g") != Hash("a") && Hash("g") != Hash("b") && Hash("g") != Hash("c")
    ensures Hash("a") != Hash("b") && Hash("a") != Hash("c") && Hash("b") != Hash("c")
    ensures forall h | h in FORK :: Hash("z") != h && NO_HASH != h
  {
    assert "g"[0] == 'g' && "a"[0] == 'a' && "b"[0] == 'b' && "c"[0] == 'c' && "z"[0] == 'z';
  }

  lemma {:induction false} EmptyDecodes(c: Consensus, b: Block)
    requires b.raw == Some([]) && b.height <= MAX_INT64
    ensures Decode(c)(b).Some?
  {
    assert QiTxsStmts(c, [], b.height) == Some([]) && EtxsStmts(c, [], b.height) == Some([]);
  }

  /** The first block a store adopts. */
  lemma {:induction false} FirstIngest(world: Universe, f: Decoding, maxDepth: nat, b: Block)
    requires ValidUniverse(world) && Lawful(f) && Served(world, b) && f(b).Some?
    ensures Inv(world, f, maxDepth, INITIAL) && Synced(INITIAL, maxDepth)
    ensures var s := Ingest(world, f, maxDepth, INITIAL, b, map[], Committed).0;
            s.book.chain == [b] && s.follower.tip == b.hash && s.follower.tipHeight == b.height
  {
    InitialIsInv(world, f, maxDepth);
    FirstBlockCommits(f, b);
    assert [] + [b] == [b];
    hide Inv, Synced, MoveWindow, Prune;
  }

  /** A block of the window that is not too old stays in it when a child of the tip comes. */
  lemma {:induction false} StaysInWindow(world: Universe, f: Decoding, maxDepth: nat, s: System, b: Block, h: Hash)
    requires ValidUniverse(world) && WindowKnown(world, s.follower.window)
    requires b.hash !in s.follower.window && b.parentHash == s.follower.tip && h != b.hash
    requires Commit(f, s.book, Update([], [b])).Some?
    requires h in s.follower.window && s.follower.window[h].height + maxDepth >= b.height
    ensures h in Ingest(world, f, maxDepth, s, b, map[], Committed).0.follower.window
  {
    hide Commit, WindowKnown, ValidUniverse;
    PutAllMeaning(s.follower.window, [b]);
    var none: set<Hash> := set rb <- Update([], [b]).rollback :: rb.hash;
    assert s.follower.window - none == s.follower.window;
  }

  /** The state after g and a: in sync, with both blocks in the window. */
  lemma {:induction false} Grown(c: Consensus) returns (s: System)
    ensures ValidUniverse(FORK) && Lawful(Decode(c)) && Inv(FORK, Decode(c), 1, INITIAL)
    ensures forall i | 0 <= i < |GROWN| :: ValidEvent(FORK, GROWN[i])
    ensures s == Run(FORK, Decode(c), 1, INITIAL, GROWN)
    ensures Inv(FORK, Decode(c), 1, s) && Synced(s, 1)
    ensures s.book.chain == [G, A] && s.follower.tipHeight == 2 && InWindow(s, 0)
  {
    var f := Decode(c);
    hide *;
    ForkWorld(c);
    FirstIngest(FORK, f, 1, G);
    GrownEvents();
    InvWindow(FORK, f, 1, INITIAL);
    StepKeepsInv(FORK, f, 1, INITIAL, GROWN[0]);
    var one := Step(FORK, f, 1, INITIAL, GROWN[0]);
    HeadIsIngested(FORK, f, 1, INITIAL, G);
    SecondIngest(f, one);
    StepKeepsInv(FORK, f, 1, one, GROWN[1]);
    s := Step(FORK, f, 1, one, GROWN[1]);
    HeadIsIngested(FORK, f, 1, one, A);
    TwoSteps(FORK, f, 1, INITIAL, GROWN);
  }

  lemma {:induction false} GrownEvents()
    ensures |GROWN| == 2 && GROWN[0] == Head(G, map[], Committed) && GROWN[1] == Head(A, map[], Committed)
    ensures ValidEvent(FORK, GROWN[0]) && ValidEvent(FORK, GROWN[1])
    ensures G.hash == Hash("g") && A.hash == Hash("a") && G.height == 1 && A.height == 2
    ensures A.parentHash == G.hash
  {
    NamesDiffer();
  }

  lemma {:induction false} HeadIsIngested(world: Universe, f: Decoding, maxDepth: nat, s: System, b: Block)
    requires ValidUniverse(world) && WindowKnown(world, s.follower.window)
    requires ValidEvent(world, Head(b, map[], Committed))
    ensures Step(world, f, maxDepth, s, Head(b, map[], Committed))
         == Ingest(world, f, maxDepth, s, b, map[], Committed).0
  {
    hide Ingest;
  }

  lemma {:induction false} TwoSteps(world: Universe, f: Decoding, maxDepth: nat, s: System, events: seq<Event>)
    requires ValidUniverse(world) && Lawful(f) && Inv(world, f, maxDepth, s) && |events| == 2
    requires ValidEvent(world, events[0]) && ValidEvent(world, events[1])
    ensures forall i | 0 <= i < |events| :: ValidEvent(world, events[i])
    ensures var one := Step(world, f, maxDepth, s, events[0]);
            && Inv(world, f, maxDepth, one)
            && Run(world, f, maxDepth, s, events) == Step(world, f, maxDepth, one, events[1])
  {
    StepKeepsInv(world, f, maxDepth, s, events[0]);
    hide Inv, Step;
    assert events[..1] == [events[0]] && events[..1][..0] == [];
    assert Run(world, f, maxDepth, s, events[..1]) == Step(world, f, maxDepth, s, events[0]);
  }

  lemma {:induction false} SecondIngest(f: Decoding, one: System)
    requires ValidUniverse(FORK) && Lawful(f) && Served(FORK, A) && f(A).Some? && G.hash != A.hash
    requires Inv(FORK, f, 1, one) && Synced(one, 1)
    requires one.book.chain == [G] && one.follower.tip == G.hash && one.follower.tipHeight == 1
    ensures WindowKnown(FORK, one.follower.window)
    ensures var s := Ingest(FORK, f, 1, one, A, map[], Committed).0;
            s.book.chain == [G, A] && s.follower.tipHeight == 2 && InWindow(s, 0)
  {
    InvWindow(FORK, f, 1, one);
    TipInWindow(FORK, f, 1, one);
    hide Ingest, Synced;
    PathIsAppended(FORK, f, 1, one, [A], map[]);
    PathHeight(FORK, one.follower, [A], 0);
    PathCommits(f, one.book, [A]);
    StaysInWindow(FORK, f, 1, one, A, G.hash);
    assert [G] + [A] == [G, A];
  }

  /** A fork is dropped although it is taller than the chain: with maxDepth 1, chain g, a
      and branch b, c from g, the walk from c is too deep, and c is not far enough above
      the tip for the fallback. */
  lemma {:induction false} TallerForkIsDropped(c: Consensus, reply: Reply)
    ensures ValidUniverse(FORK) && Lawful(Decode(c)) && Inv(FORK, Decode(c), 1, INITIAL)
    ensures forall i | 0 <= i < |GROWN| :: ValidEvent(FORK, GROWN[i])
    ensures var s := Run(FORK, Decode(c), 1, INITIAL, GROWN);
            && Synced(s, 1) && LeavesAt(FORK, s, 0, [B, C]) && InWindow(s, 0)
            && Ingest(FORK, Decode(c), 1, s, C, map[B.hash := B], reply) == (s, Some(TooDeep))
            && s.follower.tipHeight < C.height <= s.follower.tipHeight + 1
  {
    var s := Grown(c);
    ForkWorld(c);
    hide Decode, Inv, Synced, Ingest, Run, Lawful;
    ForkIsTooDeep(FORK, Decode(c), 1, s, 0, [B, C], map[B.hash := B], reply);
  }

  /** After a restart even a sibling of the tip is dropped: with maxDepth 1 the window
      holds the tip alone, and the branch point g is below it. */
  lemma {:induction false} SiblingIsDroppedAfterRestart(c: Consensus, fetch: map<Hash, Block>, reply: Reply)
    requires Answers(FORK, fetch)
    ensures ValidUniverse(FORK) && Lawful(Decode(c)) && Inv(FORK, Decode(c), 1, INITIAL)
    ensures forall i | 0 <= i < |GROWN| + 1 :: ValidEvent(FORK, (GROWN + [Restart])[i])
    ensures var s := Run(FORK, Decode(c), 1, INITIAL, GROWN + [Restart]);
            && Synced(s, 1) && LeavesAt(FORK, s, 0, [B]) && !InWindow(s, 0)
            && Ingest(FORK, Decode(c), 1, s, B, fetch, reply).0 == s
            && Ingest(FORK, Decode(c), 1, s, B, fetch, reply).1.Some?
            && B.height <= s.follower.tipHeight + 1
  {
    var s := Grown(c);
    ForkWorld(c);
    hide Decode, Inv, Synced, Ingest, Lawful;
    assert (GROWN + [Restart])[..|GROWN|] == GROWN;
    InvWindow(FORK, Decode(c), 1, s);
    var r := Step(FORK, Decode(c), 1, s, Restart);
    assert r == Run(FORK, Decode(c), 1, INITIAL, GROWN + [Restart]);
    StepKeepsInv(FORK, Decode(c), 1, s, Restart);
    RestartedDepth(FORK, Decode(c), 1, s, 0);
    RestartedTip(FORK, s);
    hide Run, Step, InWindow;
    assert LeavesAt(FORK, r, 0, [B]);
    BelowWindowFails(FORK, Decode(c), 1, r, 0, [B], fetch, reply);
  }

  lemma {:induction false} RestartedTip(world: Universe, s: System)
    requires ValidUniverse(world) && Canonical(world, s.book.chain)
    ensures Resume(s.book.chain, 1).tipHeight == TipHeight(s.book.chain)
  {
    RestartSyncs(world, 1, s.book.chain);
  }
}
