/** The in-memory store and Postgres, side by side under the same updates. */
module StoreAgreement {
  import opened Prelude
  import opened Chain
  import opened Ledger
  import opened Stores
  import opened Decoder
  import opened MemoryStore
  import opened PostgresStore

  /** Postgres commits exactly the updates the in-memory store accepts and its decoder
      can decode. */
  lemma {:induction false} CommitIff(f: Decoding, book: Book, u: Update)
    requires Lawful(f)
    ensures Commit(f, book, u).Some? <==> Connects(TipHash(book.chain), u) && Decodable(f, u.apply)
    ensures Commit(f, book, u).Some? ==> Commit(f, book, u).value.chain == NextChain(book.chain, u)
  {
    DecodesIff(f, u.apply);
  }

  /** Fed the same update from equal chains, the stores accept alike, except for a block
      Postgres cannot decode; an acceptance by both leaves equal chains, tips and
      recent blocks, and a refusal leaves either store as it was. */
  method ApplyToBoth(ghost world: Universe, m: Memory, p: Postgres, u: Update, n: nat)
    returns (memoryFailed: bool, postgresFailed: bool, memoryRecent: seq<Block>, postgresRecent: seq<Block>)
    requires ValidUniverse(world) && m.Valid(world) && p.Valid(world) && UpdateFrom(world, u)
    requires m.chain == p.chain && n >= 1
    modifies m, p, p.session
    ensures m.Valid(world) && p.Valid(world)
    ensures memoryFailed <==> !Connects(TipHash(old(m.chain)), u)
    ensures postgresFailed <==> memoryFailed || !Decodable(Decode(p.rules), u.apply)
    ensures memoryFailed ==> m.chain == old(m.chain) && m.blocks == old(m.blocks) && m.tip == old(m.tip)
    ensures postgresFailed ==> p.Book() == old(p.Book()) && p.blocks == old(p.blocks) && p.tip == old(p.tip)
    ensures !postgresFailed ==>
              && m.chain == p.chain == NextChain(old(m.chain), u)
              && p.tip == Some(m.tip)
              && Spines(memoryRecent) == postgresRecent == Spines(Recent(m.chain, n))
  {
    DecodeIsLawful(p.rules);
    CommitIff(Decode(p.rules), p.Book(), u);
    memoryFailed := m.ApplyUpdate(world, u);
    postgresFailed := p.ApplyUpdate(world, u, Committed);
    memoryRecent := m.RecentBlocks(world, n);
    postgresRecent := p.RecentBlocks(world, n);
  }
}
