/** The reorg state machine on values: what one Ingest, and one restart, does to the
    store and to the follower's window. */
module FollowerSpec {
  import opened Prelude
  import opened Chain
  import opened Ledger
  import opened Stores
  import opened PostgresStore

  datatype FollowerState = FollowerState(window: map<Hash, Block>, tip: Hash, tipHeight: nat)

  datatype IngestError = TooDeep | FetchFailed | WindowBroken | StoreFailed

  /** What Ingest decides before it calls the store. */
  datatype Plan = Duplicate | Fail(error: IngestError) | Propose(update: Update)

  /** What the node answers is what it serves. */
  ghost predicate Answers(world: Universe, fetch: map<Hash, Block>) {
    forall h | h in fetch :: h in world && fetch[h] == world[h]
  }

  /** fetch is what BlockByHash answers during the call. The branch grows downwards
      until its parent is in the window. */
  function WalkToKnown(window: map<Hash, Block>, maxDepth: nat, fetch: map<Hash, Block>, branch: seq<Block>,
                       parent: Hash)
    : Result<(seq<Block>, Hash), IngestError>
    decreases maxDepth - |branch|
  {
    if parent in window then Ok((branch, parent))
    else if |branch| >= maxDepth then Err(TooDeep)
    else if parent !in fetch then Err(FetchFailed)
    else WalkToKnown(window, maxDepth, fetch, [fetch[parent]] + branch, fetch[parent].parentHash)
  }

  /** Window blocks are filed under their hash and known to the node. */
  ghost predicate WindowKnown(world: Universe, window: map<Hash, Block>) {
    forall h | h in window :: window[h].hash == h && Known(world, window[h])
  }

  /** Collects the window's blocks from cur down to, not including, the ancestor;
      None when the window has a gap on the way. */
  ghost function RollbackFrom(world: Universe, window: map<Hash, Block>, cur: Hash, ancestor: Hash): Option<seq<Block>>
    requires ValidUniverse(world) && WindowKnown(world, window)
    decreases if cur in window then window[cur].height + 1 else 0
  {
    if cur == ancestor then Some([])
    else if cur !in window then None
    else
      assert Known(world, window[cur]);
      var rest :- RollbackFrom(world, window, window[cur].parentHash, ancestor);
      Some([window[cur]] + rest)
  }

  ghost function PlanFor(world: Universe, f: FollowerState, maxDepth: nat, b: Block, fetch: map<Hash, Block>): Plan
    requires ValidUniverse(world) && WindowKnown(world, f.window)
  {
    if b.hash in f.window then Duplicate
    else if f.tip == NO_HASH || b.parentHash == f.tip then Propose(Update([], [b]))
    else
      match WalkToKnown(f.window, maxDepth, fetch, [b], b.parentHash)
      case Err(e) => Fail(e)
      case Ok((branch, ancestor)) =>
        match RollbackFrom(world, f.window, f.tip, ancestor)
        case None => Fail(WindowBroken)
        case Some(rollback) => Propose(Update(rollback, branch))
  }

  function PutAll(window: map<Hash, Block>, blocks: seq<Block>): map<Hash, Block> {
    if blocks == [] then window
    else PutAll(window, blocks[..|blocks| - 1])[blocks[|blocks| - 1].hash := blocks[|blocks| - 1]]
  }

  function Prune(window: map<Hash, Block>, tipHeight: nat, maxDepth: nat): map<Hash, Block> {
    if tipHeight < maxDepth then window
    else map h | h in window && window[h].height >= tipHeight - maxDepth :: window[h]
  }

  function MoveWindow(window: map<Hash, Block>, u: Update): map<Hash, Block> {
    PutAll(window - (set rb <- u.rollback :: rb.hash), u.apply)
  }

  function Advance(f: FollowerState, maxDepth: nat, u: Update, b: Block): FollowerState {
    FollowerState(Prune(MoveWindow(f.window, u), b.height, maxDepth), b.hash, b.height)
  }

  /** Store and follower together. */
  datatype System = System(book: Book, follower: FollowerState)

  ghost function Ingest(world: Universe, f: Decoding, maxDepth: nat, s: System, b: Block, fetch: map<Hash, Block>,
                        reply: Reply)
    : (System, Option<IngestError>)
    requires ValidUniverse(world) && WindowKnown(world, s.follower.window)
  {
    match PlanFor(world, s.follower, maxDepth, b, fetch)
    case Duplicate => (s, None)
    case Fail(e) => (s, Some(e))
    case Propose(u) =>
      var next := Commit(f, s.book, u);
      if next.None? || reply.Aborted? then (s, Some(StoreFailed))
      else if reply.Lost? then (s.(book := next.value), Some(StoreFailed))
      else (System(next.value, Advance(s.follower, maxDepth, u, b)), None)
  }

  /** New: the window of a follower built from what the store holds. */
  function Resume(chain: seq<Block>, maxDepth: nat): FollowerState {
    var recent := Spines(Recent(chain, if maxDepth < 1 then 1 else maxDepth));
    if recent == [] then FollowerState(map[], NO_HASH, 0)
    else FollowerState(PutAll(map[], recent), recent[0].hash, recent[0].height)
  }
}
