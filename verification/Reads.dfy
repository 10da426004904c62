/** The aggregating queries: balances and statistics, computed from grouped counts. */
module Reads {
  import opened Prelude
  import opened Denominations
  import opened Chain
  import opened QiDecode
  import opened Tables
  import opened Ledger
  import opened History

  type Rows = map<UtxoKey, Utxo>

  datatype State = Unspent | Spent | Trimmed

  /** Trimmed is looked at first. */
  function StateOf(u: Utxo): State {
    if u.trimmedBlock.Some? then Trimmed else if u.spentBlock.Some? then Spent else Unspent
  }

  /** Value dereferences the denomination table: nil outside 0 to 14. */
  function ValueOf(denomination: Byte): Option<nat> {
    if denomination < DENOMINATION_COUNT then Some(DENOMINATIONS[denomination]) else None
  }

  /** The value of the row under key k; 0 where there is none. */
  function Worth(t: Rows, k: UtxoKey): nat {
    if k in t && ValueOf(t[k].denomination).Some? then ValueOf(t[k].denomination).value else 0
  }

  /** The plain sum over rows. */
  ghost function SumWorth(t: Rows, keys: set<UtxoKey>): nat {
    if keys == {} then 0
    else
      var k :| k in keys;
      Worth(t, k) + SumWorth(t, keys - {k})
  }

  lemma {:induction false} SumPick(t: Rows, keys: set<UtxoKey>, k: UtxoKey)
    requires k in keys
    ensures SumWorth(t, keys) == Worth(t, k) + SumWorth(t, keys - {k})
    decreases keys
  {
    var j :| j in keys && SumWorth(t, keys) == Worth(t, j) + SumWorth(t, keys - {j});
    if j != k {
      SumPick(t, keys - {j}, k);
      SumPick(t, keys - {k}, j);
      assert keys - {j} - {k} == keys - {k} - {j};
    }
  }

  lemma {:induction false} SumUnion(t: Rows, a: set<UtxoKey>, b: set<UtxoKey>)
    requires a !! b
    ensures SumWorth(t, a + b) == SumWorth(t, a) + SumWorth(t, b)
    decreases a
  {
    if a == {} {
      assert a + b == b;
    } else {
      var k :| k in a;
      SumPick(t, a, k);
      SumPick(t, a + b, k);
      SumUnion(t, a - {k}, b);
      assert a + b - {k} == (a - {k}) + b;
    }
  }

  /** Rows of one denomination sum to the count times its value. */
  lemma {:induction false} SumConstant(t: Rows, keys: set<UtxoKey>, w: nat)
    requires forall k | k in keys :: Worth(t, k) == w
    ensures SumWorth(t, keys) == Times(|keys|, w)
    decreases keys
  {
    hide Worth;
    if keys != {} {
      var k :| k in keys;
      SumPick(t, keys, k);
      SumConstant(t, keys - {k}, w);
      assert |keys| == |keys - {k}| + 1;
    }
  }

  function OpenKeys(t: Rows): set<UtxoKey> {
    set k | k in t && Open(t[k])
  }

  function OpenOf(t: Rows, addr: Bytes): set<UtxoKey> {
    set k | k in t && t[k].address == addr && Open(t[k])
  }

  function TrimmedOf(t: Rows, addr: Bytes): set<UtxoKey> {
    set k | k in t && t[k].address == addr && t[k].trimmedBlock.Some?
  }

  predicate Spendable(lockHeight: nat, tipHeight: nat) { lockHeight == 0 || lockHeight <= tipHeight }

  function SpendableOf(t: Rows, addr: Bytes, tipHeight: nat): set<UtxoKey> {
    set k | k in t && t[k].address == addr && Open(t[k]) && Spendable(t[k].lockHeight, tipHeight)
  }

  function LockedOf(t: Rows, addr: Bytes, tipHeight: nat): set<UtxoKey> {
    set k | k in t && t[k].address == addr && Open(t[k]) && !Spendable(t[k].lockHeight, tipHeight)
  }

  datatype Balance = Balance(spendable: nat, locked: nat, trimmed: nat,
                             spendableCount: nat, lockedCount: nat, trimmedCount: nat)

  /** All these rows have a denomination the table knows. */
  ghost predicate Priced(t: Rows, keys: set<UtxoKey>) {
    forall k | k in keys :: k in t && ValueOf(t[k].denomination).Some?
  }

  // ---- Grouped aggregation ------------------------------------------------------------

  datatype Group = Group(denomination: Byte, lockHeight: nat)

  /** The unspent rows of a balance are grouped by denomination and lock height, the
      other queries group by denomination alone. */
  function GroupOf(u: Utxo, byLock: bool): Group { Group(u.denomination, if byLock then u.lockHeight else 0) }

  /** Keys whose row falls into one of the groups. */
  function InGroups(t: Rows, keys: set<UtxoKey>, groups: set<Group>, byLock: bool): set<UtxoKey> {
    set k | k in keys && k in t && GroupOf(t[k], byLock) in groups
  }

  function GroupsOf(t: Rows, keys: set<UtxoKey>, byLock: bool): set<Group> {
    set k | k in keys && k in t :: GroupOf(t[k], byLock)
  }

  function GroupCount(t: Rows, keys: set<UtxoKey>, groups: set<Group>, byLock: bool): nat {
    |InGroups(t, keys, groups, byLock)|
  }

  ghost function GroupWorth(t: Rows, keys: set<UtxoKey>, groups: set<Group>, byLock: bool): nat {
    SumWorth(t, InGroups(t, keys, groups, byLock))
  }

  lemma {:induction false} KeysInTable(t: Rows, addr: Bytes, tipHeight: nat)
    ensures OpenOf(t, addr) <= t.Keys && TrimmedOf(t, addr) <= t.Keys
    ensures SpendableOf(t, addr, tipHeight) <= t.Keys && LockedOf(t, addr, tipHeight) <= t.Keys
  {}

  /** One more group adds its count, and its count times its value. */
  lemma {:induction false} OneGroup(t: Rows, keys: set<UtxoKey>, seen: set<Group>, g: Group, byLock: bool)
    requires keys <= t.Keys && g !in seen
    ensures GroupCount(t, keys, seen + {g}, byLock)
         == GroupCount(t, keys, seen, byLock) + GroupCount(t, keys, {g}, byLock)
    ensures ValueOf(g.denomination).Some? ==>
              GroupWorth(t, keys, seen + {g}, byLock) ==
              GroupWorth(t, keys, seen, byLock) + Times(GroupCount(t, keys, {g}, byLock), ValueOf(g.denomination).value)
  {
    hide SumWorth, Times;
    var before, added := InGroups(t, keys, seen, byLock), InGroups(t, keys, {g}, byLock);
    assert InGroups(t, keys, seen + {g}, byLock) == before + added;
    assert before !! added;
    SumUnion(t, before, added);
    if ValueOf(g.denomination).Some? {
      SumConstant(t, added, ValueOf(g.denomination).value);
    }
  }

  lemma {:induction false} AllGroups(t: Rows, keys: set<UtxoKey>, byLock: bool)
    requires keys <= t.Keys
    ensures GroupCount(t, keys, GroupsOf(t, keys, byLock), byLock) == |keys|
    ensures GroupWorth(t, keys, GroupsOf(t, keys, byLock), byLock) == SumWorth(t, keys)
    ensures Priced(t, keys) <==> forall g | g in GroupsOf(t, keys, byLock) :: ValueOf(g.denomination).Some?
  {
    hide SumWorth;
    forall k | k in keys
      ensures k in InGroups(t, keys, GroupsOf(t, keys, byLock), byLock)
    {
      assert GroupOf(t[k], byLock) in GroupsOf(t, keys, byLock);
    }
    assert InGroups(t, keys, GroupsOf(t, keys, byLock), byLock) == keys;
  }

  lemma {:induction false} NoGroups(t: Rows, keys: set<UtxoKey>, byLock: bool)
    ensures GroupCount(t, keys, {}, byLock) == GroupWorth(t, keys, {}, byLock) == 0
  {
    assert InGroups(t, keys, {}, byLock) == {};
  }

  /** Adds up value and count group by group, in whatever order the groups come; None
      is the nil dereference on an unknown denomination. */
  method SumGroups(t: Rows, keys: set<UtxoKey>) returns (r: Option<(nat, nat)>)
    requires keys <= t.Keys
    ensures r.Some? <==> Priced(t, keys)
    ensures r.Some? ==> r.value == (SumWorth(t, keys), |keys|)
  {
    hide ValueOf, SumWorth, GroupCount, GroupWorth, GroupsOf, Times, Priced;
    AllGroups(t, keys, false);
    NoGroups(t, keys, false);
    var todo := GroupsOf(t, keys, false);
    ghost var seen: set<Group> := {};
    var total, count := 0, 0;
    while todo != {}
      invariant seen + todo == GroupsOf(t, keys, false) && seen !! todo
      invariant forall g | g in seen :: ValueOf(g.denomination).Some?
      invariant total == GroupWorth(t, keys, seen, false) && count == GroupCount(t, keys, seen, false)
      decreases todo
    {
      var g :| g in todo;
      assert g in GroupsOf(t, keys, false);
      OneGroup(t, keys, seen, g, false);
      var cnt := GroupCount(t, keys, {g}, false);
      if ValueOf(g.denomination).None? {
        return None;
      }
      total := total + Times(cnt, ValueOf(g.denomination).value);
      count := count + cnt;
      seen, todo := seen + {g}, todo - {g};
    }
    r := Some((total, count));
  }

  /** The balance of an address: each figure is the plain sum, or count, of its rows. It
      fails exactly when an open or trimmed row of the address has a denomination
      outside the table. */
  method GetAddressBalance(t: Rows, addr: Bytes, tipHeight: nat) returns (b: Option<Balance>)
    ensures b.Some? <==> Priced(t, OpenOf(t, addr)) && Priced(t, TrimmedOf(t, addr))
    ensures b.Some? ==>
              && b.value.spendable == SumWorth(t, SpendableOf(t, addr, tipHeight))
              && b.value.locked == SumWorth(t, LockedOf(t, addr, tipHeight))
              && b.value.trimmed == SumWorth(t, TrimmedOf(t, addr))
              && b.value.spendableCount == |SpendableOf(t, addr, tipHeight)|
              && b.value.lockedCount == |LockedOf(t, addr, tipHeight)|
              && b.value.trimmedCount == |TrimmedOf(t, addr)|
  {
    hide ValueOf, SumWorth, GroupCount, GroupWorth, GroupsOf, Times, Priced, OpenOf, SpendableOf, LockedOf, TrimmedOf;
    var keys := OpenOf(t, addr);
    ghost var spendable, locked := SpendableOf(t, addr, tipHeight), LockedOf(t, addr, tipHeight);
    KeysInTable(t, addr, tipHeight);
    AllGroups(t, keys, true);
    NoGroups(t, spendable, true);
    NoGroups(t, locked, true);
    var todo := GroupsOf(t, keys, true);
    ghost var seen: set<Group> := {};
    var s := Balance(0, 0, 0, 0, 0, 0);
    while todo != {}
      invariant seen + todo == GroupsOf(t, keys, true) && seen !! todo
      invariant forall g | g in seen :: ValueOf(g.denomination).Some?
      invariant s.spendable == GroupWorth(t, spendable, seen, true)
                && s.spendableCount == GroupCount(t, spendable, seen, true)
      invariant s.locked == GroupWorth(t, locked, seen, true) && s.lockedCount == GroupCount(t, locked, seen, true)
      invariant s.trimmed == s.trimmedCount == 0
      decreases todo
    {
      var g :| g in todo;
      assert g in GroupsOf(t, keys, true);
      GroupSplits(t, addr, tipHeight, seen, g);
      var cnt := GroupCount(t, keys, {g}, true);
      if ValueOf(g.denomination).None? {
        return None;
      }
      var val := Times(cnt, ValueOf(g.denomination).value);
      if g.lockHeight == 0 || g.lockHeight <= tipHeight {
        s := s.(spendable := s.spendable + val, spendableCount := s.spendableCount + cnt);
      } else {
        s := s.(locked := s.locked + val, lockedCount := s.lockedCount + cnt);
      }
      seen, todo := seen + {g}, todo - {g};
    }
    SplitsCover(t, addr, tipHeight);
    var trimmed := SumGroups(t, TrimmedOf(t, addr));
    if trimmed.None? {
      return None;
    }
    b := Some(s.(trimmed := trimmed.value.0, trimmedCount := trimmed.value.1));
  }

  /** A lock-height group lies wholly on the spendable or wholly on the locked side. */
  lemma {:induction false} GroupSplits(t: Rows, addr: Bytes, tipHeight: nat, seen: set<Group>, g: Group)
    requires g !in seen
    ensures var cnt := GroupCount(t, OpenOf(t, addr), {g}, true);
            var spendable, locked := SpendableOf(t, addr, tipHeight), LockedOf(t, addr, tipHeight);
            var here, there := if Spendable(g.lockHeight, tipHeight) then spendable else locked,
                               if Spendable(g.lockHeight, tipHeight) then locked else spendable;
            && GroupCount(t, there, seen + {g}, true) == GroupCount(t, there, seen, true)
            && GroupWorth(t, there, seen + {g}, true) == GroupWorth(t, there, seen, true)
            && GroupCount(t, here, seen + {g}, true) == GroupCount(t, here, seen, true) + cnt
            && (ValueOf(g.denomination).Some? ==>
                  GroupWorth(t, here, seen + {g}, true)
                    == GroupWorth(t, here, seen, true) + Times(cnt, ValueOf(g.denomination).value))
  {
    var spendable, locked := SpendableOf(t, addr, tipHeight), LockedOf(t, addr, tipHeight);
    KeysInTable(t, addr, tipHeight);
    if Spendable(g.lockHeight, tipHeight) {
      GroupOnOneSide(t, addr, spendable, locked, seen, g);
    } else {
      GroupOnOneSide(t, addr, locked, spendable, seen, g);
    }
  }

  lemma {:induction false} GroupOnOneSide(t: Rows, addr: Bytes, here: set<UtxoKey>, there: set<UtxoKey>,
                                          seen: set<Group>, g: Group)
    requires here <= t.Keys && there <= t.Keys && here + there == OpenOf(t, addr)
    requires forall k | k in there :: t[k].lockHeight != g.lockHeight
    requires g !in seen
    ensures GroupCount(t, there, seen + {g}, true) == GroupCount(t, there, seen, true)
    ensures GroupWorth(t, there, seen + {g}, true) == GroupWorth(t, there, seen, true)
    ensures GroupCount(t, here, {g}, true) == GroupCount(t, OpenOf(t, addr), {g}, true)
    ensures GroupCount(t, here, seen + {g}, true) == GroupCount(t, here, seen, true) + GroupCount(t, here, {g}, true)
    ensures ValueOf(g.denomination).Some? ==>
              GroupWorth(t, here, seen + {g}, true) ==
              GroupWorth(t, here, seen, true) + Times(GroupCount(t, here, {g}, true), ValueOf(g.denomination).value)
  {
    hide ValueOf, SumWorth, Times;
    OneGroup(t, here, seen, g, true);
    assert InGroups(t, there, seen + {g}, true) == InGroups(t, there, seen, true);
    assert InGroups(t, OpenOf(t, addr), {g}, true) == InGroups(t, here, {g}, true);
  }

  lemma {:induction false} SplitsCover(t: Rows, addr: Bytes, tipHeight: nat)
    ensures var groups := GroupsOf(t, OpenOf(t, addr), true);
            var spendable, locked := SpendableOf(t, addr, tipHeight), LockedOf(t, addr, tipHeight);
            && GroupCount(t, spendable, groups, true) == |spendable|
            && GroupWorth(t, spendable, groups, true) == SumWorth(t, spendable)
            && GroupCount(t, locked, groups, true) == |locked|
            && GroupWorth(t, locked, groups, true) == SumWorth(t, locked)
  {
    hide SumWorth;
    var groups := GroupsOf(t, OpenOf(t, addr), true);
    assert forall k | k in OpenOf(t, addr) :: GroupOf(t[k], true) in groups;
    assert InGroups(t, SpendableOf(t, addr, tipHeight), groups, true) == SpendableOf(t, addr, tipHeight);
    assert InGroups(t, LockedOf(t, addr, tipHeight), groups, true) == LockedOf(t, addr, tipHeight);
  }

  /** Spendable and locked together are the plain sum over the address's unspent rows,
      at any tip height. */
  lemma {:induction false} BalanceIsSumOfRows(t: Rows, addr: Bytes, tipHeight: nat)
    ensures SumWorth(t, SpendableOf(t, addr, tipHeight)) + SumWorth(t, LockedOf(t, addr, tipHeight))
         == SumWorth(t, OpenOf(t, addr))
    ensures |SpendableOf(t, addr, tipHeight)| + |LockedOf(t, addr, tipHeight)| == |OpenOf(t, addr)|
  {
    var a, b := SpendableOf(t, addr, tipHeight), LockedOf(t, addr, tipHeight);
    SumUnion(t, a, b);
    assert a + b == OpenOf(t, addr);
  }

  /** Raising the tip height moves value from locked to spendable, never back. */
  lemma {:induction false} RisingTipUnlocks(t: Rows, addr: Bytes, low: nat, high: nat)
    requires low <= high
    ensures SumWorth(t, SpendableOf(t, addr, low)) <= SumWorth(t, SpendableOf(t, addr, high))
    ensures SumWorth(t, SpendableOf(t, addr, high)) - SumWorth(t, SpendableOf(t, addr, low))
         == SumWorth(t, LockedOf(t, addr, low)) - SumWorth(t, LockedOf(t, addr, high))
  {
    BalanceIsSumOfRows(t, addr, low);
    BalanceIsSumOfRows(t, addr, high);
    var a, b := SpendableOf(t, addr, low), SpendableOf(t, addr, high);
    SumUnion(t, a, b - a);
    assert a + (b - a) == b;
  }

  // ---- Statistics -----------------------------------------------------------------------

  function SpentKeys(t: Rows): set<UtxoKey> { set k | k in t && t[k].spentBlock.Some? }

  function TrimmedKeys(t: Rows): set<UtxoKey> { set k | k in t && t[k].trimmedBlock.Some? }

  function AddressesOf(t: Rows): set<Bytes> { set k | k in t :: t[k].address }

  datatype Stats = Stats(tipHeight: nat, total: nat, unspent: nat, spent: nat, trimmed: nat, indexedFrom: nat,
                         indexedTo: nat, totalValue: nat)

  /** MIN and MAX of created_block, 0 on an empty table. */
  ghost predicate CreatedRange(t: Rows, low: nat, high: nat) {
    if t == map[] then low == high == 0
    else
      && (forall k | k in t :: low <= k.createdBlock <= high)
      && (exists k | k in t :: k.createdBlock == low)
      && (exists k | k in t :: k.createdBlock == high)
  }

  method CreatedBounds(t: Rows) returns (low: nat, high: nat)
    ensures CreatedRange(t, low, high)
  {
    low, high := 0, 0;
    if t != map[] {
      var keys := t.Keys;
      var k :| k in keys;
      low, high, keys := k.createdBlock, k.createdBlock, keys - {k};
      while keys != {}
        invariant keys <= t.Keys
        invariant forall j | j in t && j !in keys :: low <= j.createdBlock <= high
        invariant exists j | j in t :: j.createdBlock == low
        invariant exists j | j in t :: j.createdBlock == high
        decreases keys
      {
        var j :| j in keys;
        if j.createdBlock < low {
          low := j.createdBlock;
        }
        if j.createdBlock > high {
          high := j.createdBlock;
        }
        keys := keys - {j};
      }
    }
  }

  /** The statistics of a table in a store whose tip is `tip`; the tip height is 0 when
      there is none. */
  method GetStats(t: Rows, tip: Option<Block>) returns (s: Option<Stats>)
    ensures s.Some? <==> Priced(t, OpenKeys(t))
    ensures s.Some? ==>
              && s.value.tipHeight == (if tip.Some? then tip.value.height else 0)
              && s.value.total == |t.Keys|
              && s.value.unspent == |OpenKeys(t)|
              && s.value.spent == |SpentKeys(t)|
              && s.value.trimmed == |TrimmedKeys(t)|
              && CreatedRange(t, s.value.indexedFrom, s.value.indexedTo)
              && s.value.totalValue == SumWorth(t, OpenKeys(t))
  {
    var low, high := CreatedBounds(t);
    var value := SumGroups(t, OpenKeys(t));
    if value.None? {
      return None;
    }
    s := Some(Stats(if tip.Some? then tip.value.height else 0, |t.Keys|, |OpenKeys(t)|, |SpentKeys(t)|,
                    |TrimmedKeys(t)|, low, high, value.value.0));
  }

  /** The three counts add up to the total exactly when no row is both spent and trimmed. */
  lemma {:induction false} CountsAddUpIff(t: Rows)
    ensures |t.Keys| == |OpenKeys(t)| + |SpentKeys(t)| + |TrimmedKeys(t)|
       <==> forall k | k in t :: t[k].spentBlock.None? || t[k].trimmedBlock.None?
  {
    var open, spent, trimmed := OpenKeys(t), SpentKeys(t), TrimmedKeys(t);
    var both := spent * trimmed;
    assert t.Keys == open + (spent + trimmed);
    assert |spent + trimmed| == |spent| + |trimmed| - |both|;
    assert open !! spent + trimmed;
    if |both| == 0 {
      assert both == {};
    }
    forall k | k in t && t[k].spentBlock.Some? && t[k].trimmedBlock.Some?
      ensures k in both
    {}
  }

  /** In every replayed table they do, and each row's state is the one its columns say. */
  lemma {:induction false} CountsAddUpInReplays(f: Decoding, chain: seq<Block>)
    requires Lawful(f) && Consecutive(chain) && Replay(f, chain).Some?
    ensures var t := Replay(f, chain).value.utxos;
            && |t.Keys| == |OpenKeys(t)| + |SpentKeys(t)| + |TrimmedKeys(t)|
            && (forall k | k in t :: StateOf(t[k]).Spent? <==> t[k].spentBlock.Some?)
            && (forall k | k in t :: StateOf(t[k]).Unspent? <==> Open(t[k]))
  {
    var t := Replay(f, chain).value;
    if chain != [] {
      ReplayLifecycle(f, chain);
      forall k | k in t.utxos
        ensures t.utxos[k].spentBlock.None? || t.utxos[k].trimmedBlock.None?
      {
        assert RowLife(k, t.utxos[k], chain[0].height, TipHeight(chain), TipHeight(chain) + 1);
      }
    }
    CountsAddUpIff(t.utxos);
  }

  /** The sum of the unspent rows of several addresses, address by address. */
  ghost function SumOver(t: Rows, addrs: set<Bytes>): nat {
    if addrs == {} then 0
    else
      var a :| a in addrs;
      SumWorth(t, OpenOf(t, a)) + SumOver(t, addrs - {a})
  }

  lemma {:induction false} SumOverMeaning(t: Rows, addrs: set<Bytes>)
    ensures SumOver(t, addrs) == SumWorth(t, set k | k in t && t[k].address in addrs && Open(t[k]))
    decreases addrs
  {
    var keys := set k | k in t && t[k].address in addrs && Open(t[k]);
    if addrs == {} {
      assert keys == {};
    } else {
      var a :| a in addrs && SumOver(t, addrs) == SumWorth(t, OpenOf(t, a)) + SumOver(t, addrs - {a});
      SumOverMeaning(t, addrs - {a});
      var others := set k | k in t && t[k].address in addrs - {a} && Open(t[k]);
      SumUnion(t, OpenOf(t, a), others);
      assert OpenOf(t, a) + others == keys;
    }
  }

  /** The total value of the statistics is the sum of all addresses' spendable and
      locked balances. */
  lemma {:induction false} TotalValueIsSumOfBalances(t: Rows)
    ensures SumWorth(t, OpenKeys(t)) == SumOver(t, AddressesOf(t))
  {
    SumOverMeaning(t, AddressesOf(t));
    assert (set k | k in t && t[k].address in AddressesOf(t) && Open(t[k])) == OpenKeys(t);
  }

  // ---- Block events -----------------------------------------------------------------------

  datatype Events = Events(created: set<UtxoKey>, spent: set<UtxoKey>, trimmed: set<UtxoKey>)

  function GetBlockUTXOEvents(t: Rows, height: nat): Events {
    Events(set k | k in t && k.createdBlock == height,
           set k | k in t && t[k].spentBlock == Some(height),
           set k | k in t && t[k].trimmedBlock == Some(height))
  }

  /** The events of a height are exactly the rows its rollback removes or changes. */
  lemma {:induction false} EventsAreWhatRollbackTouches(t: Contents, height: nat, k: UtxoKey)
    requires k in t.utxos
    ensures var e := GetBlockUTXOEvents(t.utxos, height);
            var undone := Erase(t, iset{height}).utxos;
            && (k in e.created <==> k !in undone)
            && (k in e.created + e.spent + e.trimmed <==> k !in undone || undone[k] != t.utxos[k])
  {}
}
