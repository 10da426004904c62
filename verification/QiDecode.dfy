/** Consensus-derived quantities: trim deadlines, lock heights, and the capped
    largest-first expansion of an ETX value into denominations. */
module QiDecode {
  import opened Prelude
  import opened Denominations

  const TX_TYPE_EXTERNAL := 1
  const TX_TYPE_QI := 2
  const ETX_TYPE_COINBASE := 1
  const ETX_TYPE_CONVERSION := 2

  const SOURCE_QI_TX := 0
  const SOURCE_COINBASE_ETX := 1
  const SOURCE_CONVERSION_ETX := 2

  const MAX_OUTPUT_INDEX := 65535

  /** Values in qits of denominations 0 to 14. */
  const DENOMINATIONS: seq<nat> :=
    [1, 5, 10, 50, 100, 500, 1000, 5000, 10000, 20000, 100000, 1000000, 10000000, 100000000, 1000000000]

  const DENOMINATION_COUNT := 15

  /** From this value on, the number of largest coins no longer fits a uint64. */
  const MAX_VALUE: nat := TWO_64 * 1000000000

  /** The node's consensus parameters and derivations, which the indexer calls
      and does not implement. */
  datatype ConsensusRules = ConsensusRules(
    txGas: nat,
    callValueTransferGas: nat,
    conversionLockPeriod: nat,
    lockupDepth: seq<nat>,
    trimDepths: map<Byte, nat>,
    coinbaseValue: (nat, nat, nat) -> nat,
    minDenominations: nat -> map<nat, U64>)

  function CoinsOf(denoms: map<nat, U64>, d: nat): U64 {
    if d in denoms then denoms[d] else 0
  }

  /** denoms takes as many of each of the n smallest denominations out of v as
      fit, largest first. */
  ghost predicate LargestFirst(table: seq<nat>, n: nat, v: nat, denoms: map<nat, U64>)
    requires n <= |table| && (forall i | 0 <= i < |table| :: table[i] > 0)
  {
    n == 0 || (&& CoinsOf(denoms, n - 1) == Quot(v, table[n - 1])
               && LargestFirst(table, n - 1, Rem(v, table[n - 1]), denoms))
  }

  predicate ValidRules(c: ConsensusRules) {
    && c.callValueTransferGas > 0
    && |c.lockupDepth| == 4
    && (forall i | 0 <= i < 4 :: c.lockupDepth[i] <= MAX_INT64)
    && c.conversionLockPeriod <= MAX_INT64
    && (forall d | d in c.trimDepths :: 0 < c.trimDepths[d] <= MAX_INT64)
  }

  const SAMPLE_RULES := ConsensusRules(1, 1, 1, [1, 1, 1, 1], map[], (v, b, h) => v,
                                       v => SampleDenominations(DENOMINATIONS, DENOMINATION_COUNT, v))

  type Consensus = c: ConsensusRules | ValidRules(c) witness SAMPLE_RULES

  /** The assumption on the node's decomposition of a value into coins: it is the exact
      largest-first one. */
  ghost predicate SplitsLargestFirst(c: ConsensusRules, value: nat) {
    LargestFirst(DENOMINATIONS, DENOMINATION_COUNT, value, c.minDenominations(value))
  }

  /** A decomposition that meets the assumption on minDenominations. */
  function SampleDenominations(table: seq<nat>, n: nat, v: nat): map<nat, U64>
    requires n <= |table| && (forall i | 0 <= i < |table| :: table[i] > 0)
  {
    if n == 0 then map[]
    else SampleDenominations(table, n - 1, Rem(v, table[n - 1]))[n - 1 := Uint64(Quot(v, table[n - 1]))]
  }

  lemma {:induction false} QuotAtMost(x: nat, d: nat)
    requires d > 0
    ensures Quot(x, d) <= x
  {
    if x >= d {
      QuotAtMost(x - d, d);
    }
  }

  lemma {:induction false} LargestFirstUnder(table: seq<nat>, n: nat, v: nat, denoms: map<nat, U64>, k: nat, count: U64)
    requires n <= k && n <= |table| && (forall i | 0 <= i < |table| :: table[i] > 0)
    requires LargestFirst(table, n, v, denoms)
    ensures LargestFirst(table, n, v, denoms[k := count])
  {
    if n > 0 {
      LargestFirstUnder(table, n - 1, Rem(v, table[n - 1]), denoms, k, count);
    }
  }

  lemma {:induction false} SampleIsLargestFirst(table: seq<nat>, n: nat, v: nat)
    requires n <= |table| && (forall i | 0 <= i < |table| :: 0 < table[i] <= MAX_INT64)
    requires v < TWO_64 || (n > 0 && Quot(v, table[n - 1]) < TWO_64)
    ensures LargestFirst(table, n, v, SampleDenominations(table, n, v))
  {
    if n > 0 {
      var d := table[n - 1];
      QuotAtMost(v, d);
      SampleIsLargestFirst(table, n - 1, Rem(v, d));
      LargestFirstUnder(table, n - 1, Rem(v, d), SampleDenominations(table, n - 1, Rem(v, d)), n - 1,
                        Uint64(Quot(v, d)));
    }
  }

  /** The assumption can be met exactly for values below 2^64 * 10^9 qits: from there on
      no map with uint64 counts is a largest-first decomposition. */
  lemma {:induction false} DecompositionExistsIff(value: nat)
    ensures SplitsLargestFirst(SAMPLE_RULES, value) <==> value < MAX_VALUE
    ensures value >= MAX_VALUE ==> forall c: ConsensusRules :: !SplitsLargestFirst(c, value)
  {
    var top := DENOMINATIONS[DENOMINATION_COUNT - 1];
    QuotRem(value, top);
    TimesIsProduct(Quot(value, top), top);
    if value < MAX_VALUE {
      SampleIsLargestFirst(DENOMINATIONS, DENOMINATION_COUNT, value);
    } else {
      assert Quot(value, top) >= TWO_64;
    }
  }

  /** 0 stands for a denomination that is never trimmed. */
  function TrimDeadline(c: Consensus, denomination: Byte, createdHeight: nat): nat {
    if denomination !in c.trimDepths then 0 else Uint64(createdHeight + c.trimDepths[denomination])
  }

  function MaxConversionOutputs(c: Consensus, gasLimit: nat): nat {
    if gasLimit < c.txGas then 0
    else Min((gasLimit - c.txGas) / c.callValueTransferGas, MAX_OUTPUT_INDEX)
  }

  /** The gas cap is the largest number of outputs, up to the largest output index, whose
      gas the limit pays for; a limit below the base cost pays for none. */
  lemma {:induction false} GasCapIsLargest(c: Consensus, gasLimit: nat, n: nat)
    requires n <= MAX_OUTPUT_INDEX
    ensures n <= MaxConversionOutputs(c, gasLimit) <==> n == 0 || c.txGas + n * c.callValueTransferGas <= gasLimit
  {
    var gas := c.callValueTransferGas;
    if gasLimit >= c.txGas {
      var rest := gasLimit - c.txGas;
      var q := rest / gas;
      DivisionBounds(rest, gas);
      if n <= q {
        MulMonotone(n, q, gas);
      } else {
        MulMonotone(q + 1, n, gas);
      }
    } else {
      MulMonotone(0, n, gas);
    }
  }

  lemma {:induction false} DivisionBounds(x: nat, d: nat)
    requires d > 0
    ensures (x / d) * d <= x < (x / d + 1) * d
  {
    assert x == (x / d) * d + x % d;
  }

  lemma {:induction false} MulMonotone(a: nat, b: nat, d: nat)
    requires a <= b
    ensures a * d <= b * d
  {}

  /** The most outputs an expansion may have; a gas limit of 0 means no gas cap. */
  function OutputCap(c: Consensus, gasLimit: nat): (cap: U64)
    ensures cap <= MAX_OUTPUT_INDEX + 1
    ensures cap == MAX_OUTPUT_INDEX + 1 <==> gasLimit == 0
  {
    if gasLimit > 0 then MaxConversionOutputs(c, gasLimit) else MAX_OUTPUT_INDEX + 1
  }

  /** A group of coins of one denomination. */
  datatype DerivedOutput = DerivedOutput(denomination: nat, count: nat, lockHeight: nat)

  /** The groups taken from denominations n-1 down to 0 once `total` coins are out. */
  function Expand(denoms: map<nat, U64>, lockHeight: nat, n: nat, total: U64, cap: U64): seq<DerivedOutput> {
    if n == 0 || total >= cap then []
    else
      var count := CoinsOf(denoms, n - 1);
      if count == 0 then Expand(denoms, lockHeight, n - 1, total, cap)
      else if AddUint64(total, count) > cap then [DerivedOutput(n - 1, cap - total, lockHeight)]
      else [DerivedOutput(n - 1, count, lockHeight)]
           + Expand(denoms, lockHeight, n - 1, AddUint64(total, count), cap)
  }

  function DerivedOutputs(c: Consensus, value: nat, lockHeight: nat, gasLimit: nat): seq<DerivedOutput> {
    Expand(c.minDenominations(value), lockHeight, DENOMINATION_COUNT, 0, OutputCap(c, gasLimit))
  }

  /** The loop over the denominations, from the largest to the smallest. */
  method DerivedOutputsCapped(c: Consensus, value: nat, lockHeight: nat, gasLimit: nat)
    returns (out: seq<DerivedOutput>)
    ensures out == DerivedOutputs(c, value, lockHeight, gasLimit)
  {
    var denoms := c.minDenominations(value);
    out := [];
    var maxOutputs: U64 := MAX_OUTPUT_INDEX + 1;
    if gasLimit > 0 {
      var capped := MaxConversionOutputs(c, gasLimit);
      if capped < maxOutputs {
        maxOutputs := capped;
      }
    }
    var total: U64 := 0;
    var d := DENOMINATION_COUNT - 1;
    ghost var rest := Expand(denoms, lockHeight, DENOMINATION_COUNT, 0, maxOutputs);
    while d >= 0
      invariant -1 <= d < DENOMINATION_COUNT
      invariant rest == Expand(denoms, lockHeight, d + 1, total, maxOutputs)
      invariant DerivedOutputs(c, value, lockHeight, gasLimit) == out + rest
      invariant total < maxOutputs || total == maxOutputs == 0
    {
      var count := CoinsOf(denoms, d);
      if count != 0 {
        if AddUint64(total, count) > maxOutputs {
          count := maxOutputs - total;
        }
        if count == 0 {
          break;
        }
        var group := DerivedOutput(d, count, lockHeight);
        ExpandNext(denoms, lockHeight, d + 1, total, maxOutputs);
        Regroup(out, group, rest);
        out, rest := out + [group], rest[1..];
        total := AddUint64(total, count);
        if total >= maxOutputs {
          break;
        }
      }
      d := d - 1;
    }
    assert rest == [];
  }

  /** The first group still to come, when the next denomination has coins. */
  lemma {:induction false} ExpandNext(denoms: map<nat, U64>, lockHeight: nat, n: nat, total: U64, cap: U64)
    requires n > 0 && total < cap <= MAX_OUTPUT_INDEX + 1 && CoinsOf(denoms, n - 1) > 0
    ensures
      var all := CoinsOf(denoms, n - 1);
      var count := if AddUint64(total, all) > cap then cap - total else all;
      var out := Expand(denoms, lockHeight, n, total, cap);
      && |out| > 0
      && out[0] == DerivedOutput(n - 1, count, lockHeight)
      && out[1..] == Expand(denoms, lockHeight, n - 1, AddUint64(total, count), cap)
  {}

  lemma {:induction false} Regroup<T>(a: seq<T>, x: T, b: seq<T>)
    requires |b| > 0 && b[0] == x
    ensures a + b == a + [x] + b[1..]
  {}

  function TotalCount(out: seq<DerivedOutput>): nat {
    if out == [] then 0 else out[0].count + TotalCount(out[1..])
  }

  ghost function TotalValue(table: seq<nat>, out: seq<DerivedOutput>): nat
    requires forall i | 0 <= i < |out| :: out[i].denomination < |table|
  {
    if out == [] then 0 else Times(out[0].count, table[out[0].denomination]) + TotalValue(table, out[1..])
  }

  // ---- What the expansion loop produces -------------------------------------

  ghost predicate StrictlyDescending(out: seq<DerivedOutput>) {
    forall i, j | 0 <= i < j < |out| :: out[i].denomination > out[j].denomination
  }

  lemma {:induction false} TableIsDivisorChain()
    ensures DivisorChain(DENOMINATIONS)
  {
    forall i | 0 < i < DENOMINATION_COUNT
      ensures Rem(DENOMINATIONS[i], DENOMINATIONS[i - 1]) == 0
    {
      var coin, next := DENOMINATIONS[i - 1], DENOMINATIONS[i];
      if next == 2 * coin {
        IsEuclidean(next, coin, 2, 0);
      } else if next == 5 * coin {
        IsEuclidean(next, coin, 5, 0);
      } else {
        IsEuclidean(next, coin, 10, 0);
      }
    }
  }

  lemma {:induction false} ExpandShape(denoms: map<nat, U64>, lockHeight: nat, n: nat, total: U64, cap: U64)
    ensures var out := Expand(denoms, lockHeight, n, total, cap);
            && (forall i | 0 <= i < |out| ::
                out[i].denomination < n && out[i].count > 0 && out[i].lockHeight == lockHeight)
            && StrictlyDescending(out)
  {
    if n > 0 && total < cap {
      var count := CoinsOf(denoms, n - 1);
      ExpandShape(denoms, lockHeight, n - 1, if count == 0 then total else AddUint64(total, count), cap);
    }
  }

  /** One step of the expansion when count coins of denomination n-1 fit. */
  lemma {:induction false} ExpandStep(table: seq<nat>, denoms: map<nat, U64>, lockHeight: nat, n: nat, total: U64,
                                      cap: U64)
    requires 0 < n <= |table| && total < cap <= MAX_OUTPUT_INDEX + 1
    requires 0 < CoinsOf(denoms, n - 1) <= MAX_INT64 || total == 0 < CoinsOf(denoms, n - 1)
    ensures var out := Expand(denoms, lockHeight, n, total, cap);
            var count := Min(CoinsOf(denoms, n - 1), cap - total);
            var rest := Expand(denoms, lockHeight, n - 1, total + count, cap);
            && out == [DerivedOutput(n - 1, count, lockHeight)] + rest
            && out[1..] == rest
  {}

  /** The totals of an expansion. `total + count` cannot overflow: only the largest
      denomination's count is unbounded, and it is added to a total of 0. */
  lemma {:induction false} ExpandTotals(table: seq<nat>, denoms: map<nat, U64>, lockHeight: nat, n: nat, v: nat,
                                        total: U64, cap: U64)
    requires n <= |table| && DivisorChain(table) && (forall i | 0 <= i < |table| :: table[i] <= MAX_INT64)
    requires LargestFirst(table, n, v, denoms)
    requires total <= cap <= MAX_OUTPUT_INDEX + 1
    requires total > 0 ==> v <= MAX_INT64
    ensures var out := Expand(denoms, lockHeight, n, total, cap);
            && (forall i | 0 <= i < |out| :: out[i].denomination < |table|)
            && TotalCount(out) == Min(cap - total, MinCoins(table, n, v))
            && TotalValue(table, out) == Best(table, n, v, cap - total)
  {
    ExpandShape(denoms, lockHeight, n, total, cap);
    if n == 0 || total >= cap {
      BestOfNothing(table, n, v);
    } else {
      var count, d := CoinsOf(denoms, n - 1), table[n - 1];
      var taken := Min(count, cap - total);
      QuotAtMost(v, d);
      ExpandTotals(table, denoms, lockHeight, n - 1, Rem(v, d), total + taken, cap);
      BestOfNothing(table, n - 1, Rem(v, d));
      if count > 0 {
        ExpandStep(table, denoms, lockHeight, n, total, cap);
      } else {
        assert Expand(denoms, lockHeight, n, total, cap) == Expand(denoms, lockHeight, n - 1, total, cap);
      }
      hide Expand, Quot, Rem, StrictlyDescending;
    }
  }

  /** The shape and the size of a capped expansion: distinct denominations from
      large to small, as many coins as the cap and the value allow, and the whole
      value exactly when the cap does not bite. */
  lemma {:induction false} CappedExpansion(c: Consensus, value: nat, lockHeight: nat, gasLimit: nat)
    requires SplitsLargestFirst(c, value)
    ensures DivisorChain(DENOMINATIONS)
    ensures var out := DerivedOutputs(c, value, lockHeight, gasLimit);
            var cap := OutputCap(c, gasLimit);
            var uncapped := MinCoins(DENOMINATIONS, DENOMINATION_COUNT, value);
            && StrictlyDescending(out)
            && (forall i | 0 <= i < |out| ::
                  out[i].denomination < DENOMINATION_COUNT && out[i].count > 0 && out[i].lockHeight == lockHeight)
            && TotalCount(out) == Min(cap, uncapped)
            && TotalValue(DENOMINATIONS, out) == Best(DENOMINATIONS, DENOMINATION_COUNT, value, cap) <= value
            && (TotalValue(DENOMINATIONS, out) == value <==> uncapped <= cap)
  {
    TableIsDivisorChain();
    var cap := OutputCap(c, gasLimit);
    ExpandShape(c.minDenominations(value), lockHeight, DENOMINATION_COUNT, 0, cap);
    ExpandTotals(DENOMINATIONS, c.minDenominations(value), lockHeight, DENOMINATION_COUNT, value, 0, cap);
    BestIsExact(DENOMINATIONS, DENOMINATION_COUNT, value, cap);
  }

  /** No choice of at most cap coins worth at most the value is worth more than
      the capped expansion. */
  lemma {:induction false} CappedExpansionIsOptimal(c: Consensus, value: nat, lockHeight: nat, gasLimit: nat,
                                                    coins: seq<nat>)
    requires SplitsLargestFirst(c, value) && |coins| == DENOMINATION_COUNT
    requires CoinCount(coins, DENOMINATION_COUNT) <= OutputCap(c, gasLimit)
    requires CoinValue(DENOMINATIONS, coins, DENOMINATION_COUNT) <= value
    ensures var out := DerivedOutputs(c, value, lockHeight, gasLimit);
            && TotalCount(out) <= OutputCap(c, gasLimit)
            && (forall i | 0 <= i < |out| :: out[i].denomination < DENOMINATION_COUNT)
            && CoinValue(DENOMINATIONS, coins, DENOMINATION_COUNT) <= TotalValue(DENOMINATIONS, out) <= value
  {
    CappedExpansion(c, value, lockHeight, gasLimit);
    LargestFirstIsMinimal(DENOMINATIONS, coins, DENOMINATION_COUNT);
    var x := CoinValue(DENOMINATIONS, coins, DENOMINATION_COUNT);
    BestIsLargest(DENOMINATIONS, DENOMINATION_COUNT, x, value, OutputCap(c, gasLimit));
  }

  /** A stored deadline is the true one: the addition cannot wrap for a height
      the table accepts, and 0 is left for denominations that are never trimmed. */
  lemma {:induction false} DeadlineIsLater(c: Consensus, denomination: Byte, createdHeight: nat)
    requires createdHeight <= MAX_INT64
    ensures denomination in c.trimDepths <==> TrimDeadline(c, denomination, createdHeight) != 0
    ensures denomination in c.trimDepths ==>
              TrimDeadline(c, denomination, createdHeight) == createdHeight + c.trimDepths[denomination] > createdHeight
  {}
}
