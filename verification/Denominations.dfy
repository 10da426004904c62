/** Paying a value with coins of a divisor chain: each coin divides the next
    larger one and the smallest is worth 1. Paying largest coin first is then
    optimal, also when the payment must stop after a given number of coins. */
module Denominations {
  // Multiplication and division by repeated addition and subtraction. They are
  // the usual operations (TimesIsProduct, IsEuclidean), kept in a form whose proofs
  // stay linear.

  function Times(k: nat, d: nat): nat {
    if k == 0 then 0 else d + Times(k - 1, d)
  }

  function Quot(x: nat, d: nat): nat
    requires d > 0
  {
    if x < d then 0 else 1 + Quot(x - d, d)
  }

  function Rem(x: nat, d: nat): (r: nat)
    requires d > 0
    ensures r < d
  {
    if x < d then x else Rem(x - d, d)
  }

  lemma {:induction false} TimesIsProduct(k: nat, d: nat)
    ensures Times(k, d) == k * d
  {
    if k > 0 {
      TimesIsProduct(k - 1, d);
    }
  }

  lemma {:induction false} QuotRem(x: nat, d: nat)
    requires d > 0
    ensures x == Times(Quot(x, d), d) + Rem(x, d)
  {
    if x >= d {
      QuotRem(x - d, d);
    }
  }

  /** A quotient and remainder are determined by their defining equation. */
  lemma {:induction false} QuotUnique(k: nat, d: nat, r: nat)
    requires r < d
    ensures Quot(Times(k, d) + r, d) == k && Rem(Times(k, d) + r, d) == r
  {
    if k > 0 {
      QuotUnique(k - 1, d, r);
    }
  }

  /** Quot and Rem are Euclidean division: they meet its defining equation. */
  lemma {:induction false} IsEuclidean(x: nat, d: nat, q: nat, r: nat)
    requires d > 0
    ensures x == q * d + r && r < d <==> q == Quot(x, d) && r == Rem(x, d)
  {
    TimesIsProduct(q, d);
    QuotRem(x, d);
    if r < d {
      QuotUnique(q, d, r);
    }
  }

  lemma {:induction false} TimesAdd(a: nat, b: nat, d: nat)
    ensures Times(a + b, d) == Times(a, d) + Times(b, d)
  {
    if a > 0 {
      TimesAdd(a - 1, b, d);
    }
  }

  lemma {:induction false} TimesAssoc(a: nat, r: nat, d: nat)
    ensures Times(a, Times(r, d)) == Times(Times(a, r), d)
  {
    if a > 0 {
      TimesAssoc(a - 1, r, d);
      TimesAdd(r, Times(a - 1, r), d);
    }
  }

  lemma {:induction false} TimesAtLeast(a: nat, r: nat)
    requires r > 0
    ensures Times(a, r) >= a
  {
    if a > 0 {
      TimesAtLeast(a - 1, r);
    }
  }

  lemma {:induction false} TimesMonotone(a: nat, b: nat, d: nat)
    requires a <= b
    ensures Times(a, d) <= Times(b, d)
    ensures a < b ==> Times(a, d) + d <= Times(b, d)
  {
    if b > a {
      TimesMonotone(a, b - 1, d);
    }
  }

  /** A smaller quotient leaves the value below the next multiple. */
  lemma {:induction false} BelowMultiple(x: nat, d: nat, k: nat)
    requires d > 0 && Quot(x, d) < k
    ensures x < Times(k, d)
  {
    QuotRem(x, d);
    TimesMonotone(Quot(x, d), k, d);
  }

  /** Dividing by a multiple of d first and by d after is dividing by d at once. */
  lemma {:induction false} DivideThrough(w: nat, d: nat, big: nat)
    requires d > 0 && big > 0 && Rem(big, d) == 0
    ensures Quot(w, d) >= Quot(w, big) + Quot(Rem(w, big), d)
    ensures Rem(w, d) == Rem(Rem(w, big), d)
  {
    var r, a, b := Quot(big, d), Quot(w, big), Rem(w, big);
    QuotRem(w, big);
    QuotRem(b, d);
    QuotRem(big, d);
    TimesAssoc(a, r, d);
    TimesAdd(Times(a, r), Quot(b, d), d);
    QuotUnique(Times(a, r) + Quot(b, d), d, Rem(b, d));
    TimesAtLeast(a, r);
  }

  // ---- Payments ----------------------------------------------------------------

  ghost predicate DivisorChain(table: seq<nat>) {
    && (|table| > 0 ==> table[0] == 1)
    && (forall i | 0 <= i < |table| :: table[i] > 0)
    && (forall i | 0 < i < |table| :: Rem(table[i], table[i - 1]) == 0)
  }

  /** The number of coins of a largest-first payment of v in the n smallest coins. */
  ghost function MinCoins(table: seq<nat>, n: nat, v: nat): nat
    requires DivisorChain(table) && n <= |table|
  {
    if n == 0 then 0
    else Quot(v, table[n - 1]) + MinCoins(table, n - 1, Rem(v, table[n - 1]))
  }

  /** The value reached when a largest-first payment of v stops after cap coins. */
  ghost function Best(table: seq<nat>, n: nat, v: nat, cap: nat): nat
    requires DivisorChain(table) && n <= |table|
  {
    if n == 0 then 0
    else
      var d := table[n - 1];
      var q := Quot(v, d);
      if cap <= q then Times(cap, d) else Times(q, d) + Best(table, n - 1, Rem(v, d), cap - q)
  }

  /** Sums over an arbitrary choice of coins, coins[i] of table[i]. */
  ghost function CoinCount(coins: seq<nat>, n: nat): nat
    requires n <= |coins|
  {
    if n == 0 then 0 else coins[n - 1] + CoinCount(coins, n - 1)
  }

  ghost function CoinValue(table: seq<nat>, coins: seq<nat>, n: nat): nat
    requires n <= |coins| && n <= |table|
  {
    if n == 0 then 0 else Times(coins[n - 1], table[n - 1]) + CoinValue(table, coins, n - 1)
  }

  /** Changing small coins into the next larger one never needs more coins. */
  lemma {:induction false} CarryUp(table: seq<nat>, n: nat, w: nat)
    requires DivisorChain(table) && 0 < n < |table|
    ensures Quot(w, table[n]) + MinCoins(table, n, Rem(w, table[n])) <= MinCoins(table, n, w)
  {
    DivideThrough(w, table[n - 1], table[n]);
  }

  /** No choice of coins is smaller than the largest-first one of the same value. */
  lemma {:induction false} LargestFirstIsMinimal(table: seq<nat>, coins: seq<nat>, n: nat)
    requires DivisorChain(table) && n <= |coins| && n <= |table|
    ensures MinCoins(table, n, CoinValue(table, coins, n)) <= CoinCount(coins, n)
  {
    if n > 0 {
      LargestFirstIsMinimal(table, coins, n - 1);
      var d := table[n - 1];
      var w := CoinValue(table, coins, n - 1);
      QuotRem(w, d);
      TimesAdd(coins[n - 1], Quot(w, d), d);
      QuotUnique(coins[n - 1] + Quot(w, d), d, Rem(w, d));
      if n > 1 {
        CarryUp(table, n - 1, w);
      }
    }
  }

  lemma {:induction false} NoCoinsForZero(table: seq<nat>, n: nat)
    requires DivisorChain(table) && n <= |table|
    ensures MinCoins(table, n, 0) == 0
  {
    if n > 0 {
      NoCoinsForZero(table, n - 1);
    }
  }

  lemma {:induction false} BestOfNothing(table: seq<nat>, n: nat, v: nat)
    requires DivisorChain(table) && n <= |table|
    ensures Best(table, n, v, 0) == 0
  {}

  /** Only 0 is paid with no coin at all. */
  lemma {:induction false} PaidInFull(table: seq<nat>, n: nat, x: nat)
    requires DivisorChain(table) && n < |table| && x < table[n]
    requires MinCoins(table, n, x) == 0
    ensures x == 0
  {
    if n > 0 {
      QuotRem(x, table[n - 1]);
      PaidInFull(table, n - 1, Rem(x, table[n - 1]));
    }
  }

  /** Of all values up to v payable with cap coins, Best is the largest. */
  lemma {:induction false} BestIsLargest(table: seq<nat>, n: nat, x: nat, v: nat, cap: nat)
    requires DivisorChain(table) && n <= |table| && (n == 0 ==> x == 0)
    requires x <= v && MinCoins(table, n, x) <= cap
    ensures x <= Best(table, n, v, cap)
  {
    if n > 0 {
      var d := table[n - 1];
      var xq, vq := Quot(x, d), Quot(v, d);
      QuotRem(x, d);
      QuotRem(v, d);
      if xq > vq {
        BelowMultiple(v, d, xq);
      } else if vq < cap {
        if xq < vq {
          BelowMultiple(x, d, vq);
        } else {
          BestIsLargest(table, n - 1, Rem(x, d), Rem(v, d), cap - vq);
        }
      } else if xq < cap {
        BelowMultiple(x, d, cap);
      } else {
        PaidInFull(table, n - 1, Rem(x, d));
      }
    }
  }

  /** Best never exceeds v, and reaches it exactly when cap coins suffice. */
  lemma {:induction false} BestIsExact(table: seq<nat>, n: nat, v: nat, cap: nat)
    requires DivisorChain(table) && n <= |table| && (n == 0 ==> v == 0)
    ensures Best(table, n, v, cap) <= v
    ensures Best(table, n, v, cap) == v <==> MinCoins(table, n, v) <= cap
  {
    if n > 0 {
      var d := table[n - 1];
      var q := Quot(v, d);
      QuotRem(v, d);
      if cap < q {
        TimesMonotone(cap, q, d);
      } else if cap == q {
        if MinCoins(table, n, v) <= cap {
          PaidInFull(table, n - 1, Rem(v, d));
        }
        NoCoinsForZero(table, n - 1);
      } else {
        BestIsExact(table, n - 1, Rem(v, d), cap - q);
      }
    }
  }
}
