/** The balance storage of the ledger as a map in which a missing key reads
    as zero, the two ways the contract writes an entry (overwrite with the
    old value minus an amount, add an amount to the old value), and the sum
    of all balances, which the ledger keeps equal to the total supply. */
module Balances {

  import opened Address

  /** The value stored for `a`, or 0 when nothing is stored: a storage slot
      that was never written reads as the default `BigUint` zero. */
  function Get(m: map<Addr, nat>, a: Addr): (r: nat)
    ensures a in m ==> r == m[a]
    ensures a !in m ==> r == 0
  {
    if a in m then m[a] else 0
  }

  /** The sum of every stored balance. Keys are taken in an arbitrary order,
      which SumRemove shows does not matter. */
  ghost function Sum(m: map<Addr, nat>): nat
    decreases |m|
  {
    if m == map[] then 0
    else
      var k :| k in m;
      m[k] + Sum(m - {k})
  }

  /** Any stored entry can be split off the sum. */
  lemma {:induction false} SumRemove(m: map<Addr, nat>, k: Addr)
    requires k in m
    ensures Sum(m) == m[k] + Sum(m - {k})
    decreases |m|
  {
    var j :| j in m && Sum(m) == m[j] + Sum(m - {j});
    if j != k {
      SumRemove(m - {j}, k);
      SumRemove(m - {k}, j);
      assert m - {j} - {k} == m - {k} - {j};
    }
  }

  /** Writing `v` at `k` changes the sum by `v` minus what `k` held. */
  lemma SumUpdate(m: map<Addr, nat>, k: Addr, v: nat)
    ensures Sum(m[k := v]) + Get(m, k) == Sum(m) + v
  {
    SumRemove(m[k := v], k);
    if k in m {
      SumRemove(m, k);
      assert m[k := v] - {k} == m - {k};
    } else {
      assert m[k := v] - {k} == m;
    }
  }

  /** No single balance exceeds the sum of all balances. */
  lemma BalanceAtMostSum(m: map<Addr, nat>, k: Addr)
    ensures Get(m, k) <= Sum(m)
  {
  }

  /** A map whose every entry reads as zero sums to zero. */
  lemma {:induction false} SumAllZero(m: map<Addr, nat>)
    requires forall a :: Get(m, a) == 0
    ensures Sum(m) == 0
    decreases |m|
  {
    if m != map[] {
      var k :| k in m;
      assert m[k] == Get(m, k) == 0;
      SumRemove(m, k);
      var rest := m - {k};
      forall a ensures Get(rest, a) == 0 {
        assert Get(rest, a) == (if a == k then 0 else Get(m, a));
      }
      SumAllZero(rest);
    }
  }

  /** When only `k` may hold a non-zero balance, the sum is that balance. */
  lemma SumSingleHolder(m: map<Addr, nat>, k: Addr)
    requires forall a :: a != k ==> Get(m, a) == 0
    ensures Sum(m) == Get(m, k)
  {
    if k in m {
      SumRemove(m, k);
      var rest := m - {k};
      forall a ensures Get(rest, a) == 0 {
        assert Get(rest, a) == (if a == k then 0 else Get(m, a));
      }
      SumAllZero(rest);
    } else {
      assert forall a :: Get(m, a) == 0;
      SumAllZero(m);
    }
  }

  /** Models `balance(a).update(|b| *b += x)`: add `x` to what `a` holds.
      Only `a`'s entry changes and the sum grows by exactly `x`. */
  function Credit(m: map<Addr, nat>, a: Addr, x: nat): (r: map<Addr, nat>)
    ensures Get(r, a) == Get(m, a) + x
    ensures forall b :: b != a ==> Get(r, b) == Get(m, b)
    ensures Sum(r) == Sum(m) + x
  {
    SumUpdate(m, a, Get(m, a) + x);
    m[a := Get(m, a) + x]
  }

  /** Models `balance(a).set(&(balance - x))` after the caller has checked
      that `a` holds at least `x`. Only `a`'s entry changes and the sum
      shrinks by exactly `x`. */
  function Debit(m: map<Addr, nat>, a: Addr, x: nat): (r: map<Addr, nat>)
    requires x <= Get(m, a)
    ensures Get(r, a) == Get(m, a) - x
    ensures forall b :: b != a ==> Get(r, b) == Get(m, b)
    ensures Sum(r) + x == Sum(m)
  {
    SumUpdate(m, a, Get(m, a) - x);
    m[a := Get(m, a) - x]
  }

  /** Debiting and then crediting the same entry by the same positive amount
      gives back the very same map, not just the same readings: a positive
      debit needs a stored entry, which the credit then restores. */
  lemma DebitThenCreditSame(m: map<Addr, nat>, a: Addr, x: nat)
    requires 0 < x <= Get(m, a)
    ensures Credit(Debit(m, a, x), a, x) == m
  {
  }
}
