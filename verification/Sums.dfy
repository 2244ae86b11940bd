/** Sums over ranges and over keyed entries, and the exchange of the two orders of summation. */
module Sums {

  datatype Entry = Entry(key: nat, amount: int)

  /** The total of the entries with one key. */
  function SumAt(es: seq<Entry>, key: nat): int {
    if es == [] then 0
    else SumAt(es[..|es| - 1], key) + if es[|es| - 1].key == key then es[|es| - 1].amount else 0
  }

  /** The total of the entries whose keys are selected. */
  ghost function SumWhere(es: seq<Entry>, selected: nat -> bool): int {
    if es == [] then 0
    else SumWhere(es[..|es| - 1], selected) + if selected(es[|es| - 1].key) then es[|es| - 1].amount else 0
  }

  ghost function SumBelow(n: nat, f: nat -> int): int {
    if n == 0 then 0 else SumBelow(n - 1, f) + f(n - 1)
  }

  lemma SumAtAppend(es: seq<Entry>, e: Entry, key: nat)
    ensures SumAt(es + [e], key) == SumAt(es, key) + if e.key == key then e.amount else 0
  {
    assert (es + [e])[..|es|] == es;
  }

  lemma {:induction false} SumAtUnusedKey(es: seq<Entry>, key: nat)
    requires forall i :: 0 <= i < |es| ==> es[i].key != key
    ensures SumAt(es, key) == 0
  {
    if es != [] { SumAtUnusedKey(es[..|es| - 1], key); }
  }

  lemma {:induction false} SumBelowMonotone(n: nat, f: nat -> int, g: nat -> int)
    requires forall k: nat :: k < n ==> f(k) <= g(k)
    ensures SumBelow(n, f) <= SumBelow(n, g)
  {
    if n > 0 { SumBelowMonotone(n - 1, f, g); }
  }

  lemma {:induction false} SumBelowBump(n: nat, f: nat -> int, g: nat -> int, at: nat, bump: int)
    requires forall k: nat :: k < n ==> g(k) == f(k) + if k == at then bump else 0
    ensures SumBelow(n, g) == SumBelow(n, f) + if at < n then bump else 0
  {
    if n > 0 { SumBelowBump(n - 1, f, g, at, bump); }
  }

  ghost function PerKey(es: seq<Entry>, selected: nat -> bool): nat -> int {
    (k: nat) => if selected(k) then SumAt(es, k) else 0
  }

  /** Summing key by key, or entry by entry, gives the same total. */
  lemma {:induction false} SumByKeyOrByEntry(es: seq<Entry>, selected: nat -> bool, n: nat)
    requires forall i :: 0 <= i < |es| ==> es[i].key < n
    ensures SumBelow(n, PerKey(es, selected)) == SumWhere(es, selected)
  {
    if es == [] {
      var f := PerKey(es, selected);
      forall k: nat | k < n ensures f(k) == 0 { assert SumAt(es, k) == 0; }
      ZeroSum(n, f);
    } else {
      var front, e := es[..|es| - 1], es[|es| - 1];
      SumByKeyOrByEntry(front, selected, n);
      var f, g := PerKey(front, selected), PerKey(es, selected);
      var bump := if selected(e.key) then e.amount else 0;
      forall k: nat | k < n ensures g(k) == f(k) + if k == e.key then bump else 0 {
        assert SumAt(es, k) == SumAt(front, k) + if e.key == k then e.amount else 0;
      }
      SumBelowBump(n, f, g, e.key, bump);
    }
  }

  lemma {:induction false} ZeroSum(n: nat, f: nat -> int)
    requires forall k: nat :: k < n ==> f(k) == 0
    ensures SumBelow(n, f) == 0
  {
    if n > 0 { ZeroSum(n - 1, f); }
  }
}
