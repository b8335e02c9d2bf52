/**
 * Sums over the values of a map whose iteration order is unspecified:
 * the sum is defined by visiting the keys in an arbitrary order, and the
 * lemmas here show that the order does not matter.
 */
module Sums {

  /** An arbitrary but fixed member of a non-empty set of keys. */
  ghost function Pick(s: set<string>): (c: string)
    requires s != {}
    ensures c in s
  {
    var c :| c in s; c
  }

  /** The sum of the values of `m` at `keys`. */
  ghost function SumOver(m: map<string, int>, keys: set<string>): int
    requires keys <= m.Keys
    decreases keys
  {
    if keys == {} then 0
    else
      var c := Pick(keys);
      m[c] + SumOver(m, keys - {c})
  }

  /** The sum does not depend on the order in which keys are visited. */
  lemma {:induction false} SumOverRemove(m: map<string, int>, keys: set<string>, c: string)
    requires keys <= m.Keys && c in keys
    ensures SumOver(m, keys) == m[c] + SumOver(m, keys - {c})
    decreases keys
  {
    var p := Pick(keys);
    if p != c {
      SumOverRemove(m, keys - {p}, c);
      SumOverRemove(m, keys - {c}, p);
      assert keys - {p} - {c} == keys - {c} - {p};
    }
  }

  lemma {:induction false} SumOverNonNegative(m: map<string, int>, keys: set<string>)
    requires keys <= m.Keys
    requires forall c :: c in m ==> m[c] >= 0
    ensures SumOver(m, keys) >= 0
    decreases keys
  {
    if keys != {} {
      SumOverNonNegative(m, keys - {Pick(keys)});
    }
  }

  /** Sums over the same keys agree when the maps agree on them. */
  lemma {:induction false} SumOverSameValues(a: map<string, int>, b: map<string, int>, keys: set<string>)
    requires keys <= a.Keys && keys <= b.Keys
    requires forall c :: c in keys ==> a[c] == b[c]
    ensures SumOver(a, keys) == SumOver(b, keys)
    decreases keys
  {
    if keys != {} {
      SumOverSameValues(a, b, keys - {Pick(keys)});
    }
  }

  /** The sum of all values of `m`. */
  ghost function Total(m: map<string, int>): int {
    SumOver(m, m.Keys)
  }

  /** Storing `amount` for `c` moves the total by the difference with the old value (0 if none). */
  lemma TotalAfterStore(m: map<string, int>, c: string, amount: int)
    ensures Total(m[c := amount]) == Total(m) - (if c in m then m[c] else 0) + amount
  {
    var stored := m[c := amount];
    SumOverRemove(stored, stored.Keys, c);
    var rest := m.Keys - {c};
    assert stored.Keys - {c} == rest;
    SumOverSameValues(stored, m, rest);
    if c in m {
      SumOverRemove(m, m.Keys, c);
    } else {
      assert m.Keys == rest;
    }
  }

  /** The sum of the values of `m` at the keys of `order`, front to back. */
  ghost function SumAlong(m: map<string, int>, order: seq<string>): int
    requires forall k :: 0 <= k < |order| ==> order[k] in m
  {
    if order == [] then 0 else m[order[0]] + SumAlong(m, order[1..])
  }

  /** Summing along a duplicate-free list of keys is summing over the set of those keys. */
  lemma {:induction false} SumAlongIsSumOver(m: map<string, int>, order: seq<string>)
    requires forall k :: 0 <= k < |order| ==> order[k] in m
    requires forall i, j :: 0 <= i < j < |order| ==> order[i] != order[j]
    ensures SumAlong(m, order) == SumOver(m, set c | c in order)
  {
    if order != [] {
      var keys := set c | c in order;
      var rest := order[1..];
      SumAlongIsSumOver(m, rest);
      SumOverRemove(m, keys, order[0]);
      assert keys - {order[0]} == set c | c in rest by {
        forall c | c in rest ensures c != order[0] {
          var j :| 0 <= j < |rest| && rest[j] == c;
          assert order[j + 1] == c;
        }
        assert forall c :: c in order ==> c == order[0] || c in rest by {
          assert order == [order[0]] + rest;
        }
      }
    }
  }
}
