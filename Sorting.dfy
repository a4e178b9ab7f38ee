/**
 * The stable descending sort of LINQ's `OrderByDescending(...).ThenByDescending(...)`:
 * entries are ordered by a two-level key, highest first, and entries with equal
 * keys keep their input order.
 */
module Sorting {
  import opened Seqs

  /** A sort key: compared by `primary`, then by `secondary`, both descending. */
  datatype Key = Key(primary: int, secondary: int)

  /** `a` may stand before `b` in a descending order. */
  predicate Precedes(a: Key, b: Key)
  {
    a.primary > b.primary || (a.primary == b.primary && a.secondary >= b.secondary)
  }

  /** Inserts `x` before the first entry it may precede. */
  function Insert<T>(x: T, s: seq<T>, key: T -> Key): (r: seq<T>)
    ensures |r| == |s| + 1
  {
    if s == [] then [x]
    else if Precedes(key(x), key(s[0])) then [x] + s
    else [s[0]] + Insert(x, s[1..], key)
  }

  /** Stable insertion sort, highest key first. */
  function SortDescending<T>(s: seq<T>, key: T -> Key): (r: seq<T>)
    ensures |r| == |s|
  {
    if s == [] then [] else Insert(s[0], SortDescending(s[1..], key), key)
  }

  /** Every entry may precede every later one. */
  ghost predicate Descending<T>(s: seq<T>, key: T -> Key)
  {
    forall i, j :: 0 <= i < j < |s| ==> Precedes(key(s[i]), key(s[j]))
  }

  /** The entries of `s` whose key is `k`, in the order of `s`. */
  function WithKey<T>(s: seq<T>, key: T -> Key, k: Key): seq<T>
  {
    if s == [] then [] else (if key(s[0]) == k then [s[0]] else []) + WithKey(s[1..], key, k)
  }

  lemma {:induction false} InsertMultiset<T>(x: T, s: seq<T>, key: T -> Key)
    ensures multiset(Insert(x, s, key)) == multiset(s) + multiset{x}
  {
    if s != [] && !Precedes(key(x), key(s[0])) {
      InsertMultiset(x, s[1..], key);
      assert s == [s[0]] + s[1..];
    }
  }

  lemma {:induction false} InsertDescending<T>(x: T, s: seq<T>, key: T -> Key)
    requires Descending(s, key)
    ensures Descending(Insert(x, s, key), key)
  {
    if s != [] && !Precedes(key(x), key(s[0])) {
      var tail := s[1..];
      assert Descending(tail, key) by {
        forall i, j | 0 <= i < j < |tail| ensures Precedes(key(tail[i]), key(tail[j])) {
          assert tail[i] == s[i + 1] && tail[j] == s[j + 1];
        }
      }
      InsertDescending(x, tail, key);
      InsertMultiset(x, tail, key);
      var ins := Insert(x, tail, key);
      var r := [s[0]] + ins;
      forall j | 0 <= j < |ins| ensures Precedes(key(s[0]), key(ins[j])) {
        assert ins[j] in multiset(ins);
        if ins[j] != x {
          assert ins[j] in multiset(tail);
          var m :| 0 <= m < |tail| && tail[m] == ins[j];
          assert tail[m] == s[m + 1];
        }
      }
      forall i, j | 0 <= i < j < |r| ensures Precedes(key(r[i]), key(r[j])) {
        if i == 0 {
          assert r[j] == ins[j - 1];
        } else {
          assert r[i] == ins[i - 1] && r[j] == ins[j - 1];
        }
      }
    }
  }

  /** `x` goes in front of the entries with its key: every entry it passes has a larger key. */
  lemma {:induction false} InsertWithKey<T>(x: T, s: seq<T>, key: T -> Key, k: Key)
    ensures WithKey(Insert(x, s, key), key, k) == (if key(x) == k then [x] else []) + WithKey(s, key, k)
  {
    if s == [] {
      assert [x][1..] == [];
    } else if Precedes(key(x), key(s[0])) {
      assert ([x] + s)[0] == x;
      assert ([x] + s)[1..] == s;
    } else {
      var tail := s[1..];
      InsertWithKey(x, tail, key, k);
      var ins := Insert(x, tail, key);
      assert ([s[0]] + ins)[0] == s[0];
      assert ([s[0]] + ins)[1..] == ins;
      var here := if key(s[0]) == k then [s[0]] else [];
      assert WithKey(Insert(x, s, key), key, k) == here + WithKey(ins, key, k);
      assert WithKey(s, key, k) == here + WithKey(tail, key, k);
      assert key(s[0]) != key(x);
      if key(x) == k {
        assert here == [];
      }
    }
  }

  /** The sort is a permutation of its input. */
  lemma {:induction false} SortIsPermutation<T>(s: seq<T>, key: T -> Key)
    ensures multiset(SortDescending(s, key)) == multiset(s)
  {
    if s != [] {
      SortIsPermutation(s[1..], key);
      InsertMultiset(s[0], SortDescending(s[1..], key), key);
      assert s == [s[0]] + s[1..];
    }
  }

  /** The sort puts every entry before all entries with a lower key. */
  lemma {:induction false} SortIsDescending<T>(s: seq<T>, key: T -> Key)
    ensures Descending(SortDescending(s, key), key)
  {
    if s != [] {
      SortIsDescending(s[1..], key);
      InsertDescending(s[0], SortDescending(s[1..], key), key);
    }
  }

  /** The sort is stable: the entries with any one key keep their input order. */
  lemma {:induction false} SortIsStable<T>(s: seq<T>, key: T -> Key, k: Key)
    ensures WithKey(SortDescending(s, key), key, k) == WithKey(s, key, k)
  {
    if s != [] {
      SortIsStable(s[1..], key, k);
      InsertWithKey(s[0], SortDescending(s[1..], key), key, k);
    }
  }

  lemma {:induction false} InsertSum<T>(x: T, s: seq<T>, key: T -> Key, f: T -> int)
    ensures Sum(Insert(x, s, key), f) == f(x) + Sum(s, f)
  {
    if s == [] {
      assert [x][1..] == [];
    } else if Precedes(key(x), key(s[0])) {
      assert ([x] + s)[1..] == s;
    } else {
      InsertSum(x, s[1..], key, f);
      var ins := Insert(x, s[1..], key);
      assert ([s[0]] + ins)[1..] == ins;
    }
  }

  /** Sorting does not change a sum over the entries. */
  lemma {:induction false} SortPreservesSum<T>(s: seq<T>, key: T -> Key, f: T -> int)
    ensures Sum(SortDescending(s, key), f) == Sum(s, f)
  {
    if s != [] {
      SortPreservesSum(s[1..], key, f);
      InsertSum(s[0], SortDescending(s[1..], key), key, f);
    }
  }
}
