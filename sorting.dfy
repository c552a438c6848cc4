/** Python's `sorted(xs, key=...)` for string keys: a stable sort in ascending
    string order. */
module Sorting {
  import opened Text

  /** No element is preceded by one with a greater key. */
  ghost predicate SortedBy<T>(s: seq<T>, key: T -> string) {
    forall i, j :: 0 <= i < j < |s| ==> !LexLess(key(s[j]), key(s[i]))
  }

  /** The elements of `s` whose key is `k`, in their order in `s`. */
  function WithKey<T>(s: seq<T>, key: T -> string, k: string): seq<T> {
    if s == [] then []
    else (if key(s[0]) == k then [s[0]] else []) + WithKey(s[1..], key, k)
  }

  /** Places `x` after every element of `s`, up to the first one whose key is greater
      than its own. */
  function Insert<T>(s: seq<T>, x: T, key: T -> string): seq<T> {
    if s == [] then [x]
    else if LexLess(key(x), key(s[0])) then [x] + s
    else [s[0]] + Insert(s[1..], x, key)
  }

  /** `sorted(xs, key=key)`: each element in input order is inserted into the sorted prefix. */
  function SortBy<T>(xs: seq<T>, key: T -> string): seq<T> {
    if xs == [] then []
    else Insert(SortBy(xs[..|xs| - 1], key), xs[|xs| - 1], key)
  }

  lemma {:induction false} InsertPermutes<T>(s: seq<T>, x: T, key: T -> string)
    ensures multiset(Insert(s, x, key)) == multiset(s) + multiset{x}
  {
    if s != [] && !LexLess(key(x), key(s[0])) {
      InsertPermutes(s[1..], x, key);
      assert s == [s[0]] + s[1..];
    }
  }

  lemma {:induction false} InsertSorted<T>(s: seq<T>, x: T, key: T -> string)
    requires SortedBy(s, key)
    ensures SortedBy(Insert(s, x, key), key)
  {
    if s == [] {
    } else if LexLess(key(x), key(s[0])) {
      InsertFront(s, x, key);
    } else {
      InsertBehind(s, x, key);
      var rest := Insert(s[1..], x, key);
      InsertSorted(s[1..], x, key);
      InsertPermutes(s[1..], x, key);
      forall j | 0 <= j < |rest| ensures !LexLess(key(rest[j]), key(s[0])) {
        assert rest[j] in multiset(s[1..]) + multiset{x};
        if rest[j] != x {
          assert rest[j] in s[1..];
        }
      }
      ConsSorted(s[0], rest, key);
    }
  }

  /** Putting an element whose key is not greater than any key in front of a sorted sequence. */
  lemma ConsSorted<T>(h: T, s: seq<T>, key: T -> string)
    requires SortedBy(s, key)
    requires forall j :: 0 <= j < |s| ==> !LexLess(key(s[j]), key(h))
    ensures SortedBy([h] + s, key)
  {
    forall i, j | 0 <= i < j < |s| + 1 ensures !LexLess(key(([h] + s)[j]), key(([h] + s)[i])) {
      assert ([h] + s)[j] == s[j - 1];
      if i > 0 {
        assert ([h] + s)[i] == s[i - 1];
      }
    }
  }

  lemma InsertFront<T>(s: seq<T>, x: T, key: T -> string)
    requires SortedBy(s, key) && s != [] && LexLess(key(x), key(s[0]))
    ensures SortedBy([x] + s, key)
  {
    forall j | 0 <= j < |s| ensures !LexLess(key(s[j]), key(x)) {
      LexLessTrichotomy(key(s[j]), key(s[0]));
      if LexLess(key(s[j]), key(x)) {
        LexLessTransitive(key(s[j]), key(x), key(s[0]));
        LexLessIrreflexive(key(s[j]));
      }
    }
    ConsSorted(x, s, key);
  }

  /** Inserting an element whose key is not less than the first key keeps that first element. */
  lemma InsertBehind<T>(s: seq<T>, x: T, key: T -> string)
    requires SortedBy(s, key) && s != [] && !LexLess(key(x), key(s[0]))
    ensures SortedBy(s[1..], key)
    ensures Insert(s, x, key) == [s[0]] + Insert(s[1..], x, key)
  {
    forall i, j | 0 <= i < j < |s| - 1 ensures !LexLess(key(s[1..][j]), key(s[1..][i])) {
      assert s[1..][j] == s[j + 1] && s[1..][i] == s[i + 1];
    }
  }

  /** `sorted` returns a permutation of its input. */
  lemma {:induction false} SortByPermutes<T>(xs: seq<T>, key: T -> string)
    ensures multiset(SortBy(xs, key)) == multiset(xs)
  {
    if xs != [] {
      var init := xs[..|xs| - 1];
      SortByPermutes(init, key);
      InsertPermutes(SortBy(init, key), xs[|xs| - 1], key);
      assert xs == init + [xs[|xs| - 1]];
    }
  }

  /** `sorted` returns its elements in ascending key order. */
  lemma {:induction false} SortBySorted<T>(xs: seq<T>, key: T -> string)
    ensures SortedBy(SortBy(xs, key), key)
  {
    if xs != [] {
      SortBySorted(xs[..|xs| - 1], key);
      InsertSorted(SortBy(xs[..|xs| - 1], key), xs[|xs| - 1], key);
    }
  }

  lemma {:induction false} WithKeyAppend<T>(s: seq<T>, t: seq<T>, key: T -> string, k: string)
    ensures WithKey(s + t, key, k) == WithKey(s, key, k) + WithKey(t, key, k)
  {
    if s != [] {
      assert (s + t)[1..] == s[1..] + t;
      WithKeyAppend(s[1..], t, key, k);
    } else {
      assert s + t == t;
    }
  }

  /** Inserting `x` appends it to the run of elements that share its key and leaves
      every other run as it was. */
  lemma {:induction false} WithKeyInsert<T>(s: seq<T>, x: T, key: T -> string, k: string)
    requires SortedBy(s, key)
    ensures WithKey(Insert(s, x, key), key, k)
            == WithKey(s, key, k) + (if key(x) == k then [x] else [])
  {
    if s == [] {
      WithKeyCons(x, [], key, k);
      assert [x] + [] == [x];
    } else if LexLess(key(x), key(s[0])) {
      WithKeyInsertFront(s, x, key, k);
    } else {
      InsertBehind(s, x, key);
      WithKeyInsert(s[1..], x, key, k);
      WithKeyInsertBehind(s, x, key, k);
    }
  }

  lemma WithKeyInsertFront<T>(s: seq<T>, x: T, key: T -> string, k: string)
    requires SortedBy(s, key) && s != [] && LexLess(key(x), key(s[0]))
    ensures WithKey(Insert(s, x, key), key, k)
            == WithKey(s, key, k) + (if key(x) == k then [x] else [])
  {
    if key(x) == k {
      NoneWithKey(s, key, k);
    }
    WithKeyCons(x, s, key, k);
  }

  /** The step of `WithKeyInsert` past the first element, given the result for the rest. */
  lemma WithKeyInsertBehind<T>(s: seq<T>, x: T, key: T -> string, k: string)
    requires s != [] && Insert(s, x, key) == [s[0]] + Insert(s[1..], x, key)
    requires WithKey(Insert(s[1..], x, key), key, k)
             == WithKey(s[1..], key, k) + (if key(x) == k then [x] else [])
    ensures WithKey(Insert(s, x, key), key, k)
            == WithKey(s, key, k) + (if key(x) == k then [x] else [])
  {
    WithKeyConsAppend(s[0], Insert(s[1..], x, key), s[1..], if key(x) == k then [x] else [], key, k);
    assert [s[0]] + s[1..] == s;
  }

  lemma WithKeyConsAppend<T>(h: T, s: seq<T>, t: seq<T>, extra: seq<T>, key: T -> string, k: string)
    requires WithKey(s, key, k) == WithKey(t, key, k) + extra
    ensures WithKey([h] + s, key, k) == WithKey([h] + t, key, k) + extra
  {
    WithKeyCons(h, s, key, k);
    WithKeyCons(h, t, key, k);
  }

  lemma WithKeyCons<T>(x: T, s: seq<T>, key: T -> string, k: string)
    ensures WithKey([x] + s, key, k) == (if key(x) == k then [x] else []) + WithKey(s, key, k)
  {
    assert ([x] + s)[1..] == s;
  }

  /** In a sorted sequence whose first key is greater than `k`, no key equals `k`. */
  lemma NoneWithKey<T>(s: seq<T>, key: T -> string, k: string)
    requires SortedBy(s, key) && s != [] && LexLess(k, key(s[0]))
    ensures WithKey(s, key, k) == []
  {
    LexLessIrreflexive(k);
    AbsentKey(s, key, k);
  }

  lemma {:induction false} AbsentKey<T>(s: seq<T>, key: T -> string, k: string)
    requires forall i :: 0 <= i < |s| ==> key(s[i]) != k
    ensures WithKey(s, key, k) == []
  {
    if s != [] {
      AbsentKey(s[1..], key, k);
    }
  }

  /** `sorted` is stable: the elements sharing any one key keep their input order. */
  lemma {:induction false} SortByStable<T>(xs: seq<T>, key: T -> string, k: string)
    ensures WithKey(SortBy(xs, key), key, k) == WithKey(xs, key, k)
  {
    if xs != [] {
      var init, last := xs[..|xs| - 1], xs[|xs| - 1];
      var sortedInit := SortBy(init, key);
      SortBySorted(init, key);
      var extra := if key(last) == k then [last] else [];
      calc {
        WithKey(SortBy(xs, key), key, k);
        WithKey(Insert(sortedInit, last, key), key, k);
        { WithKeyInsert(sortedInit, last, key, k); }
        WithKey(sortedInit, key, k) + extra;
        { SortByStable(init, key, k); }
        WithKey(init, key, k) + extra;
        { assert [last][1..] == []; }
        WithKey(init, key, k) + WithKey([last], key, k);
        { WithKeyAppend(init, [last], key, k); }
        WithKey(init + [last], key, k);
        { assert init + [last] == xs; }
        WithKey(xs, key, k);
      }
    }
  }
}
