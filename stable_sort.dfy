/**
 * The stable sort behind `Collections.sort` and `List.sort` (a merge sort in
 * the JDK; only its result matters here), for comparators that compare a
 * key of each element. Every comparator of the app that this model sorts
 * with has that form: it orders by one field, or by a group flag and then a
 * date, possibly negated. `Sort` is the reference definition (insertion of
 * each element after all elements that do not compare greater), and
 * `SortInPlace` is the in-place algorithm proved to produce it.
 */
module StableSort {

  /** A sort key, compared lexicographically: first `hi`, then `lo`. */
  datatype Key = Key(hi: int, lo: int)

  /** The strict order of keys: the comparator returns a negative number. */
  predicate Less(a: Key, b: Key)
  {
    a.hi < b.hi || (a.hi == b.hi && a.lo < b.lo)
  }

  /** The key of a descending comparator: `-compare(a, b)` orders by this key. */
  function Neg(k: Key): Key
  {
    Key(-k.hi, -k.lo)
  }

  lemma NegReverses(a: Key, b: Key)
    ensures Less(Neg(a), Neg(b)) <==> Less(b, a)
    ensures Neg(a) == Neg(b) <==> a == b
  {
  }

  lemma KeyOrderIsStrictTotal(a: Key, b: Key, c: Key)
    ensures !Less(a, a)
    ensures Less(a, b) ==> !Less(b, a)
    ensures Less(a, b) && Less(b, c) ==> Less(a, c)
    ensures Less(a, b) || Less(b, a) || a == b
  {
  }

  /** Keys never decrease from left to right. */
  predicate SortedBy<T>(s: seq<T>, key: T -> Key)
  {
    forall i, j :: 0 <= i < j < |s| ==> !Less(key(s[j]), key(s[i]))
  }

  /**
   * Inserts `x` into `s` after every element whose key is not greater than
   * the key of `x`, scanning from the right as an insertion sort does.
   */
  function InsertLast<T>(s: seq<T>, x: T, key: T -> Key): (r: seq<T>)
    ensures |r| == |s| + 1
    ensures multiset(r) == multiset(s) + multiset{x}
    decreases |s|
  {
    if s == [] || !Less(key(x), key(s[|s| - 1])) then
      s + [x]
    else
      var init := s[..|s| - 1];
      assert s == init + [s[|s| - 1]];
      InsertLast(init, x, key) + [s[|s| - 1]]
  }

  /** The stable sort of `s` by `key`: each element in turn is inserted into the sorted prefix. */
  function Sort<T>(s: seq<T>, key: T -> Key): (r: seq<T>)
    ensures |r| == |s|
    ensures multiset(r) == multiset(s)
    decreases |s|
  {
    if s == [] then
      []
    else
      assert s == s[..|s| - 1] + [s[|s| - 1]];
      InsertLast(Sort(s[..|s| - 1], key), s[|s| - 1], key)
  }

  /** Two elements are swapped exactly when the second has the smaller key. */
  lemma SortOfTwo<T>(x: T, y: T, key: T -> Key)
    ensures Sort([x, y], key) == if Less(key(y), key(x)) then [y, x] else [x, y]
  {
    assert [x, y][..1] == [x];
    assert [x][..0] == [];
    assert Sort([x], key) == [x];
  }

  lemma {:induction false} InsertLastSorted<T>(s: seq<T>, x: T, key: T -> Key)
    requires SortedBy(s, key)
    ensures SortedBy(InsertLast(s, x, key), key)
    decreases |s|
  {
    if s == [] || !Less(key(x), key(s[|s| - 1])) {
      var r := s + [x];
      forall i, j | 0 <= i < j < |r|
        ensures !Less(key(r[j]), key(r[i]))
      {
        if j == |s| && i < |s| - 1 {
          assert !Less(key(s[|s| - 1]), key(s[i]));
        }
      }
    } else {
      var init, last := s[..|s| - 1], s[|s| - 1];
      assert SortedBy(init, key);
      InsertLastSorted(init, x, key);
      var m := InsertLast(init, x, key);
      var r := m + [last];
      forall i | 0 <= i < |m|
        ensures !Less(key(last), key(m[i]))
      {
        assert m[i] in multiset(m);
        if m[i] != x {
          assert m[i] in multiset(init);
          var k :| 0 <= k < |init| && init[k] == m[i];
          assert s[k] == init[k];
        }
      }
      forall i, j | 0 <= i < j < |r|
        ensures !Less(key(r[j]), key(r[i]))
      {
        if j < |m| {
          assert r[i] == m[i] && r[j] == m[j];
        }
      }
    }
  }

  /** `Sort` produces a sequence whose keys never decrease. */
  lemma {:induction false} SortIsSorted<T>(s: seq<T>, key: T -> Key)
    ensures SortedBy(Sort(s, key), key)
    decreases |s|
  {
    if s != [] {
      SortIsSorted(s[..|s| - 1], key);
      InsertLastSorted(Sort(s[..|s| - 1], key), s[|s| - 1], key);
    }
  }

  /** The elements of `s` whose key is `k`, in their order in `s`. */
  function Tied<T>(s: seq<T>, key: T -> Key, k: Key): (r: seq<T>)
    ensures |r| <= |s|
    ensures forall i :: 0 <= i < |r| ==> key(r[i]) == k
    decreases |s|
  {
    if s == [] then
      []
    else
      Tied(s[..|s| - 1], key, k) + (if key(s[|s| - 1]) == k then [s[|s| - 1]] else [])
  }

  lemma {:induction false} TiedAppend<T>(a: seq<T>, b: seq<T>, key: T -> Key, k: Key)
    ensures Tied(a + b, key, k) == Tied(a, key, k) + Tied(b, key, k)
    decreases |b|
  {
    if b == [] {
      assert a + b == a;
    } else {
      var init := b[..|b| - 1];
      assert (a + b)[..|a + b| - 1] == a + init;
      TiedAppend(a, init, key, k);
    }
  }

  lemma {:induction false} InsertLastStable<T>(s: seq<T>, x: T, key: T -> Key, k: Key)
    ensures Tied(InsertLast(s, x, key), key, k)
         == Tied(s, key, k) + (if key(x) == k then [x] else [])
    decreases |s|
  {
    if s == [] || !Less(key(x), key(s[|s| - 1])) {
      assert (s + [x])[..|s|] == s;
    } else {
      var init, last := s[..|s| - 1], s[|s| - 1];
      var m := InsertLast(init, x, key);
      assert (m + [last])[..|m|] == m;
      InsertLastStable(init, x, key, k);
    }
  }

  /**
   * Stability: the elements that compare equal (share a key) keep the order
   * they had in the input.
   */
  lemma {:induction false} SortIsStable<T>(s: seq<T>, key: T -> Key, k: Key)
    ensures Tied(Sort(s, key), key, k) == Tied(s, key, k)
    decreases |s|
  {
    if s != [] {
      SortIsStable(s[..|s| - 1], key, k);
      InsertLastStable(Sort(s[..|s| - 1], key), s[|s| - 1], key, k);
    }
  }

  /** When every element has the same key the sort changes nothing. */
  lemma {:induction false} SortOfEqualKeys<T>(s: seq<T>, key: T -> Key, k: Key)
    requires forall i :: 0 <= i < |s| ==> key(s[i]) == k
    ensures Sort(s, key) == s
    decreases |s|
  {
    if s != [] {
      var init := s[..|s| - 1];
      SortOfEqualKeys(init, key, k);
      InsertLastAtEnd(init, s[|s| - 1], key);
      assert init + [s[|s| - 1]] == s;
    }
  }

  /** Elements that are all strictly greater than `x` stay to its right. */
  lemma {:induction false} InsertLastPastGreater<T>(s: seq<T>, t: seq<T>, x: T, key: T -> Key)
    requires forall k :: 0 <= k < |t| ==> Less(key(x), key(t[k]))
    ensures InsertLast(s + t, x, key) == InsertLast(s, x, key) + t
    decreases |t|
  {
    if t == [] {
      assert s + t == s;
    } else {
      var init, last := t[..|t| - 1], t[|t| - 1];
      assert (s + t)[..|s + t| - 1] == s + init;
      assert (s + t)[|s + t| - 1] == last;
      assert InsertLast(s + t, x, key) == InsertLast(s + init, x, key) + [last];
      InsertLastPastGreater(s, init, x, key);
      assert t == init + [last];
    }
  }

  /** An element not smaller than the last one goes at the end. */
  lemma {:induction false} InsertLastAtEnd<T>(s: seq<T>, x: T, key: T -> Key)
    requires s == [] || !Less(key(x), key(s[|s| - 1]))
    ensures InsertLast(s, x, key) == s + [x]
  {
  }

  /**
   * Where `InsertLast` puts `x`: just after the last element that is not
   * greater, when every element from there on is strictly greater.
   */
  lemma {:induction false} InsertLastAt<T>(p: seq<T>, j: int, x: T, key: T -> Key)
    requires 0 <= j <= |p|
    requires j == 0 || !Less(key(x), key(p[j - 1]))
    requires forall k :: j <= k < |p| ==> Less(key(x), key(p[k]))
    ensures InsertLast(p, x, key) == p[..j] + [x] + p[j..]
  {
    var front, back := p[..j], p[j..];
    assert front + back == p;
    assert j == 0 || front[j - 1] == p[j - 1];
    InsertLastAtEnd(front, x, key);
    assert forall k :: 0 <= k < |back| ==> back[k] == p[j + k];
    InsertLastPastGreater(front, back, x, key);
  }

  /**
   * One step of the insertion sort: the element at `i` moves left past every
   * element of the prefix whose key is strictly greater.
   */
  method InsertStep<T>(a: array<T>, i: int, key: T -> Key)
    requires 0 <= i < a.Length
    modifies a
    ensures a[..i + 1] == InsertLast(old(a[..i]), old(a[i]), key)
    ensures forall k :: i < k < a.Length ==> a[k] == old(a[k])
  {
    ghost var p := a[..i];
    var x := a[i];
    var j := i;
    while j > 0 && Less(key(x), key(a[j - 1]))
      invariant 0 <= j <= i
      invariant forall k :: 0 <= k < j ==> a[k] == p[k]
      invariant forall k :: j < k <= i ==> a[k] == p[k - 1]
      invariant forall k :: i < k < a.Length ==> a[k] == old(a[k])
      invariant forall k :: j <= k < i ==> Less(key(x), key(p[k]))
    {
      a[j] := a[j - 1];
      j := j - 1;
    }
    a[j] := x;
    InsertLastAt(p, j, x, key);
    Assembled(a[..i + 1], p, j, x);
  }

  /** A sequence that agrees with `p` before `j`, holds `x` at `j` and `p` shifted by one after it. */
  lemma Assembled<T>(q: seq<T>, p: seq<T>, j: int, x: T)
    requires 0 <= j <= |p| && |q| == |p| + 1
    requires forall k :: 0 <= k < j ==> q[k] == p[k]
    requires q[j] == x
    requires forall k :: j < k < |q| ==> q[k] == p[k - 1]
    ensures q == p[..j] + [x] + p[j..]
  {
  }

  /** `Sort` of a one-longer prefix inserts the next element into the sorted prefix. */
  lemma SortPrefix<T>(s: seq<T>, i: int, key: T -> Key)
    requires 0 <= i < |s|
    ensures Sort(s[..i + 1], key) == InsertLast(Sort(s[..i], key), s[i], key)
  {
    assert s[..i + 1][..i] == s[..i];
  }

  /** Insertion sort of an array in place; the result is `Sort` of the old contents. */
  method SortInPlace<T>(a: array<T>, key: T -> Key)
    modifies a
    ensures a[..] == Sort(old(a[..]), key)
  {
    ghost var s := a[..];
    var i := 0;
    while i < a.Length
      invariant 0 <= i <= a.Length
      invariant a[..i] == Sort(s[..i], key)
      invariant forall k :: i <= k < a.Length ==> a[k] == s[k]
    {
      SortPrefix(s, i, key);
      InsertStep(a, i, key);
      i := i + 1;
    }
    assert s[..a.Length] == s;
    assert a[..] == a[..a.Length];
  }

  /** A list copied into a fresh array and sorted there, as `Collections.sort` does on an `ArrayList`. */
  method SortSeq<T>(s: seq<T>, key: T -> Key) returns (r: seq<T>)
    ensures r == Sort(s, key)
  {
    var a := new T[|s|](i requires 0 <= i < |s| => s[i]);
    assert a[..] == s;
    SortInPlace(a, key);
    r := a[..];
  }
}
