/**
 * `Array.prototype.sort` with a comparator of the form `(a, b) => key(a) - key(b)`.
 * Since ECMAScript 2019 the sort is required to be stable, so its result is
 * determined: the elements in non-decreasing key order, and elements with
 * equal keys in their original relative order. `SortBy` is that result,
 * defined as insertion sort; `SortInPlace` is an in-place insertion sort on an
 * array proved to produce it.
 */
module StableSort {

  /** Every element's key is at most every later element's key. */
  predicate Sorted<T>(s: seq<T>, key: T -> real) {
    forall i, j :: 0 <= i < j < |s| ==> key(s[i]) <= key(s[j])
  }

  /** The elements of `s` whose key is `k`, in their order in `s`. */
  function KeyClass<T>(s: seq<T>, key: T -> real, k: real): (r: seq<T>)
    ensures |r| <= |s|
  {
    if s == [] then []
    else KeyClass(s[..|s| - 1], key, k) + (if key(s[|s| - 1]) == k then [s[|s| - 1]] else [])
  }

  /**
   * Inserts `x` into `s` after every element whose key is not greater than
   * `x`'s: it passes only elements with strictly greater keys.
   */
  function Insert<T>(s: seq<T>, x: T, key: T -> real): (r: seq<T>)
    ensures |r| == |s| + 1
  {
    if s == [] || key(s[|s| - 1]) <= key(x) then s + [x]
    else Insert(s[..|s| - 1], x, key) + [s[|s| - 1]]
  }

  /** The stable sort of `s` by ascending key. */
  function SortBy<T>(s: seq<T>, key: T -> real): (r: seq<T>)
    ensures |r| == |s|
  {
    if s == [] then [] else Insert(SortBy(s[..|s| - 1], key), s[|s| - 1], key)
  }

  // ------------------------------------------------------------ key classes

  lemma {:induction false} KeyClassAppend<T>(a: seq<T>, b: seq<T>, key: T -> real, k: real)
    ensures KeyClass(a + b, key, k) == KeyClass(a, key, k) + KeyClass(b, key, k)
    decreases |b|
  {
    if b == [] {
      assert a + b == a;
    } else {
      var b' := b[..|b| - 1];
      assert (a + b)[..|a + b| - 1] == a + b';
      KeyClassAppend(a, b', key, k);
    }
  }

  // ------------------------------------------------------------ insertion

  /** Inserting adds `x` and loses nothing. */
  lemma {:induction false} InsertPermutes<T>(s: seq<T>, x: T, key: T -> real)
    ensures multiset(Insert(s, x, key)) == multiset(s) + multiset{x}
    decreases |s|
  {
    if s != [] && key(s[|s| - 1]) > key(x) {
      var init, last := s[..|s| - 1], s[|s| - 1];
      assert s == init + [last];
      InsertPermutes(init, x, key);
    }
  }

  /** Inserting keeps each key class in the order of `s + [x]`. */
  lemma {:induction false} InsertStable<T>(s: seq<T>, x: T, key: T -> real, k: real)
    ensures KeyClass(Insert(s, x, key), key, k) == KeyClass(s + [x], key, k)
    decreases |s|
  {
    if s == [] || key(s[|s| - 1]) <= key(x) {
    } else {
      var init, last := s[..|s| - 1], s[|s| - 1];
      assert s == init + [last];
      InsertStable(init, x, key, k);
      KeyClassAppend(Insert(init, x, key), [last], key, k);
      KeyClassAppend(init, [x], key, k);
      KeyClassAppend(init + [x], [last], key, k);
      KeyClassAppend(init, [last], key, k);
      KeyClassAppend(init + [last], [x], key, k);
      // `last` and `x` have different keys, so at most one of them is in class k
      assert KeyClass([last], key, k) == [] || KeyClass([x], key, k) == [];
    }
  }

  /** Inserting into a sorted sequence gives a sorted sequence. */
  lemma {:induction false} InsertSorted<T>(s: seq<T>, x: T, key: T -> real)
    requires Sorted(s, key)
    ensures Sorted(Insert(s, x, key), key)
    decreases |s|
  {
    if s == [] || key(s[|s| - 1]) <= key(x) {
    } else {
      var init, last := s[..|s| - 1], s[|s| - 1];
      InsertSorted(init, x, key);
      InsertPermutes(init, x, key);
      var r := Insert(init, x, key);
      forall y | y in r ensures key(y) <= key(last) {
        assert y in multiset(r);
        if y != x {
          assert y in multiset(init);
        }
      }
      var whole := r + [last];
      forall i, j | 0 <= i < j < |whole| ensures key(whole[i]) <= key(whole[j]) {
        if j == |whole| - 1 {
          assert whole[i] in r;
        }
      }
    }
  }

  // ------------------------------------------------------------ the sort

  /** The result is a permutation of the input. */
  lemma {:induction false} SortByPermutes<T>(s: seq<T>, key: T -> real)
    ensures multiset(SortBy(s, key)) == multiset(s)
    decreases |s|
  {
    if s != [] {
      var init, last := s[..|s| - 1], s[|s| - 1];
      assert s == init + [last];
      SortByPermutes(init, key);
      InsertPermutes(SortBy(init, key), last, key);
    }
  }

  /** The result is in non-decreasing key order. */
  lemma {:induction false} SortBySorted<T>(s: seq<T>, key: T -> real)
    ensures Sorted(SortBy(s, key), key)
    decreases |s|
  {
    if s != [] {
      SortBySorted(s[..|s| - 1], key);
      InsertSorted(SortBy(s[..|s| - 1], key), s[|s| - 1], key);
    }
  }

  /** Elements with equal keys keep their input order. */
  lemma {:induction false} SortByStable<T>(s: seq<T>, key: T -> real, k: real)
    ensures KeyClass(SortBy(s, key), key, k) == KeyClass(s, key, k)
    decreases |s|
  {
    if s != [] {
      var init, last := s[..|s| - 1], s[|s| - 1];
      SortByStable(init, key, k);
      InsertStable(SortBy(init, key), last, key, k);
      KeyClassAppend(SortBy(init, key), [last], key, k);
      KeyClassAppend(init, [last], key, k);
      assert s == init + [last];
    }
  }

  /** Sorting a sequence that is already in key order changes nothing. */
  lemma {:induction false} SortByIdempotent<T>(s: seq<T>, key: T -> real)
    requires Sorted(s, key)
    ensures SortBy(s, key) == s
    decreases |s|
  {
    if s != [] {
      var init, last := s[..|s| - 1], s[|s| - 1];
      forall i, j | 0 <= i < j < |init| ensures key(init[i]) <= key(init[j]) {
        assert init[i] == s[i] && init[j] == s[j];
      }
      SortByIdempotent(init, key);
      assert SortBy(s, key) == Insert(init, last, key);
      assert init == [] || key(init[|init| - 1]) <= key(last);
      assert init + [last] == s;
    }
  }

  /** Everything that callers of `Array.prototype.sort` rely on, in one statement. */
  lemma SortBySpec<T>(s: seq<T>, key: T -> real)
    ensures multiset(SortBy(s, key)) == multiset(s)
    ensures Sorted(SortBy(s, key), key)
    ensures forall k :: KeyClass(SortBy(s, key), key, k) == KeyClass(s, key, k)
    ensures Sorted(s, key) ==> SortBy(s, key) == s
  {
    SortByPermutes(s, key);
    SortBySorted(s, key);
    forall k ensures KeyClass(SortBy(s, key), key, k) == KeyClass(s, key, k) {
      SortByStable(s, key, k);
    }
    if Sorted(s, key) {
      SortByIdempotent(s, key);
    }
  }

  /** Sorting keeps exactly the elements of the input. */
  lemma SortByMembers<T>(s: seq<T>, key: T -> real)
    ensures forall x :: x in SortBy(s, key) <==> x in s
  {
    SortByPermutes(s, key);
    forall x ensures x in SortBy(s, key) <==> x in s {
      assert x in SortBy(s, key) <==> x in multiset(SortBy(s, key));
      assert x in s <==> x in multiset(s);
    }
  }

  // ------------------------------------------------------------ in place

  /** Inserting `x` past an element with a strictly greater key. */
  lemma InsertPasses<T>(s: seq<T>, j: nat, x: T, key: T -> real)
    requires 0 < j <= |s| && key(s[j - 1]) > key(x)
    ensures Insert(s[..j], x, key) + s[j..] == Insert(s[..j - 1], x, key) + s[j - 1..]
  {
    assert s[..j][..j - 1] == s[..j - 1];
    assert s[j - 1..] == [s[j - 1]] + s[j..];
  }

  /** Inserting `x` stops at an element whose key is not greater. */
  lemma InsertStops<T>(s: seq<T>, j: nat, x: T, key: T -> real)
    requires j <= |s| && (j == 0 || key(s[j - 1]) <= key(x))
    ensures Insert(s[..j], x, key) + s[j..] == s[..j] + [x] + s[j..]
  {
  }

  /** Swapping `x` one place left in `p + [x] + q + rest` moves the last element of `p` after it. */
  lemma SwapLeft<T>(done: seq<T>, j: nat, x: T, rest: seq<T>)
    requires 0 < j <= |done|
    ensures (done[..j] + [x] + done[j..] + rest)[j - 1 := x][j := done[j - 1]]
            == done[..j - 1] + [x] + done[j - 1..] + rest
  {
    var before := done[..j] + [x] + done[j..] + rest;
    var after := done[..j - 1] + [x] + done[j - 1..] + rest;
    assert |before[j - 1 := x][j := done[j - 1]]| == |after|;
    forall k | 0 <= k < |after| ensures before[j - 1 := x][j := done[j - 1]][k] == after[k] {
      if k < j - 1 {
        assert before[k] == done[k] == after[k];
      } else if k > j {
        if k <= |done| {
          assert before[k] == done[k - 1] == after[k];
        } else {
          assert before[k] == rest[k - |done| - 1] == after[k];
        }
      }
    }
  }

  /**
   * One pass of insertion sort: swaps `a[i]` left past the elements of the
   * sorted prefix `a[..i]` whose keys are strictly greater.
   */
  method InsertInto<T>(a: array<T>, i: nat, key: T -> real)
    requires i < a.Length
    modifies a
    ensures a[..] == Insert(old(a[..i]), old(a[i]), key) + old(a[i + 1..])
  {
    ghost var done, rest := a[..i], a[i + 1..];
    var x := a[i];
    var j := i;
    assert done[..j] == done && done[j..] == [];
    assert a[..] == done[..j] + [x] + done[j..] + rest;
    while j > 0 && key(a[j - 1]) > key(x)
      invariant 0 <= j <= i
      invariant a[..] == done[..j] + [x] + done[j..] + rest
      invariant Insert(done, x, key) == Insert(done[..j], x, key) + done[j..]
    {
      InsertPasses(done, j, x, key);
      SwapLeft(done, j, x, rest);
      a[j - 1], a[j] := x, a[j - 1];
      j := j - 1;
    }
    InsertStops(done, j, x, key);
  }

  /** Insertion sort on `a`: afterwards `a` holds the stable sort of its old contents. */
  method SortInPlace<T>(a: array<T>, key: T -> real)
    modifies a
    ensures a[..] == SortBy(old(a[..]), key)
  {
    ghost var input := a[..];
    var i := 0;
    while i < a.Length
      invariant 0 <= i <= a.Length
      invariant a[..] == SortBy(input[..i], key) + input[i..]
    {
      ghost var sortedPrefix := SortBy(input[..i], key);
      assert a[..i] == sortedPrefix && a[i] == input[i] && a[i + 1..] == input[i + 1..];
      InsertInto(a, i, key);
      assert input[..i + 1][..i] == input[..i];
      assert SortBy(input[..i + 1], key) == Insert(sortedPrefix, input[i], key);
      i := i + 1;
    }
    assert input[..a.Length] == input;
  }
}
