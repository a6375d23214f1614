/** Python's `sorted` on strings and by a string key. */
module Ordering {

  /** `a < b` for Python strings: by code points. */
  predicate Lt(a: string, b: string) {
    if b == [] then false
    else if a == [] then true
    else a[0] < b[0] || (a[0] == b[0] && Lt(a[1..], b[1..]))
  }

  lemma {:induction false} LtTotal(a: string, b: string)
    ensures a != b ==> (Lt(a, b) <==> !Lt(b, a))
    ensures a == b ==> !Lt(a, b)
  {
    if a != [] && b != [] {
      LtTotal(a[1..], b[1..]);
      assert a == [a[0]] + a[1..] && b == [b[0]] + b[1..];
    }
  }

  lemma {:induction false} LtTransitive(a: string, b: string, c: string)
    requires !Lt(b, a) && !Lt(c, b)
    ensures !Lt(c, a)
    ensures Lt(a, b) || Lt(b, c) ==> Lt(a, c)
  {
    LtTotal(a, b);
    LtTotal(b, c);
    LtTotal(a, c);
    if a != [] && b != [] && c != [] && a[0] == b[0] == c[0] {
      LtTransitive(a[1..], b[1..], c[1..]);
    }
  }

  ghost predicate Sorted<T>(key: T -> string, xs: seq<T>) {
    forall i, j :: 0 <= i < j < |xs| ==> !Lt(key(xs[j]), key(xs[i]))
  }

  ghost predicate StrictlySorted<T>(key: T -> string, xs: seq<T>) {
    forall i, j :: 0 <= i < j < |xs| ==> Lt(key(xs[i]), key(xs[j]))
  }

  ghost predicate Distinct<T>(key: T -> string, xs: seq<T>) {
    forall i, j :: 0 <= i < j < |xs| ==> key(xs[i]) != key(xs[j])
  }

  /** Put `x` behind everything that does not come after it: a stable insertion. */
  function Insert<T>(key: T -> string, xs: seq<T>, x: T): seq<T> {
    if xs != [] && Lt(key(x), key(xs[|xs| - 1]))
    then Insert(key, xs[..|xs| - 1], x) + [xs[|xs| - 1]]
    else xs + [x]
  }

  /** `sorted(xs, key=key)` */
  function Sort<T>(key: T -> string, xs: seq<T>): seq<T> {
    if xs == [] then [] else Insert(key, Sort(key, xs[..|xs| - 1]), xs[|xs| - 1])
  }

  lemma {:induction false} InsertKeeps<T>(key: T -> string, xs: seq<T>, x: T)
    ensures multiset(Insert(key, xs, x)) == multiset(xs) + multiset{x}
  {
    hide Lt;
    if xs != [] {
      var n := |xs| - 1;
      assert xs == xs[..n] + [xs[n]];
      InsertKeeps(key, xs[..n], x);
    }
  }

  lemma {:induction false} InsertSorts<T>(key: T -> string, xs: seq<T>, x: T)
    requires Sorted(key, xs)
    ensures Sorted(key, Insert(key, xs, x))
  {
    hide Lt;
    if xs != [] {
      var n := |xs| - 1;
      LtTotal(key(x), key(xs[n]));
      if Lt(key(x), key(xs[n])) {
        var ys := Insert(key, xs[..n], x);
        InsertSorts(key, xs[..n], x);
        forall i | 0 <= i < |ys| ensures !Lt(key(xs[n]), key(ys[i])) {
          InsertKeeps(key, xs[..n], x);
          assert ys[i] in multiset(ys);
          assert ys[i] == x || ys[i] in xs[..n];
        }
      } else {
        forall i | 0 <= i < |xs| ensures !Lt(key(x), key(xs[i])) {
          if i < n { LtTransitive(key(xs[i]), key(xs[n]), key(x)); }
        }
      }
    }
  }

  lemma {:induction false} SortSorts<T>(key: T -> string, xs: seq<T>)
    ensures Sorted(key, Sort(key, xs))
    ensures multiset(Sort(key, xs)) == multiset(xs)
  {
    hide Lt;
    hide Insert;
    hide Sorted;
    if xs == [] {
      SortedEmpty(key);
    } else {
      var n := |xs| - 1;
      SortSorts(key, xs[..n]);
      InsertSorts(key, Sort(key, xs[..n]), xs[n]);
      InsertKeeps(key, Sort(key, xs[..n]), xs[n]);
      assert xs == xs[..n] + [xs[n]];
    }
  }

  lemma SortedEmpty<T>(key: T -> string)
    ensures Sorted(key, [])
  {
  }

  /** Distinctness depends on the multiset only. */
  lemma DistinctIsUnordered<T>(key: T -> string, xs: seq<T>, ys: seq<T>)
    requires multiset(xs) == multiset(ys) && Distinct(key, xs)
    ensures Distinct(key, ys)
  {
    forall i, j | 0 <= i < j < |ys| ensures key(ys[i]) != key(ys[j]) {
      if key(ys[i]) == key(ys[j]) {
        assert ys[i] in multiset(xs) && ys[j] in multiset(xs);
        var m :| 0 <= m < |xs| && xs[m] == ys[i];
        var n :| 0 <= n < |xs| && xs[n] == ys[j];
        assert m == n;
        TwiceIn(ys, i, j);
        OnceIn(key, xs, m);
      }
    }
  }

  lemma TwiceIn<T>(xs: seq<T>, i: nat, j: nat)
    requires i < j < |xs| && xs[i] == xs[j]
    ensures multiset(xs)[xs[i]] >= 2
  {
    assert xs == xs[..j] + [xs[j]] + xs[j + 1..];
    assert xs[i] in xs[..j];
  }

  lemma OnceIn<T>(key: T -> string, xs: seq<T>, i: nat)
    requires Distinct(key, xs) && i < |xs|
    ensures multiset(xs)[xs[i]] == 1
  {
    assert xs == xs[..i] + [xs[i]] + xs[i + 1..];
    assert xs[i] !in xs[..i] && xs[i] !in xs[i + 1..];
  }

  lemma SortedDistinct<T>(key: T -> string, xs: seq<T>)
    requires Sorted(key, xs) && Distinct(key, xs)
    ensures StrictlySorted(key, xs)
  {
    forall i, j | 0 <= i < j < |xs| ensures Lt(key(xs[i]), key(xs[j])) {
      LtTotal(key(xs[i]), key(xs[j]));
    }
  }

  /** A strictly sorted sequence is determined by which elements it has. */
  lemma {:induction false} StrictlySortedUnique<T>(key: T -> string, xs: seq<T>, ys: seq<T>)
    requires StrictlySorted(key, xs) && StrictlySorted(key, ys)
    requires forall x :: x in xs <==> x in ys
    ensures xs == ys
  {
    assert xs != [] ==> xs[0] in ys;
    assert ys != [] ==> ys[0] in xs;
    if xs != [] {
      var m, n := |xs| - 1, |ys| - 1;
      assert xs[m] in ys && ys[n] in xs;
      var i :| 0 <= i < |ys| && ys[i] == xs[m];
      var j :| 0 <= j < |xs| && xs[j] == ys[n];
      if i < n && j < m {
        LtTotal(key(xs[m]), key(ys[n]));
        assert false;
      }
      assert xs[m] == ys[n] by {
        if i < n { assert j == m; } else { assert i == n; }
      }
      assert xs == xs[..m] + [xs[m]] && ys == ys[..n] + [ys[n]];
      forall x ensures x in xs[..m] <==> x in ys[..n] {
        LtTotal(key(xs[m]), key(xs[m]));
        if x in xs[..m] { assert x != xs[m] && x in ys; }
        if x in ys[..n] { assert x != ys[n] && x in xs; }
      }
      StrictlySortedUnique(key, xs[..m], ys[..n]);
    }
  }

  /** Sorting by a key without ties forgets the order the elements came in. */
  lemma SortIsUnordered<T>(key: T -> string, xs: seq<T>, ys: seq<T>)
    requires multiset(xs) == multiset(ys) && Distinct(key, xs)
    ensures Sort(key, xs) == Sort(key, ys)
    ensures StrictlySorted(key, Sort(key, xs))
  {
    SortSorts(key, xs);
    SortSorts(key, ys);
    var a, b := Sort(key, xs), Sort(key, ys);
    DistinctIsUnordered(key, xs, a);
    DistinctIsUnordered(key, xs, b);
    SortedDistinct(key, a);
    SortedDistinct(key, b);
    forall x ensures x in a <==> x in b {
      assert x in a <==> x in multiset(a);
      assert x in b <==> x in multiset(b);
    }
    StrictlySortedUnique(key, a, b);
  }

  /** Sorting what is strictly sorted already changes nothing. */
  lemma SortOfSorted<T>(key: T -> string, xs: seq<T>)
    requires StrictlySorted(key, xs)
    ensures Sort(key, xs) == xs
  {
    forall i, j | 0 <= i < j < |xs| ensures key(xs[i]) != key(xs[j]) {
      LtTotal(key(xs[i]), key(xs[j]));
    }
    SortIsUnordered(key, xs, xs);
    var a := Sort(key, xs);
    SortSorts(key, xs);
    forall x ensures x in a <==> x in xs {
      assert x in a <==> x in multiset(a);
      assert x in xs <==> x in multiset(xs);
    }
    StrictlySortedUnique(key, a, xs);
  }
}
