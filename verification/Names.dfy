/** Byte-wise name order, and sorting by a name key. Directory listings and the children of a
    directory are kept in this order. */
module Names {
  import opened Bytes

  type Name = seq<Byte>

  /** Lexicographic order on bytes: Go's `<` on strings. */
  predicate Less(a: Name, b: Name) {
    if b == [] then false
    else if a == [] then true
    else if a[0] != b[0] then a[0] < b[0]
    else Less(a[1..], b[1..])
  }

  /** Byte order: at the first difference the smaller byte comes first, and a name comes before its extensions. */
  lemma {:induction false} LessMeans(a: Name, b: Name)
    ensures Less(a, b) <==>
              exists k :: 0 <= k <= |a| && k < |b| && a[..k] == b[..k] && (k == |a| || a[k] < b[k])
  {
    if a == [] {
      if b != [] { assert a[..0] == b[..0]; }
    } else if b != [] && a[0] == b[0] {
      var a', b' := a[1..], b[1..];
      LessMeans(a', b');
      if Less(a', b') {
        var k :| 0 <= k <= |a'| && k < |b'| && a'[..k] == b'[..k] && (k == |a'| || a'[k] < b'[k]);
        assert a[..k + 1] == [a[0]] + a'[..k] && b[..k + 1] == [b[0]] + b'[..k];
      }
      if k :| 0 <= k <= |a| && k < |b| && a[..k] == b[..k] && (k == |a| || a[k] < b[k]) {
        assert k > 0;
        assert a'[..k - 1] == a[..k][1..] && b'[..k - 1] == b[..k][1..];
      }
    } else if b != [] {
      if a[0] < b[0] { assert a[..0] == b[..0]; }
      forall k | 0 < k <= |a| && k < |b| ensures a[..k] != b[..k] { assert a[..k][0] != b[..k][0]; }
    }
  }

  lemma {:induction false} LessIrreflexive(a: Name)
    ensures !Less(a, a)
  {
    if a != [] { LessIrreflexive(a[1..]); }
  }

  lemma {:induction false} LessTransitive(a: Name, b: Name, c: Name)
    requires Less(a, b) && Less(b, c)
    ensures Less(a, c)
  {
    if a != [] && a[0] == b[0] == c[0] { LessTransitive(a[1..], b[1..], c[1..]); }
  }

  lemma {:induction false} LessTotal(a: Name, b: Name)
    ensures a == b || Less(a, b) || Less(b, a)
  {
    if a != [] && b != [] && a[0] == b[0] {
      LessTotal(a[1..], b[1..]);
      assert a == [a[0]] + a[1..] && b == [b[0]] + b[1..];
    }
  }

  /** Strictly ascending keys; in particular no key occurs twice. */
  ghost predicate Ascending<T>(key: T -> Name, xs: seq<T>) {
    forall i, j :: 0 <= i < j < |xs| ==> Less(key(xs[i]), key(xs[j]))
  }

  ghost predicate DistinctKeys<T>(key: T -> Name, xs: seq<T>) {
    forall i, j :: 0 <= i < j < |xs| ==> key(xs[i]) != key(xs[j])
  }

  function Insert<T>(key: T -> Name, x: T, xs: seq<T>): (r: seq<T>)
    ensures multiset(r) == multiset{x} + multiset(xs)
  {
    if xs == [] then [x] else
    assert xs == [xs[0]] + xs[1..];
    if Less(key(xs[0]), key(x)) then [xs[0]] + Insert(key, x, xs[1..]) else [x] + xs
  }

  /** A sorted rearrangement of `xs`. Where keys are distinct it is the only one (SortedUnique), so it
      stands for whatever sorting algorithm the library uses. */
  function SortBy<T>(key: T -> Name, xs: seq<T>): (r: seq<T>)
    ensures multiset(r) == multiset(xs)
  {
    if xs == [] then [] else
    assert xs == [xs[0]] + xs[1..];
    Insert(key, xs[0], SortBy(key, xs[1..]))
  }

  lemma SameElements<T>(xs: seq<T>, ys: seq<T>)
    requires multiset(xs) == multiset(ys)
    ensures |xs| == |ys|
    ensures forall x :: x in xs <==> x in ys
  {
    assert |multiset(xs)| == |multiset(ys)|;
    forall x ensures x in xs <==> x in ys {
      assert x in xs <==> x in multiset(xs);
      assert x in ys <==> x in multiset(ys);
    }
  }

  lemma {:induction false} InsertSorted<T>(key: T -> Name, x: T, xs: seq<T>)
    requires Ascending(key, xs)
    requires forall i :: 0 <= i < |xs| ==> key(xs[i]) != key(x)
    ensures Ascending(key, Insert(key, x, xs))
  {
    hide Less;
    if xs != [] {
      var rest := xs[1..];
      LessTotal(key(xs[0]), key(x));
      if Less(key(xs[0]), key(x)) {
        InsertSorted(key, x, rest);
        var r := Insert(key, x, rest);
        AboveBoth(key, xs[0], r, x, rest);
        Prepend(key, xs[0], r);
      } else {
        forall j | 0 <= j < |xs| ensures Less(key(x), key(xs[j])) {
          if j > 0 { LessTransitive(key(x), key(xs[0]), key(xs[j])); }
        }
        Prepend(key, x, xs);
      }
    }
  }

  /** Putting a key below all others in front keeps the order. */
  lemma Prepend<T>(key: T -> Name, x: T, r: seq<T>)
    requires Ascending(key, r)
    requires forall j :: 0 <= j < |r| ==> Less(key(x), key(r[j]))
    ensures Ascending(key, [x] + r)
  {
  }

  lemma AboveBoth<T>(key: T -> Name, low: T, r: seq<T>, x: T, rest: seq<T>)
    requires multiset(r) == multiset{x} + multiset(rest)
    requires Less(key(low), key(x))
    requires forall j :: 0 <= j < |rest| ==> Less(key(low), key(rest[j]))
    ensures forall j :: 0 <= j < |r| ==> Less(key(low), key(r[j]))
  {
    SameElements(r, [x] + rest);
    forall j | 0 <= j < |r| ensures Less(key(low), key(r[j])) {
      assert r[j] in r;
      assert r[j] in [x] + rest;
    }
  }

  lemma AvoidKey<T>(key: T -> Name, k: Name, r: seq<T>, all: seq<T>)
    requires multiset(r) == multiset(all)
    requires forall j :: 0 <= j < |all| ==> key(all[j]) != k
    ensures forall j :: 0 <= j < |r| ==> key(r[j]) != k
  {
    SameElements(r, all);
    forall j | 0 <= j < |r| ensures key(r[j]) != k {
      assert r[j] in r;
      assert r[j] in all;
    }
  }

  lemma {:induction false} SortByAscending<T>(key: T -> Name, xs: seq<T>)
    requires DistinctKeys(key, xs)
    ensures Ascending(key, SortBy(key, xs))
  {
    if xs != [] {
      var rest := xs[1..];
      SortByAscending(key, rest);
      var r := SortBy(key, rest);
      AvoidKey(key, key(xs[0]), r, rest);
      InsertSorted(key, xs[0], r);
    }
  }

  /** The least element comes first in every ascending rearrangement. */
  lemma SameHead<T>(key: T -> Name, xs: seq<T>, ys: seq<T>)
    requires Ascending(key, xs) && Ascending(key, ys) && multiset(xs) == multiset(ys) && xs != []
    ensures ys != [] && xs[0] == ys[0]
  {
    hide Less;
    SameElements(xs, ys);
    assert xs[0] in ys && ys[0] in xs;
    var i :| 0 <= i < |ys| && ys[i] == xs[0];
    var j :| 0 <= j < |xs| && xs[j] == ys[0];
    if i > 0 && j > 0 {
      LessTransitive(key(xs[0]), key(ys[0]), key(xs[0]));
      LessIrreflexive(key(xs[0]));
    }
  }

  lemma TailMultiset<T>(xs: seq<T>)
    requires xs != []
    ensures multiset(xs[1..]) == multiset(xs) - multiset{xs[0]}
  {
    assert xs == [xs[0]] + xs[1..];
  }

  /** Two ascending rearrangements of the same elements are the same sequence. */
  lemma {:induction false} SortedUnique<T>(key: T -> Name, xs: seq<T>, ys: seq<T>)
    requires Ascending(key, xs) && Ascending(key, ys) && multiset(xs) == multiset(ys)
    ensures xs == ys
  {
    hide Less;
    SameElements(xs, ys);
    if xs != [] {
      SameHead(key, xs, ys);
      TailMultiset(xs);
      TailMultiset(ys);
      SortedUnique(key, xs[1..], ys[1..]);
      assert xs == [xs[0]] + xs[1..] && ys == [ys[0]] + ys[1..];
    }
  }

  /** Sorting something already in order changes nothing. */
  lemma SortByFixed<T>(key: T -> Name, xs: seq<T>)
    requires Ascending(key, xs)
    ensures SortBy(key, xs) == xs
  {
    forall i, j | 0 <= i < j < |xs| ensures key(xs[i]) != key(xs[j]) {
      LessIrreflexive(key(xs[i]));
    }
    SortByAscending(key, xs);
    SortedUnique(key, SortBy(key, xs), xs);
  }
}
