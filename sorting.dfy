/** Newest-first ordering: `Array.prototype.sort` with the comparator
    `(a, b) => key(b) - key(a)`. That sort is stable, and so is this insertion
    sort: of two elements with equal keys the earlier one stays first. */
module Sorting {
  import Seqs

  ghost predicate SortedDesc<T>(s: seq<T>, key: T -> int) {
    forall i, j :: 0 <= i < j < |s| ==> key(s[i]) >= key(s[j])
  }

  /** Places `x` before the first element whose key is not larger than its own. */
  function Insert<T>(x: T, s: seq<T>, key: T -> int): (r: seq<T>)
    ensures multiset(r) == multiset(s) + multiset{x}
    ensures SortedDesc(s, key) ==> SortedDesc(r, key)
  {
    if s == [] then [x]
    else if key(x) >= key(s[0]) then [x] + s
    else
      var rest := Insert(x, s[1..], key);
      assert s == [s[0]] + s[1..];
      assert SortedDesc(s, key) ==> SortedDesc([s[0]] + rest, key) by {
        if SortedDesc(s, key) {
          BoundedByHead(s, key);
          KeysBelow(rest, x, s[1..], key, key(s[0]));
          ConsSorted(s[0], rest, key);
        }
      }
      [s[0]] + rest
  }

  lemma BoundedByHead<T>(s: seq<T>, key: T -> int)
    requires s != [] && SortedDesc(s, key)
    ensures SortedDesc(s[1..], key)
    ensures forall i :: 0 <= i < |s[1..]| ==> key(s[1..][i]) <= key(s[0])
  {
    forall i | 0 <= i < |s[1..]| ensures key(s[1..][i]) <= key(s[0]) {
      assert s[1..][i] == s[i + 1];
    }
  }

  /** Every key of a permutation of `s` plus `x` stays under a common bound. */
  lemma KeysBelow<T>(r: seq<T>, x: T, s: seq<T>, key: T -> int, bound: int)
    requires multiset(r) == multiset(s) + multiset{x}
    requires key(x) <= bound
    requires forall i :: 0 <= i < |s| ==> key(s[i]) <= bound
    ensures forall j :: 0 <= j < |r| ==> key(r[j]) <= bound
  {
    forall j | 0 <= j < |r| ensures key(r[j]) <= bound {
      assert r[j] in multiset(r);
      assert r[j] == x || r[j] in multiset(s);
    }
  }

  lemma ConsSorted<T>(y: T, r: seq<T>, key: T -> int)
    requires SortedDesc(r, key)
    requires forall j :: 0 <= j < |r| ==> key(r[j]) <= key(y)
    ensures SortedDesc([y] + r, key)
  {
    var t := [y] + r;
    forall i, j | 0 <= i < j < |t| ensures key(t[i]) >= key(t[j]) {
      assert t[j] == r[j - 1];
      if i > 0 {
        assert t[i] == r[i - 1];
      }
    }
  }

  function SortDesc<T>(s: seq<T>, key: T -> int): (r: seq<T>)
    ensures multiset(r) == multiset(s)
    ensures SortedDesc(r, key)
  {
    if s == [] then []
    else
      assert s == [s[0]] + s[1..];
      Insert(s[0], SortDesc(s[1..], key), key)
  }

  /** The first element of a non-empty sorted result carries the largest key of the input. */
  lemma HeadIsLargest<T>(s: seq<T>, key: T -> int)
    requires s != []
    ensures SortDesc(s, key) != [] && SortDesc(s, key)[0] in s
    ensures forall i :: 0 <= i < |s| ==> key(s[i]) <= key(SortDesc(s, key)[0])
  {
    var r := SortDesc(s, key);
    assert |r| == |multiset(r)| == |s|;
    assert r[0] in multiset(r);
    forall i | 0 <= i < |s| ensures key(s[i]) <= key(r[0]) {
      assert s[i] in multiset(s);
      var k :| 0 <= k < |r| && r[k] == s[i];
    }
  }

  lemma SortDescCons<T>(y: T, t: seq<T>, key: T -> int)
    ensures SortDesc([y] + t, key) == Insert(y, SortDesc(t, key), key)
  {
    assert ([y] + t)[1..] == t;
  }

  lemma InsertPastLarger<T>(y: T, x: T, t: seq<T>, key: T -> int)
    requires key(y) < key(x)
    ensures Insert(y, [x] + t, key) == [x] + Insert(y, t, key)
  {
    assert ([x] + t)[1..] == t;
  }

  lemma InsertHeadOfSorted<T>(s: seq<T>, key: T -> int)
    requires s != [] && SortedDesc(s, key)
    ensures Insert(s[0], s[1..], key) == s
  {
    if |s| > 1 {
      assert key(s[0]) >= key(s[1]);
    }
    assert s == [s[0]] + s[1..];
  }

  /** Sorting a sorted sequence with a strictly newer element appended puts that
      element first and leaves the rest in place. */
  lemma {:induction false} SortAppendNewest<T>(s: seq<T>, x: T, key: T -> int)
    requires SortedDesc(s, key)
    requires forall i :: 0 <= i < |s| ==> key(s[i]) < key(x)
    ensures SortDesc(s + [x], key) == [x] + s
  {
    if s == [] {
      SortDescCons(x, [], key);
      assert s + [x] == [x] + [];
    } else {
      var rest := s[1..];
      assert s + [x] == [s[0]] + (rest + [x]);
      SortDescCons(s[0], rest + [x], key);
      assert SortedDesc(rest, key);
      SortAppendNewest(rest, x, key);
      InsertPastLarger(s[0], x, rest, key);
      InsertHeadOfSorted(s, key);
    }
  }

  /** `x => key(x) === k` */
  function HasKey<T>(key: T -> int, k: int): T -> bool {
    (x: T) => key(x) == k
  }

  /** Inserting `x` puts it in front of every element of `s` that has the same key. */
  lemma {:induction false} InsertBeforeEqualKeys<T>(x: T, s: seq<T>, key: T -> int, k: int)
    ensures Seqs.Filter(Insert(x, s, key), HasKey(key, k))
         == if key(x) == k then [x] + Seqs.Filter(s, HasKey(key, k)) else Seqs.Filter(s, HasKey(key, k))
  {
    var p := HasKey(key, k);
    if s == [] {
      Seqs.FilterCons(x, [], p);
    } else if key(x) >= key(s[0]) {
      Seqs.FilterCons(x, s, p);
    } else {
      assert s == [s[0]] + s[1..];
      Seqs.FilterCons(s[0], Insert(x, s[1..], key), p);
      Seqs.FilterCons(s[0], s[1..], p);
      InsertBeforeEqualKeys(x, s[1..], key, k);
    }
  }

  /** The sort is stable: the elements sharing any one key keep their input order. */
  lemma {:induction false} SortDescStable<T>(s: seq<T>, key: T -> int, k: int)
    ensures Seqs.Filter(SortDesc(s, key), HasKey(key, k)) == Seqs.Filter(s, HasKey(key, k))
  {
    if s != [] {
      var t := s[1..];
      assert s == [s[0]] + t;
      SortDescStable(t, key, k);
      SortDescCons(s[0], t, key);
      InsertBeforeEqualKeys(s[0], SortDesc(t, key), key, k);
      Seqs.FilterCons(s[0], t, HasKey(key, k));
    }
  }
}
