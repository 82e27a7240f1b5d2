/** The byte-wise lexicographic order of strings and actor identifiers, and sorting by it. */
module LexOrder {
  import opened Sequences

  newtype Byte = b: int | 0 <= b < 256
  type Bytes = seq<Byte>

  predicate Less(a: Bytes, b: Bytes) {
    if b == [] then false
    else if a == [] then true
    else a[0] < b[0] || (a[0] == b[0] && Less(a[1..], b[1..]))
  }

  ghost predicate StrictTotalOrder<T(!new)>(less: (T, T) -> bool) {
    && (forall x :: !less(x, x))
    && (forall x, y, z :: less(x, y) && less(y, z) ==> less(x, z))
    && (forall x, y :: x == y || less(x, y) || less(y, x))
  }

  lemma {:induction false} Irreflexive(a: Bytes)
    ensures !Less(a, a)
  {
    if a != [] {
      Irreflexive(a[1..]);
    }
  }

  lemma {:induction false} Transitive(a: Bytes, b: Bytes, c: Bytes)
    requires Less(a, b) && Less(b, c)
    ensures Less(a, c)
  {
    if a != [] && a[0] == b[0] && b[0] == c[0] {
      Transitive(a[1..], b[1..], c[1..]);
    }
  }

  lemma {:induction false} Total(a: Bytes, b: Bytes)
    ensures a == b || Less(a, b) || Less(b, a)
  {
    if a != [] && b != [] && a[0] == b[0] {
      Total(a[1..], b[1..]);
      assert a == [a[0]] + a[1..] && b == [b[0]] + b[1..];
    }
  }

  /** `a` is smaller at place `k`: it ends there and `b` goes on, or it has the smaller byte after equal ones. */
  ghost predicate SmallerAt(a: Bytes, b: Bytes, k: nat) {
    && k <= |a| && k < |b| && (forall i :: 0 <= i < k ==> a[i] == b[i])
    && (k == |a| || a[k] < b[k])
  }

  /** The order without recursion: a proper prefix comes first, else the first different byte decides. */
  lemma {:induction false} LessIff(a: Bytes, b: Bytes)
    ensures Less(a, b) <==> exists k: nat :: SmallerAt(a, b, k)
  {
    if b == [] {
    } else if a == [] {
      assert SmallerAt(a, b, 0);
    } else {
      LessIff(a[1..], b[1..]);
      if a[0] < b[0] {
        assert SmallerAt(a, b, 0);
      } else if a[0] == b[0] && Less(a[1..], b[1..]) {
        var k: nat :| SmallerAt(a[1..], b[1..], k);
        assert forall i :: 1 <= i < k + 1 ==> a[i] == a[1..][i - 1] && b[i] == b[1..][i - 1];
        assert SmallerAt(a, b, k + 1);
      }
      if k: nat :| SmallerAt(a, b, k) {
        if k > 0 {
          assert SmallerAt(a[1..], b[1..], k - 1);
        }
      }
    }
  }

  lemma LessIsStrictTotal()
    ensures StrictTotalOrder(Less)
  {
    forall a ensures !Less(a, a) { Irreflexive(a); }
    forall a, b, c | Less(a, b) && Less(b, c) ensures Less(a, c) { Transitive(a, b, c); }
    forall a, b ensures a == b || Less(a, b) || Less(b, a) { Total(a, b); }
  }

  ghost predicate Sorted<T>(less: (T, T) -> bool, s: seq<T>) {
    forall i, j :: 0 <= i < j < |s| ==> less(s[i], s[j])
  }

  lemma FirstOf<T>(s: seq<T>) returns (x: T)
    requires s != []
    ensures x in s
  {
    x := s[0];
  }

  /** A sorted sequence of names stays sorted when a name after all of them is added. */
  lemma SortedPush<T>(less: (T, T) -> bool, s: seq<T>, x: T)
    requires Sorted(less, s) && forall i :: 0 <= i < |s| ==> s[i] in s ==> less(s[i], x)
    ensures Sorted(less, s + [x])
  {
    forall i | 0 <= i < |s| ensures less(s[i], x) {
      assert s[i] in s;
    }
  }

  /** A strictly sorted sequence is determined by its elements. */
  lemma {:induction false} SortedUnique<T(!new)>(less: (T, T) -> bool, s: seq<T>, t: seq<T>)
    requires StrictTotalOrder(less) && Sorted(less, s) && Sorted(less, t)
    requires forall x :: x in s <==> x in t
    ensures s == t
  {
    if s == [] {
      if t != [] {
        var x := FirstOf(t);
      }
    } else {
      assert s[0] in t && t[0] in s;
      assert s[0] == t[0];
      forall x ensures x in s[1..] <==> x in t[1..] {
        if x in s[1..] {
          var i :| 1 <= i < |s| && s[i] == x;
          assert less(s[0], x) && x in t;
        }
        if x in t[1..] {
          var i :| 1 <= i < |t| && t[i] == x;
          assert less(t[0], x) && x in s;
        }
      }
      SortedUnique(less, s[1..], t[1..]);
    }
  }

  lemma {:induction false} HasLeast(s: set<Bytes>) returns (least: Bytes)
    requires s != {}
    ensures least in s && forall y :: y in s && y != least ==> Less(least, y)
    decreases s
  {
    LessIsStrictTotal();
    least :| least in s;
    if s != {least} {
      var rest := HasLeast(s - {least});
      if Less(rest, least) {
        least := rest;
      }
    }
  }

  /** Sorts a set of names, as a library sort does. */
  method SortNames(names: set<Bytes>) returns (r: seq<Bytes>)
    ensures Sorted(Less, r) && Elems(r) == names
  {
    r := [];
    var rest := names;
    while rest != {}
      invariant Sorted(Less, r) && Elems(r) + rest == names
      invariant forall x, y :: x in r && y in rest ==> Less(x, y)
      decreases rest
    {
      ghost var witness_ := HasLeast(rest);
      var x :| x in rest && forall y :: y in rest && y != x ==> Less(x, y);
      r := r + [x];
      rest := rest - {x};
    }
  }

  // ---------------------------------------------------------------------------
  // A stable sort by a name

  /** Inserts behind every entry whose key is not greater. */
  function InsertBy<T>(key: T -> Bytes, s: seq<T>, x: T): (r: seq<T>)
    ensures |r| == |s| + 1
  {
    if s == [] || !Less(key(x), key(s[|s| - 1])) then s + [x]
    else InsertBy(key, s[..|s| - 1], x) + [s[|s| - 1]]
  }

  function SortBy<T>(key: T -> Bytes, s: seq<T>): (r: seq<T>)
    ensures |r| == |s|
  {
    if s == [] then [] else InsertBy(key, SortBy(key, s[..|s| - 1]), s[|s| - 1])
  }

  ghost predicate SortedBy<T>(key: T -> Bytes, s: seq<T>) {
    forall i, j :: 0 <= i < j < |s| ==> !Less(key(s[j]), key(s[i]))
  }

  /** No two entries have one key. */
  ghost predicate DistinctBy<T>(key: T -> Bytes, s: seq<T>) {
    forall i, j :: 0 <= i < j < |s| ==> key(s[i]) != key(s[j])
  }

  lemma {:induction false} InsertPermutes<T>(key: T -> Bytes, s: seq<T>, x: T)
    ensures multiset(InsertBy(key, s, x)) == multiset(s) + multiset{x}
  {
    if s != [] && Less(key(x), key(s[|s| - 1])) {
      InsertPermutes(key, s[..|s| - 1], x);
      assert s == s[..|s| - 1] + [s[|s| - 1]];
    }
  }

  lemma {:induction false} SortPermutes<T>(key: T -> Bytes, s: seq<T>)
    ensures multiset(SortBy(key, s)) == multiset(s)
  {
    if s != [] {
      var init, last := s[..|s| - 1], s[|s| - 1];
      SortPermutes(key, init);
      InsertPermutes(key, SortBy(key, init), last);
      assert s == init + [last];
    }
  }

  lemma SortHolds<T>(key: T -> Bytes, s: seq<T>, x: T)
    ensures x in SortBy(key, s) <==> x in s
  {
    SortPermutes(key, s);
    assert x in SortBy(key, s) <==> x in multiset(SortBy(key, s));
    assert x in s <==> x in multiset(s);
  }

  lemma LessAsymmetric(a: Bytes, b: Bytes)
    requires Less(a, b)
    ensures !Less(b, a) && a != b
  {
    Irreflexive(a);
    if Less(b, a) {
      Transitive(a, b, a);
    }
  }

  lemma {:induction false} InsertSorted<T>(key: T -> Bytes, s: seq<T>, x: T)
    requires SortedBy(key, s)
    ensures SortedBy(key, InsertBy(key, s, x))
  {
    if s == [] {
    } else if Less(key(x), key(s[|s| - 1])) {
      var init, last := s[..|s| - 1], s[|s| - 1];
      InsertSorted(key, init, x);
      LessAsymmetric(key(x), key(last));
      forall y | y in InsertBy(key, init, x) ensures !Less(key(last), key(y)) {
        InsertHolds(key, init, x, y);
      }
    } else {
      forall y | y in s ensures !Less(key(x), key(y)) {
        Irreflexive(key(s[|s| - 1]));
        NotBelow(key(x), key(s[|s| - 1]), key(y));
      }
    }
  }

  lemma NotBelow(a: Bytes, b: Bytes, c: Bytes)
    requires !Less(a, b) && !Less(b, c)
    ensures !Less(a, c)
  {
    LessIsStrictTotal();
  }

  lemma InsertHolds<T>(key: T -> Bytes, s: seq<T>, x: T, y: T)
    ensures y in InsertBy(key, s, x) <==> y in s || y == x
  {
    InsertPermutes(key, s, x);
    assert y in InsertBy(key, s, x) <==> y in multiset(InsertBy(key, s, x));
    assert y in s <==> y in multiset(s);
  }

  lemma {:induction false} SortSorts<T>(key: T -> Bytes, s: seq<T>)
    ensures SortedBy(key, SortBy(key, s))
  {
    if s != [] {
      SortSorts(key, s[..|s| - 1]);
      InsertSorted(key, SortBy(key, s[..|s| - 1]), s[|s| - 1]);
    }
  }

  function KeySet<T(==)>(key: T -> Bytes, s: seq<T>): set<Bytes> {
    set x | x in s :: key(x)
  }

  lemma DistinctPush<T>(key: T -> Bytes, s: seq<T>, x: T)
    ensures KeySet(key, s + [x]) == KeySet(key, s) + {key(x)}
    ensures DistinctBy(key, s + [x]) <==> DistinctBy(key, s) && key(x) !in KeySet(key, s)
  {
    var more := s + [x];
    assert more[|s|] == x && forall i :: 0 <= i < |s| ==> more[i] == s[i];
    forall k ensures k in KeySet(key, more) <==> k in KeySet(key, s) + {key(x)} {
      if k in KeySet(key, s) {
        var y :| y in s && key(y) == k;
        assert y in more;
      }
      assert x in more;
    }
  }

  lemma {:induction false} InsertDistinct<T>(key: T -> Bytes, s: seq<T>, x: T)
    ensures KeySet(key, InsertBy(key, s, x)) == KeySet(key, s) + {key(x)}
    ensures DistinctBy(key, InsertBy(key, s, x)) <==> DistinctBy(key, s) && key(x) !in KeySet(key, s)
  {
    if s == [] || !Less(key(x), key(s[|s| - 1])) {
      DistinctPush(key, s, x);
    } else {
      var init, last := s[..|s| - 1], s[|s| - 1];
      assert s == init + [last];
      InsertDistinct(key, init, x);
      DistinctSwap(key, init, last, InsertBy(key, init, x), x);
    }
  }

  lemma DistinctSwap<T>(key: T -> Bytes, init: seq<T>, last: T, inserted: seq<T>, x: T)
    requires KeySet(key, inserted) == KeySet(key, init) + {key(x)}
    requires DistinctBy(key, inserted) <==> DistinctBy(key, init) && key(x) !in KeySet(key, init)
    ensures KeySet(key, inserted + [last]) == KeySet(key, init + [last]) + {key(x)}
    ensures DistinctBy(key, inserted + [last]) <==>
            DistinctBy(key, init + [last]) && key(x) !in KeySet(key, init + [last])
  {
    DistinctPush(key, init, last);
    DistinctPush(key, inserted, last);
  }

  /** A sort neither hides nor makes a repeated key. */
  lemma {:induction false} SortDistinct<T>(key: T -> Bytes, s: seq<T>)
    ensures KeySet(key, SortBy(key, s)) == KeySet(key, s)
    ensures DistinctBy(key, SortBy(key, s)) <==> DistinctBy(key, s)
  {
    if s != [] {
      var init, last := s[..|s| - 1], s[|s| - 1];
      SortDistinct(key, init);
      InsertDistinct(key, SortBy(key, init), last);
      DistinctPush(key, init, last);
      assert s == init + [last];
    }
  }

  /** Two sorted listings of the same entries with distinct keys are equal. */
  lemma {:induction false} SortedSame<T>(key: T -> Bytes, s: seq<T>, t: seq<T>)
    requires SortedBy(key, s) && SortedBy(key, t) && DistinctBy(key, s) && DistinctBy(key, t)
    requires forall x :: x in s <==> x in t
    ensures s == t
  {
    if s == [] {
      if t != [] {
        var x := FirstOf(t);
      }
    } else {
      assert s[0] in t && t[0] in s;
      var i :| 0 <= i < |t| && t[i] == s[0];
      var j :| 0 <= j < |s| && s[j] == t[0];
      Total(key(s[0]), key(t[0]));
      forall x ensures x in s[1..] <==> x in t[1..] {
        TailHolds(key, s, x);
        TailHolds(key, t, x);
      }
      SortedSame(key, s[1..], t[1..]);
    }
  }

  lemma TailHolds<T>(key: T -> Bytes, s: seq<T>, x: T)
    requires s != [] && DistinctBy(key, s)
    ensures x in s[1..] <==> x in s && x != s[0]
  {
    if x in s && x != s[0] {
      var i :| 0 <= i < |s| && s[i] == x;
      assert s[1..][i - 1] == x;
    }
  }
}
