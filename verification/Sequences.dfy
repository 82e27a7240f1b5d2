/** Facts about finite sequences that several of the models share. */
module Sequences {

  ghost predicate NoDup<T>(s: seq<T>) {
    forall i, j :: 0 <= i < j < |s| ==> s[i] != s[j]
  }

  function Elems<T>(s: seq<T>): set<T> {
    set x | x in s
  }

  /** Keeps the entries of `s` that lie in `keep`, in their order. */
  function Filter<T>(s: seq<T>, keep: set<T>): (r: seq<T>)
    ensures |r| <= |s|
    ensures forall i :: 0 <= i < |r| ==> r[i] in s && r[i] in keep
    ensures forall i :: 0 <= i < |s| && s[i] in keep ==> s[i] in r
  {
    if s == [] then []
    else if s[0] in keep then [s[0]] + Filter(s[1..], keep)
    else Filter(s[1..], keep)
  }

  lemma {:induction false} FilterNoDup<T>(s: seq<T>, keep: set<T>)
    requires NoDup(s)
    ensures NoDup(Filter(s, keep))
  {
    if s != [] {
      FilterNoDup(s[1..], keep);
    }
  }

  lemma {:induction false} FilterDistributes<T>(s: seq<T>, t: seq<T>, keep: set<T>)
    ensures Filter(s + t, keep) == Filter(s, keep) + Filter(t, keep)
  {
    if s == [] {
      assert s + t == t;
    } else {
      assert (s + t)[1..] == s[1..] + t;
      FilterDistributes(s[1..], t, keep);
    }
  }

  lemma NoDupAppend<T>(s: seq<T>, t: seq<T>)
    requires NoDup(s) && NoDup(t)
    requires forall i :: 0 <= i < |t| ==> t[i] !in s
    ensures NoDup(s + t)
  {
  }

  /** A duplicate-free sequence is as long as its set of elements. */
  lemma {:induction false} NoDupSize<T>(s: seq<T>)
    requires NoDup(s)
    ensures |Elems(s)| == |s|
  {
    if s != [] {
      var init := s[..|s| - 1];
      NoDupSize(init);
      assert Elems(s) == Elems(init) + {s[|s| - 1]};
    }
  }

  lemma SubsetSize<T>(a: set<T>, b: set<T>)
    requires a <= b
    ensures |a| <= |b|
  {
    assert b == a + (b - a);
  }

  lemma NoDupBound<T>(s: seq<T>, bound: set<T>)
    requires NoDup(s) && Elems(s) <= bound
    ensures |s| <= |bound|
  {
    NoDupSize(s);
    SubsetSize(Elems(s), bound);
  }

  /** Lists a set in some order, the way a hash map or an unordered query does. */
  method Listing<T>(s: set<T>) returns (r: seq<T>)
    ensures NoDup(r) && Elems(r) == s
  {
    r := [];
    var rest := s;
    while rest != {}
      invariant NoDup(r) && Elems(r) !! rest && Elems(r) + rest == s
      decreases rest
    {
      var x :| x in rest;
      r := r + [x];
      rest := rest - {x};
    }
  }
}
