/** Generic helpers shared by the model: an optional value and the
    order-preserving de-duplication that `Array.from(new Set(xs))` performs. */
module Base {

  datatype Option<+T> = None | Some(value: T)

  /** `xs.find(x => key(x) === k)`: the first element with the key. */
  function Find<T>(xs: seq<T>, k: string, key: T -> string): (r: Option<T>)
    ensures r.Some? ==> r.value in xs && key(r.value) == k
    ensures r.Some? ==> exists i :: 0 <= i < |xs| && xs[i] == r.value
                          && forall j :: 0 <= j < i ==> key(xs[j]) != k
    ensures r.None? <==> forall i :: 0 <= i < |xs| ==> key(xs[i]) != k
  {
    if xs == [] then None
    else if key(xs[0]) == k then Some(xs[0])
    else
      var r := Find(xs[1..], k, key);
      assert forall i :: 1 <= i < |xs| ==> xs[i] == xs[1..][i - 1];
      assert r.Some? ==> exists i :: 1 <= i < |xs| && xs[i] == r.value
                           && forall j :: 0 <= j < i ==> key(xs[j]) != k by {
        if r.Some? {
          var i :| 0 <= i < |xs[1..]| && xs[1..][i] == r.value
                   && forall j :: 0 <= j < i ==> key(xs[1..][j]) != k;
          assert xs[i + 1] == r.value;
        }
      }
      r
  }

  /** No element occurs twice. */
  predicate NoDup<T(==)>(s: seq<T>) {
    forall i, j :: 0 <= i < j < |s| ==> s[i] != s[j]
  }

  /** `Array.from(new Set(s))`: the distinct elements of `s`, each at its
      first occurrence, in the order they first occur. */
  function Distinct<T(==,!new)>(s: seq<T>): (r: seq<T>)
    ensures NoDup(r)
    ensures forall x :: x in r <==> x in s
    ensures |s| > 0 ==> |r| > 0 && r[0] == s[0]
  {
    if s == [] then []
    else
      var d := Distinct(s[..|s| - 1]);
      assert forall x :: x in s <==> x in s[..|s| - 1] || x == s[|s| - 1];
      if s[|s| - 1] in d then d else d + [s[|s| - 1]]
  }

  /** Exactly one distinct value: `Array.from(new Set(s)).length === 1`
      holds exactly when `s` is non-empty and constant. */
  lemma DistinctSingleton<T(!new)>(s: seq<T>)
    ensures |Distinct(s)| == 1 <==> |s| > 0 && forall i :: 0 <= i < |s| ==> s[i] == s[0]
  {
    var r := Distinct(s);
    if |r| == 1 {
      forall i | 0 <= i < |s| ensures s[i] == s[0] {
        assert s[i] in r && s[0] in r;
      }
    }
    if |s| > 0 && forall i :: 0 <= i < |s| ==> s[i] == s[0] {
      if |r| > 1 {
        assert r[1] in s;
        assert r[0] != r[1];
      }
    }
  }

  /** More than one distinct value exactly when two elements differ. */
  lemma DistinctMany<T(!new)>(s: seq<T>)
    ensures |Distinct(s)| > 1 <==> exists i, j :: 0 <= i < |s| && 0 <= j < |s| && s[i] != s[j]
  {
    DistinctSingleton(s);
    if exists i, j :: 0 <= i < |s| && 0 <= j < |s| && s[i] != s[j] {
      var i, j :| 0 <= i < |s| && 0 <= j < |s| && s[i] != s[j];
      assert s[i] != s[0] || s[j] != s[0];
    }
  }

  /** A duplicate-free sequence of one repeated value has at most one
      element. */
  lemma NoDupConstant<T>(s: seq<T>, v: T)
    requires NoDup(s) && forall x :: x in s ==> x == v
    ensures |s| <= 1
  {
    FirstTwoIn(s);
  }

  /** The first element of a non-empty sequence is one of its elements. */
  lemma FirstIn<T>(s: seq<T>)
    ensures s != [] ==> s[0] in s
  {
  }

  /** The first two elements of a longer sequence are among its elements. */
  lemma FirstTwoIn<T>(s: seq<T>)
    ensures |s| > 1 ==> s[0] in s && s[1] in s
  {
  }

  /** `s.filter(keep)`: the elements that pass, in order. */
  function Filter<T(!new)>(s: seq<T>, keep: T -> bool): (r: seq<T>)
    ensures |r| <= |s|
    ensures forall x :: x in r <==> x in s && keep(x)
  {
    if s == [] then []
    else
      var init := s[..|s| - 1];
      var last := s[|s| - 1];
      assert forall x :: x in s <==> x in init || x == last;
      Filter(init, keep) + (if keep(last) then [last] else [])
  }

  /** Filtering distributes over concatenation: what passes keeps its
      order. */
  lemma {:induction false} FilterAppend<T(!new)>(a: seq<T>, b: seq<T>, keep: T -> bool)
    ensures Filter(a + b, keep) == Filter(a, keep) + Filter(b, keep)
  {
    if b == [] {
      assert a + b == a;
    } else {
      var init := b[..|b| - 1];
      var last := b[|b| - 1];
      assert (a + b)[..|a + b| - 1] == a + init;
      assert (a + b)[|a + b| - 1] == last;
      FilterAppend(a, init, keep);
    }
  }

  /** Two sequences that agree on what passes, position by position, and
      on every element that passes, filter to the same sequence. */
  lemma {:induction false} SameFilter<T(!new)>(a: seq<T>, b: seq<T>, keep: T -> bool)
    requires |a| == |b|
    requires forall i :: 0 <= i < |a| ==> keep(a[i]) == keep(b[i]) && (keep(a[i]) ==> a[i] == b[i])
    ensures Filter(a, keep) == Filter(b, keep)
  {
    if a != [] {
      var n := |a| - 1;
      assert forall i :: 0 <= i < n ==> a[..n][i] == a[i] && b[..n][i] == b[i];
      SameFilter(a[..n], b[..n], keep);
    }
  }

  /** A filter splits at every index, and on one element keeps it exactly
      when it passes: together, the elements that pass in their order. */
  lemma FilterOrder<T(!new)>(s: seq<T>, keep: T -> bool)
    ensures forall k :: 0 <= k <= |s| ==> Filter(s, keep) == Filter(s[..k], keep) + Filter(s[k..], keep)
    ensures forall i :: 0 <= i < |s| ==> Filter([s[i]], keep) == if keep(s[i]) then [s[i]] else []
  {
    forall k | 0 <= k <= |s|
      ensures Filter(s, keep) == Filter(s[..k], keep) + Filter(s[k..], keep)
    {
      assert s == s[..k] + s[k..];
      FilterAppend(s[..k], s[k..], keep);
    }
    forall i | 0 <= i < |s|
      ensures Filter([s[i]], keep) == if keep(s[i]) then [s[i]] else []
    {
      assert [s[i]][..0] == [];
    }
  }

  /** Filtering a duplicate-free sequence keeps it duplicate-free. */
  lemma {:induction false} FilterNoDup<T(!new)>(s: seq<T>, keep: T -> bool)
    requires NoDup(s)
    ensures NoDup(Filter(s, keep))
  {
    if s != [] {
      var init := s[..|s| - 1];
      var last := s[|s| - 1];
      assert NoDup(init);
      FilterNoDup(init, keep);
      assert last !in init;
      var f := Filter(init, keep);
      if keep(last) {
        forall i, j | 0 <= i < j < |f + [last]| ensures (f + [last])[i] != (f + [last])[j] {
          if j == |f| {
            assert (f + [last])[i] == f[i] && f[i] in f;
          }
        }
      } else {
        assert Filter(s, keep) == f + [];
      }
    }
  }

  /** A filter every element passes keeps the sequence. */
  lemma {:induction false} FilterKeepsAll<T(!new)>(s: seq<T>, keep: T -> bool)
    requires forall x :: x in s ==> keep(x)
    ensures Filter(s, keep) == s
  {
    if s != [] {
      var init := s[..|s| - 1];
      var last := s[|s| - 1];
      assert forall x :: x in init ==> x in s;
      FilterKeepsAll(init, keep);
      assert keep(last) by {
        assert last in s;
      }
      assert Filter(s, keep) == init + [last];
      assert init + [last] == s;
    }
  }
}
