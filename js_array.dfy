/**
 * `Array.prototype.filter`, `map` and `find` as the screens use them. A callback that throws
 * a TypeError is a callback returning None; the whole call then throws (None) as well.
 */
module JsArray {
  import opened Wrappers

  /** `a` is `b` with some elements left out, order kept. */
  ghost predicate IsSubsequence<T>(a: seq<T>, b: seq<T>)
    decreases |b|
  {
    if b == [] then a == []
    else
      || (a != [] && a[|a| - 1] == b[|b| - 1] && IsSubsequence(a[..|a| - 1], b[..|b| - 1]))
      || IsSubsequence(a, b[..|b| - 1])
  }

  /** Leaving nothing out is a subsequence. */
  lemma {:induction false} SubsequenceReflexive<T>(a: seq<T>)
    ensures IsSubsequence(a, a)
  {
    if a != [] {
      SubsequenceReflexive(a[..|a| - 1]);
    }
  }

  /** Leaving out elements twice is leaving out elements once. */
  lemma {:induction false} SubsequenceTransitive<T>(a: seq<T>, b: seq<T>, c: seq<T>)
    requires IsSubsequence(a, b) && IsSubsequence(b, c)
    ensures IsSubsequence(a, c)
    decreases |c|
  {
    if c != [] {
      var c' := c[..|c| - 1];
      if b != [] && b[|b| - 1] == c[|c| - 1] && IsSubsequence(b[..|b| - 1], c') {
        var b' := b[..|b| - 1];
        if a != [] && a[|a| - 1] == b[|b| - 1] && IsSubsequence(a[..|a| - 1], b') {
          SubsequenceTransitive(a[..|a| - 1], b', c');
        } else {
          SubsequenceTransitive(a, b', c');
        }
      } else {
        SubsequenceTransitive(a, b, c');
      }
    }
  }

  /** `s.filter(p)` with a callback that cannot throw: the passing elements, in order, none left out. */
  function Filter<T(==)>(s: seq<T>, p: T -> bool): (r: seq<T>)
    ensures |r| <= |s|
    ensures IsSubsequence(r, s)
    ensures forall i :: 0 <= i < |r| ==> p(r[i]) && r[i] in s
    ensures forall i :: 0 <= i < |s| && p(s[i]) ==> s[i] in r
  {
    if s == [] then []
    else
      var init := s[..|s| - 1];
      var last := s[|s| - 1];
      var f := Filter(init, p);
      if p(last) then
        var r := f + [last];
        assert r[..|r| - 1] == f && s[..|s| - 1] == init;
        r
      else
        assert s[..|s| - 1] == init;
        assert IsSubsequence(f, s[..|s| - 1]);
        f
  }

  /** The elements `s.filter(p)` leaves out, in order. */
  function Reject<T>(s: seq<T>, p: T -> bool): seq<T> {
    if s == [] then []
    else Reject(s[..|s| - 1], p) + (if p(s[|s| - 1]) then [] else [s[|s| - 1]])
  }

  /** Everything `Reject` returns fails the test. */
  lemma {:induction false} RejectFails<T>(s: seq<T>, p: T -> bool)
    ensures forall i :: 0 <= i < |Reject(s, p)| ==> !p(Reject(s, p)[i])
  {
    if s != [] {
      RejectFails(s[..|s| - 1], p);
    }
  }

  /** What a filter keeps and what it leaves out together are the whole array, counted with multiplicity. */
  lemma {:induction false} FilterPartition<T>(s: seq<T>, p: T -> bool)
    ensures multiset(Filter(s, p)) + multiset(Reject(s, p)) == multiset(s)
    ensures |Filter(s, p)| + |Reject(s, p)| == |s|
  {
    if s != [] {
      var init, last := s[..|s| - 1], s[|s| - 1];
      FilterPartition(init, p);
      assert s == init + [last];
      assert Filter(s, p) == Filter(init, p) + (if p(last) then [last] else []);
      assert Reject(s, p) == Reject(init, p) + (if p(last) then [] else [last]);
      SplitStep(Filter(init, p), Reject(init, p), init, last, p(last));
    }
  }

  /** A filter keeps every copy of a passing element and no copy of a failing one. */
  lemma FilterCount<T>(s: seq<T>, p: T -> bool, x: T)
    ensures multiset(Filter(s, p))[x] == if p(x) then multiset(s)[x] else 0
  {
    FilterPartition(s, p);
    if p(x) {
      RejectFails(s, p);
      assert x !in Reject(s, p);
    } else {
      assert x !in Filter(s, p);
    }
  }

  /** Sending one more element to one of two parts keeps them a split of the extended whole. */
  lemma SplitStep<T>(a: seq<T>, b: seq<T>, s: seq<T>, x: T, left: bool)
    requires multiset(a) + multiset(b) == multiset(s) && |a| + |b| == |s|
    ensures multiset(a + (if left then [x] else [])) + multiset(b + (if left then [] else [x])) == multiset(s + [x])
    ensures |a + (if left then [x] else [])| + |b + (if left then [] else [x])| == |s + [x]|
  {
    assert multiset(s + [x]) == multiset(s) + multiset{x};
    if left {
      assert multiset(a + [x]) == multiset(a) + multiset{x};
      assert b + [] == b;
    } else {
      assert multiset(b + [x]) == multiset(b) + multiset{x};
      assert a + [] == a;
    }
  }

  /** Filtering an extended array extends the filtered array by the new element when it is kept. */
  lemma FilterSnoc<T>(s: seq<T>, x: T, p: T -> bool)
    ensures Filter(s + [x], p) == Filter(s, p) + (if p(x) then [x] else [])
  {
    assert (s + [x])[..|s|] == s;
  }

  /** Filtering is idempotent: a filtered array passes the same filter unchanged. */
  lemma {:induction false} FilterIdempotent<T>(s: seq<T>, p: T -> bool)
    ensures Filter(Filter(s, p), p) == Filter(s, p)
  {
    AllPassFilter(Filter(s, p), p);
  }

  /** An array whose every element passes is returned whole. */
  lemma {:induction false} AllPassFilter<T>(s: seq<T>, p: T -> bool)
    requires forall i :: 0 <= i < |s| ==> p(s[i])
    ensures Filter(s, p) == s
  {
    if s != [] {
      AllPassFilter(s[..|s| - 1], p);
    }
  }

  /** Two filters whose conditions exclude each other keep at most as many elements as there are. */
  lemma {:induction false} DisjointFiltersFit<T>(s: seq<T>, p: T -> bool, q: T -> bool)
    requires forall i :: 0 <= i < |s| ==> !(p(s[i]) && q(s[i]))
    ensures |Filter(s, p)| + |Filter(s, q)| <= |s|
  {
    if s != [] {
      DisjointFiltersFit(s[..|s| - 1], p, q);
    }
  }

  /** Every callback succeeds on every element. */
  predicate AllDefined<T, U>(s: seq<T>, f: T -> Option<U>) {
    forall i :: 0 <= i < |s| ==> f(s[i]).Some?
  }

  /** The elements a throwing callback keeps: those it answers `true` for. */
  function Passes<T>(p: T -> Option<bool>): T -> bool {
    x => p(x) == Some(true)
  }

  /**
   * `s.filter(p)` where `p` may throw: the result exists exactly when no callback throws, and is
   * then the elements answered `true`, in order, none left out.
   */
  function FilterChecked<T(==)>(s: seq<T>, p: T -> Option<bool>): (r: Option<seq<T>>)
    ensures r.Some? <==> AllDefined(s, p)
    ensures r.Some? ==> r.value == Filter(s, Passes(p))
  {
    if AllDefined(s, p) then Some(Filter(s, Passes(p))) else None
  }

  /** `xs.map(f)` where `f` may throw: same length, each element mapped, in order. */
  function MapChecked<T, U>(xs: seq<T>, f: T -> Option<U>): (r: Option<seq<U>>)
    ensures r.Some? <==> AllDefined(xs, f)
    ensures r.Some? ==> |r.value| == |xs| && forall i :: 0 <= i < |xs| ==> f(xs[i]) == Some(r.value[i])
  {
    if xs == [] then Some([])
    else
      match MapChecked(xs[..|xs| - 1], f)
      case None => None
      case Some(init) =>
        match f(xs[|xs| - 1])
        case None => None
        case Some(y) => Some(init + [y])
  }

  /** `s.findIndex(p)`, with "not found" as `|s|`. */
  function FindIndex<T>(s: seq<T>, p: T -> bool): (k: nat)
    ensures k <= |s|
    ensures k < |s| ==> p(s[k])
    ensures forall j :: 0 <= j < k ==> !p(s[j])
  {
    if s == [] then 0 else if p(s[0]) then 0 else 1 + FindIndex(s[1..], p)
  }

  /** `s.find(p)`: the first element that passes, if any. */
  function Find<T>(s: seq<T>, p: T -> bool): (r: Option<T>)
    ensures r.None? <==> forall i :: 0 <= i < |s| ==> !p(s[i])
    ensures r.Some? ==> p(r.value) && r.value == s[FindIndex(s, p)]
  {
    var k := FindIndex(s, p);
    if k < |s| then Some(s[k]) else None
  }
}
