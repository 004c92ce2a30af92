/** Small value types and sequence helpers shared by every page and hook model. */
module Common {

  /** A value that JavaScript may leave `null` or `undefined`. */
  datatype Option<T> = None | Some(value: T) {
    function GetOr(default: T): T {
      match this
      case Some(v) => v
      case None => default
    }
  }

  /** Outcome of a step that either produces a value or reports errors. */
  datatype Result<T, E> = Ok(value: T) | Err(error: E)

  /** A browser `File`, as far as the pages look at it. */
  datatype FileInfo = FileInfo(name: string, mimeType: string)

  /** `a` keeps some of the elements of `b`, in the same relative order. */
  predicate IsSubsequence<T(==)>(a: seq<T>, b: seq<T>)
    decreases |b|
  {
    if a == [] then true
    else if b == [] then false
    else if a[0] == b[0] then IsSubsequence(a[1..], b[1..])
    else IsSubsequence(a, b[1..])
  }

  /** Array.prototype.filter: keeps, in order, the elements satisfying `p`. */
  function Filter<T>(s: seq<T>, p: T -> bool): (r: seq<T>)
    ensures |r| <= |s|
  {
    if s == [] then []
    else if p(s[0]) then [s[0]] + Filter(s[1..], p)
    else Filter(s[1..], p)
  }

  /** What `Filter` keeps: exactly the elements satisfying `p`. */
  lemma {:induction false} FilterMembers<T>(s: seq<T>, p: T -> bool)
    ensures forall x :: x in Filter(s, p) <==> x in s && p(x)
  {
    if s != [] {
      FilterMembers(s[1..], p);
      assert s == [s[0]] + s[1..];
    }
  }

  /** `Filter` keeps the relative order of what it keeps. */
  lemma {:induction false} FilterIsSubsequence<T>(s: seq<T>, p: T -> bool)
    ensures IsSubsequence(Filter(s, p), s)
  {
    if s != [] {
      FilterIsSubsequence(s[1..], p);
      var r := Filter(s[1..], p);
      if !p(s[0]) && r != [] {
        FilterMembers(s[1..], p);
        assert r[0] in r;
      }
    }
  }

  /** One step of `Filter` at position `i`. */
  lemma FilterStep<T>(s: seq<T>, i: int, p: T -> bool)
    requires 0 <= i < |s|
    ensures Filter(s[i..], p) == (if p(s[i]) then [s[i]] else []) + Filter(s[i + 1..], p)
  {
    assert s[i..][1..] == s[i + 1..];
  }

  lemma {:induction false} FilterAppend<T>(a: seq<T>, b: seq<T>, p: T -> bool)
    ensures Filter(a + b, p) == Filter(a, p) + Filter(b, p)
  {
    if a == [] {
      assert a + b == b;
    } else {
      assert (a + b)[1..] == a[1..] + b;
      FilterAppend(a[1..], b, p);
    }
  }

  /** Filtering by `p` first loses nothing that `q` would keep when `q`
      implies `p`. */
  lemma {:induction false} FilterNarrower<T>(s: seq<T>, p: T -> bool, q: T -> bool)
    requires forall x :: q(x) ==> p(x)
    ensures Filter(Filter(s, p), q) == Filter(s, q)
  {
    if s != [] {
      FilterNarrower(s[1..], p, q);
    }
  }

  /** Filtering by `p` first leaves nothing for a `q` that excludes `p`. */
  lemma {:induction false} FilterDisjoint<T>(s: seq<T>, p: T -> bool, q: T -> bool)
    requires forall x :: q(x) ==> !p(x)
    ensures Filter(Filter(s, p), q) == []
  {
    if s != [] {
      FilterDisjoint(s[1..], p, q);
    }
  }

  /** A test every element passes keeps the whole sequence. */
  lemma {:induction false} FilterAll<T>(s: seq<T>, p: T -> bool)
    requires forall i :: 0 <= i < |s| ==> p(s[i])
    ensures Filter(s, p) == s
  {
    if s != [] {
      FilterAll(s[1..], p);
    }
  }

  /** Two tests that agree on every element keep the same elements. */
  lemma {:induction false} FilterCongruent<T>(s: seq<T>, p: T -> bool, q: T -> bool)
    requires forall i :: 0 <= i < |s| ==> p(s[i]) == q(s[i])
    ensures Filter(s, p) == Filter(s, q)
  {
    if s != [] {
      FilterCongruent(s[1..], p, q);
    }
  }

  /** `filter(p).length`: the number of elements satisfying `p`. */
  function CountWhere<T>(s: seq<T>, p: T -> bool): (n: nat)
    ensures n <= |s|
    ensures n == |Filter(s, p)|
    ensures n == 0 <==> forall i :: 0 <= i < |s| ==> !p(s[i])
    ensures n == |s| <==> forall i :: 0 <= i < |s| ==> p(s[i])
  {
    if s == [] then 0
    else (if p(s[0]) then 1 else 0) + CountWhere(s[1..], p)
  }

  /** Counting by a test that is the disjoint union of two others adds their
      counts, which together never exceed the length. */
  lemma {:induction false} CountWhereSplit<T>(s: seq<T>, r: T -> bool, p: T -> bool, q: T -> bool)
    requires forall x :: r(x) <==> p(x) || q(x)
    requires forall x :: !(p(x) && q(x))
    ensures CountWhere(s, r) == CountWhere(s, p) + CountWhere(s, q)
    ensures CountWhere(s, p) + CountWhere(s, q) <= |s|
  {
    if s != [] {
      CountWhereSplit(s[1..], r, p, q);
    }
  }

  /** Array.prototype.find: the first element satisfying `p`, if any. */
  function Find<T>(s: seq<T>, p: T -> bool): (r: Option<T>)
    ensures r.None? <==> forall i :: 0 <= i < |s| ==> !p(s[i])
    ensures r.Some? ==> exists k :: 0 <= k < |s| && s[k] == r.value && p(s[k])
                                    && forall i :: 0 <= i < k ==> !p(s[i])
  {
    if s == [] then None
    else if p(s[0]) then Some(s[0])
    else
      var t := Find(s[1..], p);
      if t.Some? then
        ghost var k :| 0 <= k < |s[1..]| && s[1..][k] == t.value && p(s[1..][k])
                       && forall i :: 0 <= i < k ==> !p(s[1..][i]);
        assert s[k + 1] == t.value;
        t
      else t
  }

  /** Elements before that all fail the test do not change what `Find` finds. */
  lemma {:induction false} FindAfterMisses<T>(a: seq<T>, b: seq<T>, p: T -> bool)
    requires forall i :: 0 <= i < |a| ==> !p(a[i])
    ensures Find(a + b, p) == Find(b, p)
  {
    if a != [] {
      assert (a + b)[1..] == a[1..] + b;
      FindAfterMisses(a[1..], b, p);
    } else {
      assert a + b == b;
    }
  }

  /** Once `Find` succeeds, what follows does not matter. */
  lemma {:induction false} FindBeforeRest<T>(a: seq<T>, b: seq<T>, p: T -> bool)
    requires Find(a, p).Some?
    ensures Find(a + b, p) == Find(a, p)
  {
    assert a != [];
    if !p(a[0]) {
      assert (a + b)[1..] == a[1..] + b;
      FindBeforeRest(a[1..], b, p);
    }
  }

  /** `reduce((acc, x) => acc + f(x), 0)` over reals. */
  function SumBy<T>(s: seq<T>, f: T -> real): real
  {
    if s == [] then 0.0 else f(s[0]) + SumBy(s[1..], f)
  }

  lemma {:induction false} SumByAppend<T>(a: seq<T>, b: seq<T>, f: T -> real)
    ensures SumBy(a + b, f) == SumBy(a, f) + SumBy(b, f)
  {
    if a == [] {
      assert a + b == b;
    } else {
      assert (a + b)[1..] == a[1..] + b;
      SumByAppend(a[1..], b, f);
    }
  }

  lemma {:induction false} SumByNonNegative<T>(s: seq<T>, f: T -> real)
    requires forall i :: 0 <= i < |s| ==> f(s[i]) >= 0.0
    ensures SumBy(s, f) >= 0.0
  {
    if s != [] {
      SumByNonNegative(s[1..], f);
    }
  }
}
