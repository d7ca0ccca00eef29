/** The optional value used throughout the model for JavaScript's `undefined`/`null`. */
module Wrappers {
  datatype Option<+T> = None | Some(value: T)
}

/** JavaScript truthiness of the request fields the handlers test with `!x`. */
module Js {
  import opened Wrappers

  /** A string field is truthy when it is present and not the empty string. */
  predicate StringTruthy(s: Option<string>) {
    s.Some? && s.value != ""
  }

  /** A number field is truthy when it is present and not zero (NaN is not modelled). */
  predicate NumberTruthy(n: Option<int>) {
    n.Some? && n.value != 0
  }
}

/** Sequence helpers standing in for `Array.prototype.findIndex`/`find` and `filter`. */
module Seqs {
  import opened Wrappers

  /** The index `findIndex` returns, as an Option instead of -1. */
  function FirstIndex<T>(s: seq<T>, p: T -> bool): (r: Option<nat>)
    ensures r.Some? ==> r.value < |s| && p(s[r.value])
    ensures r.Some? ==> forall j :: 0 <= j < r.value ==> !p(s[j])
    ensures r.None? <==> forall j :: 0 <= j < |s| ==> !p(s[j])
  {
    if |s| == 0 then None
    else if p(s[0]) then Some(0)
    else
      match FirstIndex(s[1..], p)
      case None => None
      case Some(k) => Some(k + 1)
  }

  /** The first index where `p` holds is determined by where it first holds. */
  lemma FirstIndexIs<T>(s: seq<T>, p: T -> bool, i: nat)
    requires i < |s| && p(s[i])
    requires forall j :: 0 <= j < i ==> !p(s[j])
    ensures FirstIndex(s, p) == Some(i)
  {
  }

  /** `filter`: the elements satisfying `p`, in their original order. */
  function Filter<T>(s: seq<T>, p: T -> bool): (r: seq<T>)
    ensures |r| <= |s|
  {
    if |s| == 0 then []
    else if p(s[0]) then [s[0]] + Filter(s[1..], p)
    else Filter(s[1..], p)
  }

  lemma {:induction false} FilterAppend<T>(a: seq<T>, b: seq<T>, p: T -> bool)
    ensures Filter(a + b, p) == Filter(a, p) + Filter(b, p)
  {
    if |a| == 0 {
      assert a + b == b;
    } else {
      assert (a + b)[1..] == a[1..] + b;
      FilterAppend(a[1..], b, p);
    }
  }

  /** `filter(p)[0]` is the element `find(p)` returns: the first one satisfying p. */
  lemma {:induction false} FilterFirst<T>(s: seq<T>, p: T -> bool)
    ensures |Filter(s, p)| > 0 <==> FirstIndex(s, p).Some?
    ensures |Filter(s, p)| > 0 ==> Filter(s, p)[0] == s[FirstIndex(s, p).value]
  {
    if |s| > 0 && !p(s[0]) {
      FilterFirst(s[1..], p);
    }
  }

  /** Every element satisfying p is kept by `filter(p)`. */
  lemma {:induction false} FilterHas<T>(s: seq<T>, p: T -> bool, i: nat)
    requires i < |s| && p(s[i])
    ensures s[i] in Filter(s, p)
  {
    if i > 0 {
      FilterHas(s[1..], p, i - 1);
    }
  }

  /** `map`: `f` applied to every element, in order. */
  function Map<T, U>(s: seq<T>, f: T -> U): (r: seq<U>)
    ensures |r| == |s|
  {
    if |s| == 0 then [] else [f(s[0])] + Map(s[1..], f)
  }

  lemma {:induction false} MapAt<T, U>(s: seq<T>, f: T -> U, i: nat)
    requires i < |s|
    ensures Map(s, f)[i] == f(s[i])
  {
    if i > 0 {
      MapAt(s[1..], f, i - 1);
    }
  }

  lemma {:induction false} MapAppend<T, U>(a: seq<T>, b: seq<T>, f: T -> U)
    ensures Map(a + b, f) == Map(a, f) + Map(b, f)
  {
    if |a| == 0 {
      assert a + b == b;
    } else {
      assert (a + b)[1..] == a[1..] + b;
      MapAppend(a[1..], b, f);
    }
  }

  /** `filter` keeps exactly the elements that satisfy `p`. */
  lemma {:induction false} FilterMembers<T>(s: seq<T>, p: T -> bool, x: T)
    ensures x in Filter(s, p) <==> x in s && p(x)
  {
    if |s| > 0 {
      FilterMembers(s[1..], p, x);
      assert s == [s[0]] + s[1..];
    }
  }

  /** Everything `filter` keeps satisfies the predicate. */
  lemma {:induction false} FilterKeeps<T>(s: seq<T>, p: T -> bool)
    ensures forall i :: 0 <= i < |Filter(s, p)| ==> p(Filter(s, p)[i])
  {
    if |s| > 0 {
      FilterKeeps(s[1..], p);
    }
  }

  /** Overwriting a dropped element with another dropped element does not change what `filter` keeps. */
  lemma {:induction false} FilterUpdateDropped<T>(s: seq<T>, p: T -> bool, i: nat, x: T)
    requires i < |s| && !p(x) && !p(s[i])
    ensures Filter(s[i := x], p) == Filter(s, p)
  {
    if i > 0 {
      assert s[i := x][1..] == s[1..][i - 1 := x];
      FilterUpdateDropped(s[1..], p, i - 1, x);
    } else {
      assert s[i := x][1..] == s[1..];
    }
  }

  lemma {:induction false} FilterAll<T>(s: seq<T>, p: T -> bool)
    requires forall i :: 0 <= i < |s| ==> p(s[i])
    ensures Filter(s, p) == s
  {
    if |s| > 0 {
      FilterAll(s[1..], p);
    }
  }

  lemma {:induction false} FilterNone<T>(s: seq<T>, p: T -> bool)
    requires forall i :: 0 <= i < |s| ==> !p(s[i])
    ensures Filter(s, p) == []
  {
    if |s| > 0 {
      FilterNone(s[1..], p);
    }
  }

  /** The set of values `f` takes on the elements of `s`. */
  function Image<T, U>(s: seq<T>, f: T -> U): set<U> {
    set i | 0 <= i < |s| :: f(s[i])
  }

  /** No two elements of `s` share a value of `f`. */
  ghost predicate Injective<T, U>(s: seq<T>, f: T -> U) {
    forall i, j :: 0 <= i < j < |s| ==> f(s[i]) != f(s[j])
  }

  /** A sequence has at most as many distinct `f`-values as elements, exactly as many when `f` is injective on it. */
  lemma {:induction false} ImageSize<T, U>(s: seq<T>, f: T -> U)
    ensures |Image(s, f)| <= |s|
    ensures |Image(s, f)| == |s| <==> Injective(s, f)
  {
    if |s| > 0 {
      var rest := s[1..];
      ImageSize(rest, f);
      assert forall i :: 0 <= i < |rest| ==> rest[i] == s[i + 1];
      assert Image(s, f) == {f(s[0])} + Image(rest, f) by {
        forall y | y in Image(s, f) ensures y in {f(s[0])} + Image(rest, f) {
          var i :| 0 <= i < |s| && f(s[i]) == y;
          if i > 0 { assert f(rest[i - 1]) == y; }
        }
      }
      if f(s[0]) in Image(rest, f) {
        var i :| 0 <= i < |rest| && f(rest[i]) == f(s[0]);
        assert f(s[0]) == f(s[i + 1]);
      } else {
        if Injective(rest, f) {
          forall i, j | 0 <= i < j < |s| ensures f(s[i]) != f(s[j]) {
            if i == 0 {
              assert f(s[j]) == f(rest[j - 1]);
            } else {
              assert f(s[i]) == f(rest[i - 1]) && f(s[j]) == f(rest[j - 1]);
            }
          }
        }
      }
    }
  }

  /** Reordering a sequence does not change its image. */
  lemma {:induction false} ImagePermutation<T, U>(a: seq<T>, b: seq<T>, f: T -> U)
    requires multiset(a) == multiset(b)
    ensures Image(a, f) == Image(b, f)
  {
    forall y | y in Image(a, f) ensures y in Image(b, f) {
      var i :| 0 <= i < |a| && f(a[i]) == y;
      assert a[i] in multiset(b);
      var j :| 0 <= j < |b| && b[j] == a[i];
    }
    forall y | y in Image(b, f) ensures y in Image(a, f) {
      var i :| 0 <= i < |b| && f(b[i]) == y;
      assert b[i] in multiset(a);
      var j :| 0 <= j < |a| && a[j] == b[i];
    }
  }

  /** Reordering a sequence keeps `f` injective on it. */
  lemma {:induction false} InjectivePermutation<T, U>(a: seq<T>, b: seq<T>, f: T -> U)
    requires multiset(a) == multiset(b) && Injective(a, f)
    ensures Injective(b, f)
  {
    assert |a| == |multiset(a)| == |multiset(b)| == |b|;
    ImagePermutation(a, b, f);
    ImageSize(a, f);
    ImageSize(b, f);
  }
}
