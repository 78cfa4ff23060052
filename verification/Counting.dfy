/** Counting and filtering of sequences, the vocabulary in which table invariants are stated. */
module Counting {

  /** `n` copies of `x`, the content of a freshly initialised table. */
  function Repeat<T>(x: T, n: nat): (r: seq<T>)
    ensures |r| == n
    ensures forall i :: 0 <= i < n ==> r[i] == x
  {
    if n == 0 then [] else [x] + Repeat(x, n - 1)
  }

  function Tally(b: bool): nat {
    if b then 1 else 0
  }

  /** How many elements of `s` satisfy `f`. */
  function Count<T>(s: seq<T>, f: T -> bool): nat {
    if s == [] then 0 else Tally(f(s[0])) + Count(s[1..], f)
  }

  /** The elements of `s` that satisfy `f`, in order. */
  function Filter<T>(s: seq<T>, f: T -> bool): seq<T> {
    if s == [] then []
    else if f(s[0]) then [s[0]] + Filter(s[1..], f)
    else Filter(s[1..], f)
  }

  lemma {:induction false} CountAppend<T>(a: seq<T>, b: seq<T>, f: T -> bool)
    ensures Count(a + b, f) == Count(a, f) + Count(b, f)
  {
    if a == [] {
      assert a + b == b;
    } else {
      assert (a + b)[1..] == a[1..] + b;
      CountAppend(a[1..], b, f);
    }
  }

  lemma CountSnoc<T>(s: seq<T>, x: T, f: T -> bool)
    ensures Count(s + [x], f) == Count(s, f) + Tally(f(x))
  {
    CountAppend(s, [x], f);
  }

  lemma {:induction false} FilterAppend<T>(a: seq<T>, b: seq<T>, f: T -> bool)
    ensures Filter(a + b, f) == Filter(a, f) + Filter(b, f)
  {
    if a == [] {
      assert a + b == b;
    } else {
      assert (a + b)[1..] == a[1..] + b;
      FilterAppend(a[1..], b, f);
    }
  }

  lemma {:induction false} CountUpdate<T>(s: seq<T>, i: nat, x: T, f: T -> bool)
    requires i < |s|
    ensures Count(s[i := x], f) == Count(s, f) - Tally(f(s[i])) + Tally(f(x))
  {
    if i == 0 {
      assert s[i := x][1..] == s[1..];
    } else {
      assert s[i := x][1..] == s[1..][i - 1 := x];
      CountUpdate(s[1..], i - 1, x, f);
    }
  }

  lemma {:induction false} CountBound<T>(s: seq<T>, f: T -> bool)
    ensures Count(s, f) <= |s|
  {
    if s != [] {
      CountBound(s[1..], f);
    }
  }

  /** An element that satisfies `f` is counted. */
  lemma {:induction false} CountHit<T>(s: seq<T>, i: nat, f: T -> bool)
    requires i < |s| && f(s[i])
    ensures Count(s, f) >= 1
  {
    if i > 0 {
      CountHit(s[1..], i - 1, f);
    }
  }

  /** Two different hits are counted twice. */
  lemma {:induction false} CountTwoHits<T>(s: seq<T>, i: nat, j: nat, f: T -> bool)
    requires i < j < |s| && f(s[i]) && f(s[j])
    ensures Count(s, f) >= 2
  {
    if i == 0 {
      CountHit(s[1..], j - 1, f);
    } else {
      CountTwoHits(s[1..], i - 1, j - 1, f);
    }
  }

  /** A positive count has a first hit. */
  lemma {:induction false} CountWitness<T>(s: seq<T>, f: T -> bool) returns (i: nat)
    requires Count(s, f) > 0
    ensures i < |s| && f(s[i])
    ensures forall j :: 0 <= j < i ==> !f(s[j])
  {
    if f(s[0]) {
      i := 0;
    } else {
      var k := CountWitness(s[1..], f);
      i := k + 1;
      forall j | 0 <= j < i ensures !f(s[j]) {
        if j > 0 { assert s[j] == s[1..][j - 1]; }
      }
    }
  }

  lemma {:induction false} CountZero<T>(s: seq<T>, f: T -> bool)
    requires forall i :: 0 <= i < |s| ==> !f(s[i])
    ensures Count(s, f) == 0
  {
    if s != [] {
      CountZero(s[1..], f);
    }
  }

  lemma {:induction false} CountFull<T>(s: seq<T>, f: T -> bool)
    requires forall i :: 0 <= i < |s| ==> f(s[i])
    ensures Count(s, f) == |s|
  {
    if s != [] {
      CountFull(s[1..], f);
    }
  }

  lemma {:induction false} CountMonotone<T>(s: seq<T>, t: seq<T>, f: T -> bool)
    requires |s| == |t|
    requires forall i :: 0 <= i < |s| ==> f(s[i]) ==> f(t[i])
    ensures Count(s, f) <= Count(t, f)
  {
    if s != [] {
      CountMonotone(s[1..], t[1..], f);
    }
  }

  /** A filtered sequence holds exactly the elements that pass. */
  lemma {:induction false} FilterMembers<T>(s: seq<T>, f: T -> bool)
    ensures |Filter(s, f)| == Count(s, f)
    ensures forall k :: 0 <= k < |Filter(s, f)| ==> f(Filter(s, f)[k]) && Filter(s, f)[k] in s
  {
    if s != [] {
      FilterMembers(s[1..], f);
      forall k | 0 <= k < |Filter(s, f)| ensures f(Filter(s, f)[k]) && Filter(s, f)[k] in s {
        var tail := Filter(s[1..], f);
        if !f(s[0]) {
          assert Filter(s, f)[k] == tail[k] && tail[k] in s[1..];
        } else if k > 0 {
          assert Filter(s, f)[k] == tail[k - 1] && tail[k - 1] in s[1..];
        }
      }
    }
  }

  /** When `g` excludes nothing that `f` counts, filtering by `g` keeps the count of `f`. */
  lemma {:induction false} CountThroughFilter<T>(s: seq<T>, g: T -> bool, f: T -> bool)
    requires forall i :: 0 <= i < |s| ==> f(s[i]) ==> g(s[i])
    ensures Count(Filter(s, g), f) == Count(s, f)
  {
    if s != [] {
      CountThroughFilter(s[1..], g, f);
      if g(s[0]) {
        assert ([s[0]] + Filter(s[1..], g))[1..] == Filter(s[1..], g);
      }
    }
  }

  lemma {:induction false} CountFilterLess<T>(s: seq<T>, g: T -> bool, f: T -> bool)
    ensures Count(Filter(s, g), f) <= Count(s, f)
  {
    if s != [] {
      CountFilterLess(s[1..], g, f);
      if g(s[0]) {
        assert ([s[0]] + Filter(s[1..], g))[1..] == Filter(s[1..], g);
      }
    }
  }

  /** A count splits over a filter and its complement. */
  lemma {:induction false} CountSplit<T>(s: seq<T>, g: T -> bool, h: T -> bool, f: T -> bool)
    requires forall i :: 0 <= i < |s| ==> g(s[i]) != h(s[i])
    ensures Count(s, f) == Count(Filter(s, g), f) + Count(Filter(s, h), f)
  {
    if s != [] {
      CountSplit(s[1..], g, h, f);
      if g(s[0]) {
        assert ([s[0]] + Filter(s[1..], g))[1..] == Filter(s[1..], g);
      } else {
        assert ([s[0]] + Filter(s[1..], h))[1..] == Filter(s[1..], h);
      }
    }
  }

  /** Replacing one rejected element by another leaves the filtered sequence alone. */
  lemma {:induction false} FilterSkip<T>(s: seq<T>, i: nat, x: T, f: T -> bool)
    requires i < |s| && !f(s[i]) && !f(x)
    ensures Filter(s[i := x], f) == Filter(s, f)
  {
    if i == 0 {
      assert s[i := x][1..] == s[1..];
    } else {
      assert s[i := x][1..] == s[1..][i - 1 := x];
      FilterSkip(s[1..], i - 1, x, f);
    }
  }

  /** Two filters combine into one, when the second is `f` restricted to what the first keeps. */
  lemma {:induction false} FilterTwice<T>(s: seq<T>, g: T -> bool, f: T -> bool, both: T -> bool)
    requires forall i :: 0 <= i < |s| ==> both(s[i]) == (g(s[i]) && f(s[i]))
    ensures Filter(Filter(s, g), f) == Filter(s, both)
  {
    if s != [] {
      FilterTwice(s[1..], g, f, both);
      if g(s[0]) {
        assert ([s[0]] + Filter(s[1..], g))[1..] == Filter(s[1..], g);
      }
    }
  }

  lemma {:induction false} FilterContains<T>(s: seq<T>, x: T, f: T -> bool)
    requires x in s && f(x)
    ensures x in Filter(s, f)
  {
    if s[0] != x {
      FilterContains(s[1..], x, f);
    }
  }

  lemma CountMember<T>(s: seq<T>, x: T, f: T -> bool)
    requires x in s && f(x)
    ensures Count(s, f) >= 1
  {
    var i :| 0 <= i < |s| && s[i] == x;
    CountHit(s, i, f);
  }
}
