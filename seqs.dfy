/** Generic facts about sequences, and the "first occurrence" view of a
    sequence that Python's insertion-ordered dicts give. */
module Seqs {

  import opened Wrappers

  lemma TakeLast<T>(s: seq<T>, n: int)
    requires 0 < n <= |s|
    ensures s[..n] == s[..n - 1] + [s[n - 1]]
  {
  }

  /** Cutting a concatenation inside its first part. */
  lemma SliceConcat<T>(p: seq<T>, y: seq<T>, k: int)
    requires 0 <= k <= |p|
    ensures (p + y)[..k] == p[..k]
    ensures (p + y)[k..] == p[k..] + y
  {
  }

  lemma TakeTake<T>(s: seq<T>, a: int, b: int, x: seq<T>)
    requires 0 <= a && 0 <= b && a + b <= |s|
    ensures s[..a + b] + x == s[..a] + (s[a..][..b] + x)
  {
    assert s[..a + b] == s[..a] + s[a..][..b];
  }

  lemma ConcatAssoc<T>(a: seq<T>, b: seq<T>, c: seq<T>)
    ensures (a + b) + c == a + (b + c)
  {
  }

  /** No element occurs twice. */
  predicate Distinct<T(==)>(s: seq<T>) {
    forall i, j :: 0 <= i < j < |s| ==> s[i] != s[j]
  }

  /** Index of the first occurrence of x in s. */
  function FirstPos<T(==)>(s: seq<T>, x: T): (k: nat)
    requires x in s
    ensures k < |s| && s[k] == x
    ensures forall i :: 0 <= i < k ==> s[i] != x
  {
    if s[0] == x then 0 else 1 + FirstPos(s[1..], x)
  }

  /** Appending does not move a first occurrence, and an element new to s
      first occurs where it is appended. */
  lemma FirstPosAppend<T>(s: seq<T>, y: T, x: T)
    requires x in s + [y]
    ensures x in s ==> FirstPos(s + [y], x) == FirstPos(s, x)
    ensures x !in s ==> FirstPos(s + [y], x) == |s|
  {
    var k := FirstPos(s + [y], x);
    if x in s {
      var m := FirstPos(s, x);
      assert (s + [y])[m] == x;
    } else {
      assert forall i :: 0 <= i < |s| ==> (s + [y])[i] == s[i];
    }
  }

  /** The elements of s in the order in which each first occurs: the key
      order of a Python dict filled from s. */
  function Dedup<T(==)>(s: seq<T>): (d: seq<T>)
    ensures |d| <= |s|
  {
    if s == [] then []
    else
      var d := Dedup(s[..|s| - 1]);
      if s[|s| - 1] in d then d else d + [s[|s| - 1]]
  }

  /** Dedup keeps exactly the elements of s, each once, in first-occurrence
      order. */
  lemma {:induction false} DedupSpec<T>(s: seq<T>)
    ensures forall x :: x in Dedup(s) <==> x in s
    ensures Distinct(Dedup(s))
    ensures forall i, j :: 0 <= i < j < |Dedup(s)| ==>
              FirstPos(s, Dedup(s)[i]) < FirstPos(s, Dedup(s)[j])
  {
    if s != [] {
      var p := s[..|s| - 1];
      var y := s[|s| - 1];
      DedupSpec(p);
      assert s == p + [y];
      var d := Dedup(s);
      forall x | x in p ensures FirstPos(s, x) == FirstPos(p, x) {
        FirstPosAppend(p, y, x);
      }
      if y !in Dedup(p) {
        FirstPosAppend(p, y, y);
        forall i | 0 <= i < |d| - 1 ensures FirstPos(s, d[i]) < FirstPos(s, y) {
          assert d[i] == Dedup(p)[i];
        }
      }
    }
  }

  /** Distinct elements are as many as the set they make up. */
  lemma {:induction false} DistinctCard<T>(s: seq<T>)
    requires Distinct(s)
    ensures |set x | x in s| == |s|
  {
    if s != [] {
      var p := s[..|s| - 1];
      assert s == p + [s[|s| - 1]];
      DistinctCard(p);
      assert (set x | x in s) == (set x | x in p) + {s[|s| - 1]};
    }
  }

  /** The elements of the pieces, piece after piece. */
  function Flatten<T>(pieces: seq<seq<T>>): seq<T>
  {
    if pieces == [] then [] else Flatten(pieces[..|pieces| - 1]) + pieces[|pieces| - 1]
  }

  lemma FlattenStep<T>(pieces: seq<seq<T>>, j: int)
    requires 0 <= j < |pieces|
    ensures Flatten(pieces[..j + 1]) == Flatten(pieces[..j]) + pieces[j]
  {
    assert pieces[..j + 1][..j] == pieces[..j];
  }

  /** f applied to each element in turn, stopping at the first failure:
      what a Python loop or list comprehension does when f may raise. */
  function MapAll<A, B, E>(f: A -> Result<B, E>, xs: seq<A>): (r: Result<seq<B>, E>)
    ensures r.Success? ==> |r.value| == |xs|
  {
    if xs == [] then Success([])
    else
      match MapAll(f, xs[..|xs| - 1])
      case Failure(e) => Failure(e)
      case Success(p) =>
        match f(xs[|xs| - 1])
        case Failure(e) => Failure(e)
        case Success(y) => Success(p + [y])
  }

  /** MapAll succeeds exactly when f succeeds on every element, and then
      gives f's results in order; otherwise it fails with the failure of
      the first element f fails on. */
  lemma {:induction false} MapAllSpec<A, B, E>(f: A -> Result<B, E>, xs: seq<A>)
    ensures MapAll(f, xs).Success? <==> forall i :: 0 <= i < |xs| ==> f(xs[i]).Success?
    ensures MapAll(f, xs).Success? ==>
              forall i :: 0 <= i < |xs| ==> f(xs[i]) == Success(MapAll(f, xs).value[i])
    ensures MapAll(f, xs).Failure? ==>
              exists k :: 0 <= k < |xs| && f(xs[k]) == Failure(MapAll(f, xs).error) &&
                          forall i :: 0 <= i < k ==> f(xs[i]).Success?
  {
    if xs != [] {
      var p := xs[..|xs| - 1];
      MapAllSpec(f, p);
      assert forall i :: 0 <= i < |p| ==> xs[i] == p[i];
      if MapAll(f, p).Failure? {
        var k :| 0 <= k < |p| && f(p[k]) == Failure(MapAll(f, p).error) &&
                 forall i :: 0 <= i < k ==> f(p[i]).Success?;
        assert f(xs[k]) == Failure(MapAll(f, xs).error);
      } else if f(xs[|xs| - 1]).Failure? {
        assert f(xs[|p|]) == Failure(MapAll(f, xs).error);
      }
    }
  }

  /** One more element f succeeds on. */
  lemma MapAllStep<A, B, E>(f: A -> Result<B, E>, xs: seq<A>, j: int, p: seq<B>)
    requires 0 <= j < |xs| && MapAll(f, xs[..j]) == Success(p)
    requires f(xs[j]).Success?
    ensures MapAll(f, xs[..j + 1]) == Success(p + [f(xs[j]).value])
  {
    assert xs[..j + 1][..j] == xs[..j];
  }

  /** The first element f fails on decides the whole. */
  lemma MapAllFails<A, B, E>(f: A -> Result<B, E>, xs: seq<A>, j: int)
    requires 0 <= j < |xs| && MapAll(f, xs[..j]).Success?
    requires f(xs[j]).Failure?
    ensures MapAll(f, xs) == Failure(f(xs[j]).error)
  {
    assert xs[..j + 1][..j] == xs[..j];
    MapAllSticky(f, xs, j + 1);
  }

  lemma {:induction false} MapAllSticky<A, B, E>(f: A -> Result<B, E>, xs: seq<A>, k: int)
    requires 0 <= k <= |xs| && MapAll(f, xs[..k]).Failure?
    ensures MapAll(f, xs) == MapAll(f, xs[..k])
    decreases |xs| - k
  {
    if k == |xs| {
      assert xs[..k] == xs;
    } else {
      assert xs[..k + 1][..k] == xs[..k];
      MapAllSticky(f, xs, k + 1);
    }
  }
}
