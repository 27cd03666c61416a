/** Small definitions shared by the component models. */
module Basics {
  datatype Option<+T> = None | Some(value: T)

  /** A member of a set that has one; a loop over a set needs it to pick the next element. */
  lemma Member<T>(s: set<T>) returns (x: T)
    requires s != {}
    ensures x in s
  {
    assert (forall y :: y !in s) ==> s == {};
    x :| x in s;
  }

  /** Taking an element off what is left of a set adds it to what has been visited. */
  lemma Visited<T>(all: set<T>, left: set<T>, x: T)
    requires x in left && left <= all
    ensures all - (left - {x}) == (all - left) + {x} && x !in all - left
    ensures left - {x} <= all && |left - {x}| < |left|
  {
  }

  /** Nothing has been visited at the start, everything at the end. */
  lemma NothingVisited<T>(all: set<T>)
    ensures all - all == {} && all - {} == all
  {
  }

  lemma Rejoin<T>(a: seq<T>, b: seq<T>, c: seq<T>)
    ensures (a + b) + c == a + (b + c)
  {
  }

  lemma NothingMore<T>(a: seq<T>)
    ensures a + [] == a
  {
  }

  /** Taking out element i leaves the first element, if it was not that one, and takes out i - 1 behind it. */
  lemma TakenOut<T>(s: seq<T>, i: nat)
    requires 0 < i < |s|
    ensures s[..i] + s[i + 1..] == [s[0]] + (s[1..][..i - 1] + s[1..][i..])
  {
    var a, b := s[..i] + s[i + 1..], [s[0]] + (s[1..][..i - 1] + s[1..][i..]);
    forall j | 0 <= j < |s| - 1 ensures a[j] == b[j] {
      if j >= i { assert a[j] == s[j + 1]; }
    }
  }

  ghost predicate NoDuplicates<T(!new)>(s: seq<T>) {
    forall i, j :: 0 <= i < j < |s| ==> s[i] != s[j]
  }

  /** An order names every member of a set once. */
  ghost predicate Enumerates<T(!new)>(order: seq<T>, all: set<T>) {
    NoDuplicates(order) && forall x :: x in order <==> x in all
  }

  lemma PutBack<K, V>(m: map<K, V>, k: K)
    requires k in m
    ensures (m - {k})[k := m[k]] == m
  {
  }

  /** An on/off trace that starts with "on" and never repeats itself. */
  ghost predicate Alternates(t: seq<bool>) {
    forall i :: 0 <= i < |t| ==> t[i] == (i % 2 == 0)
  }

  /** The value the trace last switched to; "off" before the first call. */
  function LastOn(t: seq<bool>): bool {
    |t| > 0 && t[|t| - 1]
  }

  /** Appending keeps the alternation exactly when the new call flips the last one. */
  lemma AlternatesAppend(t: seq<bool>, b: bool)
    ensures Alternates(t + [b]) <==> Alternates(t) && b != LastOn(t)
  {
    var u := t + [b];
    if Alternates(u) {
      assert forall i :: 0 <= i < |t| ==> t[i] == u[i];
      assert u[|t|] == b;
    }
  }

  /** In an alternating trace the calls on and off balance, except for one still open. */
  lemma {:induction false} AlternatingBalance(t: seq<bool>)
    requires Alternates(t)
    ensures Count(t, b => b) - Count(t, b => !b) == if LastOn(t) then 1 else 0
  {
    if |t| > 0 {
      AlternatingBalance(t[..|t| - 1]);
    }
  }

  /** How many elements satisfy p. */
  ghost function Count<T>(s: seq<T>, p: T -> bool): nat {
    if |s| == 0 then 0 else Count(s[..|s| - 1], p) + if p(s[|s| - 1]) then 1 else 0
  }

  lemma {:induction false} CountAppend<T>(s: seq<T>, t: seq<T>, p: T -> bool)
    ensures Count(s + t, p) == Count(s, p) + Count(t, p)
  {
    if |t| == 0 {
      assert s + t == s;
    } else {
      var i := t[..|t| - 1];
      assert (s + t)[..|s + t| - 1] == s + i;
      CountAppend(s, i, p);
    }
  }

  /** Bounds on a count: never more than the length, and less by one when some element fails p. */
  lemma {:induction false} CountBounds<T>(s: seq<T>, p: T -> bool)
    ensures Count(s, p) <= |s|
    ensures |s| > 0 && !p(s[0]) ==> Count(s, p) <= |s| - 1
    ensures (forall x :: x in s ==> !p(x)) ==> Count(s, p) == 0
    ensures (forall x :: x in s ==> p(x)) ==> Count(s, p) == |s|
  {
    if |s| > 0 {
      CountBounds(s[..|s| - 1], p);
    }
  }

  lemma {:induction false} CountWeaken<T>(s: seq<T>, p: T -> bool, q: T -> bool)
    requires forall x :: x in s && p(x) ==> q(x)
    ensures Count(s, p) <= Count(s, q)
  {
    if |s| > 0 {
      CountWeaken(s[..|s| - 1], p, q);
    }
  }
}
