/** What a least-recently-used cache promises, on plain sequences with the most recent entry first. */
module LruSpec {
  import opened Basics

  type Entries<K, V> = seq<(K, V)>

  ghost predicate DistinctKeys<K, V>(s: Entries<K, V>) {
    forall i, j :: 0 <= i < j < |s| ==> s[i].0 != s[j].0
  }

  ghost predicate HasKey<K, V>(s: Entries<K, V>, k: K) {
    exists e :: e in s && e.0 == k
  }

  /** s without its entry for k, order kept. */
  function Without<K(==), V>(s: Entries<K, V>, k: K): (r: Entries<K, V>)
    ensures |r| <= |s|
    ensures !HasKey(r, k)
    ensures forall e :: e in r ==> e in s && e.0 != k
    ensures forall e :: e in s && e.0 != k ==> e in r
  {
    if |s| == 0 then [] else if s[0].0 == k then Without(s[1..], k) else [s[0]] + Without(s[1..], k)
  }

  function Lookup<K(==), V>(s: Entries<K, V>, k: K): (r: Option<V>)
    ensures r.None? <==> !HasKey(s, k)
    ensures r.Some? ==> (k, r.value) in s
  {
    if |s| == 0 then None else if s[0].0 == k then Some(s[0].1) else Lookup(s[1..], k)
  }

  /** A hit moves its entry to the front; a miss changes nothing. */
  function AfterGet<K(==), V>(s: Entries<K, V>, k: K): Entries<K, V> {
    match Lookup(s, k)
    case None => s
    case Some(v) => [(k, v)] + Without(s, k)
  }

  /** The entry goes to the front and whatever no longer fits falls off the end. */
  function AfterPut<K(==), V>(s: Entries<K, V>, capacity: nat, k: K, v: V): Entries<K, V> {
    var t := [(k, v)] + Without(s, k);
    if |t| > capacity then t[..capacity] else t
  }

  datatype Op<K, V> = Get(key: K) | Put(key: K, value: V)

  function Step<K(==), V>(s: Entries<K, V>, capacity: nat, op: Op<K, V>): Entries<K, V> {
    match op
    case Get(k) => AfterGet(s, k)
    case Put(k, v) => AfterPut(s, capacity, k, v)
  }

  /** The entries after a whole trace, from an empty cache. */
  function Run<K(==), V>(capacity: nat, ops: seq<Op<K, V>>): Entries<K, V> {
    if |ops| == 0 then [] else Step(Run(capacity, ops[..|ops| - 1]), capacity, ops[|ops| - 1])
  }

  // ----- one step

  /** A key that is not there: nothing to take out. */
  lemma {:induction false} WithoutAbsent<K, V>(s: Entries<K, V>, k: K)
    requires !HasKey(s, k)
    ensures Without(s, k) == s && Lookup(s, k) == None
  {
    if |s| > 0 {
      assert s[0] in s;
      assert !HasKey(s[1..], k) by {
        assert forall e :: e in s[1..] ==> e in s;
      }
      WithoutAbsent(s[1..], k);
    }
  }

  /** Taking out entry i by key is taking it out by position. */
  lemma {:induction false} WithoutAt<K, V>(s: Entries<K, V>, i: nat)
    requires DistinctKeys(s) && i < |s|
    ensures Without(s, s[i].0) == s[..i] + s[i + 1..]
    ensures Lookup(s, s[i].0) == Some(s[i].1)
  {
    var k := s[i].0;
    if i == 0 {
      WithoutAbsent(s[1..], k);
    } else {
      WithoutAt(s[1..], i - 1);
      TakenOut(s, i);
    }
  }

  /** Where the key is, if anywhere: position |s| stands for nowhere. */
  lemma Locate<K, V>(s: Entries<K, V>, k: K) returns (i: nat)
    requires DistinctKeys(s)
    ensures i <= |s| && (HasKey(s, k) <==> i < |s|)
    ensures i < |s| ==> s[i].0 == k && Without(s, k) == s[..i] + s[i + 1..] && Lookup(s, k) == Some(s[i].1)
    ensures i == |s| ==> Without(s, k) == s && Lookup(s, k) == None
  {
    if HasKey(s, k) {
      var e :| e in s && e.0 == k;
      i :| 0 <= i < |s| && s[i] == e;
      WithoutAt(s, i);
    } else {
      i := |s|;
      WithoutAbsent(s, k);
    }
  }

  /** Positions of the remaining entries, before and after the removal. */
  function OldIndex(i: nat, a: nat): nat {
    if a < i then a else a + 1
  }

  /** r is s without its entry i, position by position. */
  ghost predicate Kept<K, V>(s: Entries<K, V>, i: nat, r: Entries<K, V>) {
    forall a :: 0 <= a < |r| ==> OldIndex(i, a) < |s| && r[a] == s[OldIndex(i, a)]
  }

  lemma RestIsKept<K, V>(s: Entries<K, V>, i: nat)
    requires i <= |s|
    ensures i < |s| ==> Kept(s, i, s[..i] + s[i + 1..])
    ensures i == |s| ==> Kept(s, i, s)
  {
  }

  lemma KeptIsDistinct<K, V>(s: Entries<K, V>, i: nat, r: Entries<K, V>)
    requires DistinctKeys(s) && Kept(s, i, r)
    ensures DistinctKeys(r)
  {
    forall a, b | 0 <= a < b < |r| ensures r[a].0 != r[b].0 {
      assert r[a] == s[OldIndex(i, a)] && r[b] == s[OldIndex(i, b)];
    }
  }

  lemma FirstIsDistinct<K, V>(k: K, v: V, r: Entries<K, V>)
    requires DistinctKeys(r) && !HasKey(r, k)
    ensures DistinctKeys([(k, v)] + r)
  {
    var t := [(k, v)] + r;
    forall a, b | 0 <= a < b < |t| ensures t[a].0 != t[b].0 {
      assert t[b] == r[b - 1] && r[b - 1] in r;
      assert a > 0 ==> t[a] == r[a - 1];
    }
  }

  /** Moving an entry to the front, or inserting one there, keeps the keys distinct. */
  lemma FrontIsDistinct<K, V>(s: Entries<K, V>, k: K, v: V) returns (i: nat)
    requires DistinctKeys(s)
    ensures i <= |s| && (HasKey(s, k) <==> i < |s|)
    ensures i < |s| ==> s[i].0 == k && Lookup(s, k) == Some(s[i].1)
    ensures i == |s| ==> Lookup(s, k) == None
    ensures |Without(s, k)| == if i < |s| then |s| - 1 else |s|
    ensures Kept(s, i, Without(s, k)) && DistinctKeys([(k, v)] + Without(s, k))
  {
    i := Locate(s, k);
    RestIsKept(s, i);
    KeptIsDistinct(s, i, Without(s, k));
    FirstIsDistinct(k, v, Without(s, k));
  }

  /** Every trace keeps the keys distinct and the size within the capacity. */
  lemma {:induction false} RunIsBounded<K, V>(capacity: nat, ops: seq<Op<K, V>>)
    requires capacity >= 1
    ensures DistinctKeys(Run(capacity, ops)) && |Run(capacity, ops)| <= capacity
  {
    if |ops| > 0 {
      RunIsBounded(capacity, ops[..|ops| - 1]);
      StepIsBounded(Run(capacity, ops[..|ops| - 1]), capacity, ops[|ops| - 1]);
    }
  }

  lemma StepIsBounded<K, V>(s: Entries<K, V>, capacity: nat, op: Op<K, V>)
    requires capacity >= 1 && DistinctKeys(s) && |s| <= capacity
    ensures DistinctKeys(Step(s, capacity, op)) && |Step(s, capacity, op)| <= capacity
    ensures |Step(s, capacity, op)| >= |s|
  {
    match op
    case Get(k) =>
      if Lookup(s, k).Some? {
        var i := FrontIsDistinct(s, k, Lookup(s, k).value);
      }
    case Put(k, v) =>
      var i := FrontIsDistinct(s, k, v);
  }

  /** A key that is there stays, and a key that is put is there, unless the cache is full afterwards. */
  lemma StepKeepsKeys<K, V>(s: Entries<K, V>, capacity: nat, op: Op<K, V>, k: K)
    requires DistinctKeys(s) && (HasKey(s, k) || (op.Put? && op.key == k))
    ensures HasKey(Step(s, capacity, op), k) || |Step(s, capacity, op)| == capacity
  {
    match op
    case Get(g) =>
      if Lookup(s, g).Some? {
        FrontHasKeys(s, g, Lookup(s, g).value, k);
      }
    case Put(p, v) => FrontHasKeys(s, p, v, k);
  }

  lemma FrontHasKeys<K, V>(s: Entries<K, V>, front: K, v: V, k: K)
    requires HasKey(s, k) || front == k
    ensures HasKey([(front, v)] + Without(s, front), k)
  {
    var t := [(front, v)] + Without(s, front);
    if front == k {
      assert t[0] in t;
    } else {
      var e :| e in s && e.0 == k;
      assert e in Without(s, front);
    }
  }

  /** So over any trace a key that was put is only missing from a full cache. */
  lemma {:induction false} KeyLostOnlyWhenFull<K, V>(capacity: nat, ops: seq<Op<K, V>>, k: K)
    requires capacity >= 1 && LastPut(ops, k).Some?
    ensures HasKey(Run(capacity, ops), k) || |Run(capacity, ops)| == capacity
  {
    var before, op := ops[..|ops| - 1], ops[|ops| - 1];
    var s := Run(capacity, before);
    RunIsBounded(capacity, before);
    StepIsBounded(s, capacity, op);
    if !(op.Put? && op.key == k) {
      KeyLostOnlyWhenFull(capacity, before, k);
    }
    if |s| < capacity {
      StepKeepsKeys(s, capacity, op, k);
    } else {
      RunIsBounded(capacity, ops);
    }
  }

  // ----- the list order is recency order

  /** The position of the last operation of the trace that names k, or -1. */
  function LastUse<K(==), V>(ops: seq<Op<K, V>>, k: K): (r: int)
    ensures -1 <= r < |ops|
  {
    if |ops| == 0 then -1
    else if ops[|ops| - 1].key == k then |ops| - 1
    else LastUse(ops[..|ops| - 1], k)
  }

  /** The value last put under k, if there was any put. */
  function LastPut<K(==), V>(ops: seq<Op<K, V>>, k: K): Option<V> {
    if |ops| == 0 then None
    else match ops[|ops| - 1]
      case Put(k', v) => if k' == k then Some(v) else LastPut(ops[..|ops| - 1], k)
      case Get(_) => LastPut(ops[..|ops| - 1], k)
  }

  ghost predicate InRecencyOrder<K, V>(s: Entries<K, V>, ops: seq<Op<K, V>>) {
    && (forall i, j :: 0 <= i < j < |s| ==> LastUse(ops, s[i].0) > LastUse(ops, s[j].0))
    && (forall i :: 0 <= i < |s| ==> LastUse(ops, s[i].0) >= 0 && LastPut(ops, s[i].0) == Some(s[i].1))
  }

  /**
   * After any trace the list is sorted by last use, and each entry holds the value last put under
   * its key; so the entry an insertion evicts is the one whose last use is the oldest.
   */
  lemma {:induction false} RunIsInRecencyOrder<K, V>(capacity: nat, ops: seq<Op<K, V>>)
    requires capacity >= 1
    ensures InRecencyOrder(Run(capacity, ops), ops)
  {
    if |ops| > 0 {
      var before, op := ops[..|ops| - 1], ops[|ops| - 1];
      var s := Run(capacity, before);
      RunIsInRecencyOrder(capacity, before);
      RunIsBounded(capacity, before);
      StepKeepsRecencyOrder(s, capacity, before, op);
      assert before + [op] == ops;
    }
  }

  lemma StepKeepsRecencyOrder<K, V>(s: Entries<K, V>, capacity: nat, ops: seq<Op<K, V>>, op: Op<K, V>)
    requires capacity >= 1 && DistinctKeys(s) && InRecencyOrder(s, ops)
    ensures InRecencyOrder(Step(s, capacity, op), ops + [op])
  {
    match op
    case Get(k) =>
      if Lookup(s, k).Some? {
        FrontKeepsRecencyOrder(s, ops, op, Lookup(s, k).value);
      } else {
        forall j | 0 <= j < |s|
          ensures LastUse(ops + [op], s[j].0) == LastUse(ops, s[j].0)
          ensures LastPut(ops + [op], s[j].0) == LastPut(ops, s[j].0)
        {
          assert s[j] in s;
          LastOfLonger(ops, op, s[j].0);
        }
      }
    case Put(k, v) =>
      FrontKeepsRecencyOrder(s, ops, op, v);
      var t := [(k, v)] + Without(s, k);
      if |t| > capacity {
        var u := t[..capacity];
        assert forall a :: 0 <= a < |u| ==> u[a] == t[a];
        assert InRecencyOrder(u, ops + [op]);
      }
  }

  lemma LastOfLonger<K, V>(ops: seq<Op<K, V>>, op: Op<K, V>, k: K)
    ensures LastUse(ops + [op], k) == if op.key == k then |ops| else LastUse(ops, k)
    ensures LastPut(ops + [op], k) == if op.Put? && op.key == k then Some(op.value) else LastPut(ops, k)
  {
    var next := ops + [op];
    assert next[..|next| - 1] == ops && next[|next| - 1] == op;
  }

  lemma KeptInOrder<K, V>(s: Entries<K, V>, i: nat, r: Entries<K, V>, ops: seq<Op<K, V>>)
    requires InRecencyOrder(s, ops) && Kept(s, i, r)
    ensures InRecencyOrder(r, ops)
  {
    forall a, b | 0 <= a < b < |r| ensures LastUse(ops, r[a].0) > LastUse(ops, r[b].0) {
      assert r[a] == s[OldIndex(i, a)] && r[b] == s[OldIndex(i, b)];
    }
  }

  /** The entry named by the newest operation goes first; the others keep their order. */
  lemma FirstInOrder<K, V>(r: Entries<K, V>, ops: seq<Op<K, V>>, op: Op<K, V>, v: V)
    requires InRecencyOrder(r, ops) && !HasKey(r, op.key)
    requires Some(v) == if op.Put? then Some(op.value) else LastPut(ops, op.key)
    ensures InRecencyOrder([(op.key, v)] + r, ops + [op])
  {
    var t, next := [(op.key, v)] + r, ops + [op];
    LastOfLonger(ops, op, op.key);
    forall a | 0 < a < |t|
      ensures LastUse(next, t[a].0) == LastUse(ops, r[a - 1].0) >= 0
      ensures LastPut(next, t[a].0) == Some(t[a].1)
    {
      assert t[a] == r[a - 1] && r[a - 1] in r;
      LastOfLonger(ops, op, t[a].0);
    }
    forall a, b | 0 <= a < b < |t| ensures LastUse(next, t[a].0) > LastUse(next, t[b].0) {
    }
  }

  lemma FrontKeepsRecencyOrder<K, V>(s: Entries<K, V>, ops: seq<Op<K, V>>, op: Op<K, V>, v: V)
    requires DistinctKeys(s) && InRecencyOrder(s, ops)
    requires if op.Put? then v == op.value else Lookup(s, op.key) == Some(v)
    ensures InRecencyOrder([(op.key, v)] + Without(s, op.key), ops + [op])
  {
    var i := FrontIsDistinct(s, op.key, v);
    KeptInOrder(s, i, Without(s, op.key), ops);
    FirstInOrder(Without(s, op.key), ops, op, v);
  }

  // ----- inclusion

  /** small is obtained from large by leaving entries out. */
  ghost predicate Subsequence<T>(small: seq<T>, large: seq<T>) {
    if |small| == 0 then true
    else if |large| == 0 then false
    else if small[0] == large[0] then Subsequence(small[1..], large[1..])
    else Subsequence(small, large[1..])
  }

  lemma {:induction false} SubsequenceMembers<T>(small: seq<T>, large: seq<T>)
    requires Subsequence(small, large)
    ensures forall x :: x in small ==> x in large
    ensures |small| <= |large|
  {
    if |small| > 0 {
      assert small == [small[0]] + small[1..];
      assert large == [large[0]] + large[1..];
      if small[0] == large[0] {
        SubsequenceMembers(small[1..], large[1..]);
      } else {
        SubsequenceMembers(small, large[1..]);
      }
    }
  }

  /** Dropping an element at the front of the smaller side keeps the relation. */
  lemma {:induction false} SubsequenceTail<T>(small: seq<T>, large: seq<T>)
    requires |small| > 0 && Subsequence(small, large)
    ensures Subsequence(small[1..], large)
    decreases |large|
  {
    if small[0] == large[0] {
      if |small| > 1 && small[1] == large[0] {
        SubsequenceTail(small[1..], large[1..]);
      }
    } else {
      SubsequenceTail(small, large[1..]);
      if |small| > 1 && small[1] == large[0] {
        SubsequenceTail(small[1..], large[1..]);
      }
    }
  }

  lemma {:induction false} SubsequenceReflexive<T>(s: seq<T>)
    ensures Subsequence(s, s)
  {
    if |s| > 0 { SubsequenceReflexive(s[1..]); }
  }

  /** Removing the same key on both sides keeps the relation. */
  lemma {:induction false} SubsequenceWithout<K, V>(small: Entries<K, V>, large: Entries<K, V>, k: K)
    requires Subsequence(small, large)
    ensures Subsequence(Without(small, k), Without(large, k))
    decreases |large|
  {
    if |small| > 0 {
      if small[0] == large[0] {
        SubsequenceWithout(small[1..], large[1..], k);
      } else {
        SubsequenceWithout(small, large[1..], k);
        var a, b := Without(small, k), Without(large[1..], k);
        if large[0].0 != k && |a| > 0 && a[0] == large[0] {
          SubsequenceTail(a, b);
        }
      }
    }
  }

  /** Cutting both sides keeps the relation as long as the smaller side gives up as many as the larger. */
  lemma {:induction false} SubsequenceTake<T>(small: seq<T>, large: seq<T>, m: nat, n: nat)
    requires Subsequence(small, large) && m <= |small| && n <= |large|
    requires |small| - m >= |large| - n
    ensures Subsequence(small[..m], large[..n])
    decreases |large|
  {
    if m > 0 {
      SubsequenceMembers(small, large);
      if small[0] == large[0] {
        SubsequenceTake(small[1..], large[1..], m - 1, n - 1);
        assert small[..m][1..] == small[1..][..m - 1];
      } else {
        SubsequenceMembers(small, large[1..]);
        SubsequenceTake(small, large[1..], m, n - 1);
      }
      assert large[..n][1..] == large[1..][..n - 1];
    }
  }

  /** Cutting only the smaller side. */
  lemma {:induction false} SubsequencePrefix<T>(small: seq<T>, large: seq<T>, m: nat)
    requires Subsequence(small, large) && m <= |small|
    ensures Subsequence(small[..m], large)
  {
    SubsequenceTake(small, large, m, |large|);
    assert large[..|large|] == large;
  }

  /** What a pair of caches fed the same trace keep: a cache that has not filled up has lost nothing. */
  ghost predicate Included<K, V>(small: Entries<K, V>, c1: nat, large: Entries<K, V>) {
    Subsequence(small, large) && (|small| < c1 ==> small == large)
  }

  /**
   * Two caches fed the same trace: the recency list of the smaller is always a subsequence of the
   * larger's, so a hit in the smaller cache is a hit in the larger one, with the same value.
   */
  lemma {:induction false} Inclusion<K, V>(c1: nat, c2: nat, ops: seq<Op<K, V>>)
    requires 1 <= c1 <= c2
    ensures Included(Run(c1, ops), c1, Run(c2, ops))
  {
    if |ops| > 0 {
      var before, op := ops[..|ops| - 1], ops[|ops| - 1];
      Inclusion(c1, c2, before);
      RunIsBounded(c1, before);
      RunIsBounded(c2, before);
      StepKeepsInclusion(Run(c1, before), c1, Run(c2, before), c2, op);
    }
  }

  lemma StepKeepsInclusion<K, V>(small: Entries<K, V>, c1: nat, large: Entries<K, V>, c2: nat, op: Op<K, V>)
    requires 1 <= c1 <= c2
    requires DistinctKeys(small) && |small| <= c1 && DistinctKeys(large) && |large| <= c2
    requires Included(small, c1, large)
    ensures Included(Step(small, c1, op), c1, Step(large, c2, op))
  {
    var k := op.key;
    SubsequenceMembers(small, large);
    SubsequenceWithout(small, large, k);
    StepIsBounded(small, c1, op);
    StepIsBounded(large, c2, op);
    var i := Locate(small, k);
    var j := Locate(large, k);
    if i < |small| {
      assert small[i] in large;
      var h :| 0 <= h < |large| && large[h] == small[i];
    }
    match op
    case Get(_) =>
    case Put(_, v) =>
      var a, b := [(k, v)] + Without(small, k), [(k, v)] + Without(large, k);
      assert a[1..] == Without(small, k) && b[1..] == Without(large, k);
      assert Subsequence(a, b);
      if |a| > c1 {
        if |b| > c2 {
          SubsequenceTake(a, b, c1, c2);
        } else {
          SubsequencePrefix(a, b, c1);
        }
      }
  }

  /** A hit in the smaller cache is a hit, with the same value, in the larger one. */
  lemma InclusionOfHits<K, V>(c1: nat, c2: nat, ops: seq<Op<K, V>>, k: K)
    requires 1 <= c1 <= c2
    requires Lookup(Run(c1, ops), k).Some?
    ensures Lookup(Run(c2, ops), k) == Lookup(Run(c1, ops), k)
  {
    Inclusion(c1, c2, ops);
    RunIsBounded(c2, ops);
    SubsequenceMembers(Run(c1, ops), Run(c2, ops));
    var v := Lookup(Run(c1, ops), k).value;
    var j :| 0 <= j < |Run(c2, ops)| && Run(c2, ops)[j] == (k, v);
    WithoutAt(Run(c2, ops), j);
  }
}
