/** The cache itself: a linked list and a map of iterators into it. */
module LruCache {
  import opened Basics
  import opened LruSpec

  /** A list cell. A reference to it plays the part of a std::list iterator, which a splice keeps valid. */
  class Node<K, V> {
    const first: K
    var second: V

    constructor (first: K, second: V)
      ensures this.first == first && this.second == second
    {
      this.first, this.second := first, second;
    }
  }

  /** The map holds exactly one iterator per cell, under the cell's key. */
  ghost predicate Linked<K, V>(list: seq<Node<K, V>>, m: map<K, Node<K, V>>) {
    && (forall n :: n in list ==> n.first in m && m[n.first] == n)
    && (forall k :: k in m ==> m[k] in list && m[k].first == k)
  }

  /** The cells, read front to back, show these entries. */
  ghost predicate Shows<K, V>(list: seq<Node<K, V>>, entries: Entries<K, V>)
    reads list
  {
    && |list| == |entries|
    && forall i :: 0 <= i < |list| ==> entries[i] == (list[i].first, list[i].second)
  }

  class ResschedLruCache<K(==), V> {
    const capacity: nat
    var lruList: seq<Node<K, V>>
    var relationMap: map<K, Node<K, V>>
    ghost var entries: Entries<K, V>  // the contents, most recent first

    /** The list and the map hold the same, distinct keys, and the list fits the capacity. */
    ghost predicate Valid()
      reads this, lruList
    {
      && |lruList| <= capacity
      && Shows(lruList, entries)
      && DistinctKeys(entries)
      && Linked(lruList, relationMap)
    }

    constructor (capacity: nat)
      ensures Valid() && entries == [] && this.capacity == capacity
    {
      this.capacity := capacity;
      lruList, relationMap, entries := [], map[], [];
    }

    /** Where the iterator of a cached key points; position |lruList| stands for nowhere. */
    lemma Find(key: K) returns (i: nat)
      requires Valid()
      ensures i <= |lruList| && (key in relationMap <==> i < |lruList|)
      ensures i < |lruList| ==>
        && lruList[i] == relationMap[key]
        && (forall j :: 0 <= j < |lruList| && j != i ==> lruList[j] != lruList[i])
        && Lookup(entries, key) == Some(relationMap[key].second)
        && Without(entries, key) == entries[..i] + entries[i + 1..]
      ensures i == |lruList| ==> Lookup(entries, key) == None && Without(entries, key) == entries
    {
      if key in relationMap {
        i :| 0 <= i < |lruList| && lruList[i] == relationMap[key];
        assert entries[i].0 == key;
        WithoutAt(entries, i);
        forall j | 0 <= j < |lruList| && j != i ensures lruList[j] != lruList[i] {
          assert entries[j].0 != entries[i].0;
        }
      } else {
        i := |lruList|;
        forall e | e in entries ensures e.0 != key {
          var j :| 0 <= j < |entries| && entries[j] == e;
          assert lruList[j] in lruList;
        }
        WithoutAbsent(entries, key);
      }
    }

    method Get(key: K) returns (value: Option<V>)
      requires Valid()
      modifies this
      ensures Valid() && (forall n :: n in lruList ==> n in old(lruList))
      ensures value == Lookup(old(entries), key)
      ensures entries == AfterGet(old(entries), key)
    {
      ghost var i := Find(key);
      if key !in relationMap {
        return None;
      }
      KeysStayDistinct(entries, key, relationMap[key].second);
      Splicing(lruList, relationMap, i);
      ShowsInFront(lruList, entries, i);
      assert entries[i] == (key, relationMap[key].second);
      lruList := Spliced(lruList, relationMap[key]);
      entries := [(key, relationMap[key].second)] + Without(entries, key);
      return Some(relationMap[key].second);
    }

    /** A capacity of zero makes the source read the back of an empty list. */
    method Put(key: K, value: V)
      requires Valid() && capacity >= 1
      modifies this, lruList
      ensures Valid() && (forall n :: n in lruList ==> n in old(lruList) || fresh(n))
      ensures entries == AfterPut(old(entries), capacity, key, value)
    {
      ghost var i := Find(key);
      StepIsBounded(entries, capacity, Op.Put(key, value));
      if key in relationMap {
        PutPresent(entries, capacity, key, value);
        if relationMap[key] != lruList[0] {
          EraseCell(key);
          PushFront(key, value, Without(entries, key));
        } else {
          Overwrite(key, value);
        }
      } else {
        PutAbsent(entries, capacity, key, value);
        if |lruList| >= capacity {
          PopBack();
        }
        PushFront(key, value, entries);
      }
    }

    /** Erase the cell of a cached key; its iterator in the map dangles until it is replaced. */
    method EraseCell(key: K)
      requires Valid() && key in relationMap
      modifies this`lruList
      ensures Shows(lruList, Without(entries, key)) && |lruList| < capacity
      ensures Linked(lruList, relationMap - {key}) && (forall n :: n in lruList ==> n in old(lruList))
    {
      ghost var i := Find(key);
      Erasing(lruList, relationMap, i);
      ShowsWithout(lruList, entries, i);
      lruList := Erased(lruList, relationMap[key]);
    }

    /** The cell is already in front: only its value changes. */
    method Overwrite(key: K, value: V)
      requires Valid() && key in relationMap && relationMap[key] == lruList[0]
      modifies this`entries, lruList
      ensures Valid() && entries == [(key, value)] + Without(old(entries), key)
    {
      ghost var i := Find(key);
      FrontReplaced(entries, key, value);
      relationMap[key].second := value;
      entries := entries[0 := (key, value)];
    }

    /** Forget the least recently used entry. */
    method PopBack()
      requires Valid() && |lruList| > 0
      modifies this
      ensures Valid() && |lruList| < capacity && (forall n :: n in lruList ==> n in old(lruList))
      ensures entries == old(entries)[..|old(entries)| - 1]
      ensures relationMap.Keys <= old(relationMap.Keys)
    {
      ghost var last := |lruList| - 1;
      forall j | 0 <= j < last ensures lruList[j] != lruList[last] {
        assert entries[j].0 != entries[last].0;
      }
      Erasing(lruList, relationMap, last);
      assert lruList[..last] + lruList[last + 1..] == lruList[..last];
      relationMap := relationMap - {lruList[|lruList| - 1].first};
      lruList := lruList[..|lruList| - 1];
      entries := entries[..|entries| - 1];
    }

    /** push_front of a new cell, and the map pointed at it. */
    method PushFront(key: K, value: V, ghost kept: Entries<K, V>)
      requires Shows(lruList, kept) && |lruList| < capacity
      requires Linked(lruList, relationMap - {key})
      requires DistinctKeys([(key, value)] + kept)
      modifies this
      ensures Valid() && (forall n :: n in lruList ==> n in old(lruList) || fresh(n))
      ensures entries == [(key, value)] + kept
    {
      var node := new Node(key, value);
      assert forall k :: k in relationMap && k != key ==> k in relationMap - {key};
      lruList := [node] + lruList;
      relationMap := relationMap[key := node];
      entries := [(key, value)] + kept;
    }
  }

  /** std::list::erase of the cell an iterator designates. */
  function Erased<N(==)>(s: seq<N>, n: N): seq<N> {
    if |s| == 0 then [] else if s[0] == n then s[1..] else [s[0]] + Erased(s[1..], n)
  }

  /** std::list::splice of one cell to the front of its own list. */
  function Spliced<N(==)>(s: seq<N>, n: N): seq<N> {
    [n] + Erased(s, n)
  }

  lemma {:induction false} ErasedAt<N>(s: seq<N>, i: nat)
    requires i < |s| && forall j :: 0 <= j < |s| && j != i ==> s[j] != s[i]
    ensures Erased(s, s[i]) == s[..i] + s[i + 1..]
    ensures forall n :: n in Erased(s, s[i]) <==> n in s && n != s[i]
  {
    if i > 0 {
      ErasedAt(s[1..], i - 1);
      TakenOut(s, i);
    }
    var r := s[..i] + s[i + 1..];
    forall n ensures n in r <==> n in s && n != s[i] {
      if n in s && n != s[i] {
        var j :| 0 <= j < |s| && s[j] == n;
        assert r[if j < i then j else j - 1] == n;
      }
    }
  }

  lemma ShowsWithout<K, V>(s: seq<Node<K, V>>, e: Entries<K, V>, i: nat)
    requires Shows(s, e) && i < |s|
    ensures Shows(s[..i] + s[i + 1..], e[..i] + e[i + 1..])
  {
    var r, f := s[..i] + s[i + 1..], e[..i] + e[i + 1..];
    forall j | 0 <= j < |r| ensures f[j] == (r[j].first, r[j].second) {
      var k := OldIndex(i, j);
      assert r[j] == s[k] && f[j] == e[k];
    }
  }

  lemma ShowsInFront<K, V>(s: seq<Node<K, V>>, e: Entries<K, V>, i: nat)
    requires Shows(s, e) && i < |s|
    ensures Shows([s[i]] + (s[..i] + s[i + 1..]), [e[i]] + (e[..i] + e[i + 1..]))
  {
    ShowsWithout(s, e, i);
    var r, f := s[..i] + s[i + 1..], e[..i] + e[i + 1..];
    var t, g := [s[i]] + r, [e[i]] + f;
    forall j | 0 <= j < |t| ensures g[j] == (t[j].first, t[j].second) {
      assert j > 0 ==> t[j] == r[j - 1] && g[j] == f[j - 1];
    }
  }

  lemma KeysStayDistinct<K, V>(s: Entries<K, V>, k: K, v: V)
    requires DistinctKeys(s)
    ensures DistinctKeys([(k, v)] + Without(s, k))
  {
    var i := FrontIsDistinct(s, k, v);
  }

  lemma FrontReplaced<K, V>(s: Entries<K, V>, k: K, v: V)
    requires DistinctKeys(s) && |s| > 0 && s[0].0 == k
    ensures [(k, v)] + Without(s, k) == s[0 := (k, v)] && DistinctKeys(s[0 := (k, v)])
  {
    WithoutAt(s, 0);
    KeysStayDistinct(s, k, v);
  }

  lemma PutPresent<K, V>(s: Entries<K, V>, capacity: nat, k: K, v: V)
    requires DistinctKeys(s) && |s| <= capacity && HasKey(s, k)
    ensures AfterPut(s, capacity, k, v) == [(k, v)] + Without(s, k)
  {
    var i := Locate(s, k);
  }

  lemma PutAbsent<K, V>(s: Entries<K, V>, capacity: nat, k: K, v: V)
    requires |s| <= capacity && capacity >= 1 && !HasKey(s, k)
    ensures AfterPut(s, capacity, k, v) == [(k, v)] + if |s| == capacity then s[..|s| - 1] else s
  {
    WithoutAbsent(s, k);
    if |s| == capacity {
      assert ([(k, v)] + s)[..capacity] == [(k, v)] + s[..capacity - 1];
    }
  }

  lemma Splicing<K, V>(s: seq<Node<K, V>>, m: map<K, Node<K, V>>, i: nat)
    requires Linked(s, m) && i < |s|
    requires forall j :: 0 <= j < |s| && j != i ==> s[j] != s[i]
    ensures Spliced(s, s[i]) == [s[i]] + (s[..i] + s[i + 1..])
    ensures Linked(Spliced(s, s[i]), m)
    ensures forall n :: n in Spliced(s, s[i]) <==> n in s
  {
    ErasedAt(s, i);
  }

  lemma Erasing<K, V>(s: seq<Node<K, V>>, m: map<K, Node<K, V>>, i: nat)
    requires Linked(s, m) && i < |s|
    requires forall j :: 0 <= j < |s| && j != i ==> s[j] != s[i]
    ensures Erased(s, s[i]) == s[..i] + s[i + 1..]
    ensures Linked(Erased(s, s[i]), m - {s[i].first})
    ensures forall n :: n in Erased(s, s[i]) ==> n in s && n.first != s[i].first
  {
    ErasedAt(s, i);
    forall n | n in Erased(s, s[i]) ensures n.first != s[i].first {
      assert m[n.first] == n && s[i] in s && m[s[i].first] == s[i];
    }
  }
}
