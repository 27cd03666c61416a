/** The native-caller permission check of the service, with its token cache. */
module PermissionGate {
  import opened Basics
  import opened LruSpec
  import opened LruCache

  /** One request: its type, and what the IPC layer says about who sends it. */
  datatype Caller = Caller(resType: int, uid: int, token: int, native: bool)

  /** Which request types are open to whom. */
  datatype Tables = Tables(allowSome: map<int, set<int>>, allowAll: set<int>)

  /** A type listed for some uids is open to those alone; any other type must be open to all. */
  predicate TypeAllowed(t: Tables, c: Caller) {
    if c.resType in t.allowSome then c.uid in t.allowSome[c.resType] else c.resType in t.allowAll
  }

  /** The verdict without any cache. A verifier answers zero for a granted token. */
  predicate DirectVerdict(t: Tables, verify: int -> int, c: Caller) {
    TypeAllowed(t, c) && c.native && verify(c.token) == 0
  }

  ghost predicate Faithful(s: Entries<int, int>, verify: int -> int) {
    forall e :: e in s ==> e.1 == verify(e.0)
  }

  /** The cache after one check: only native callers of an allowed type reach it. */
  function AfterCheck(s: Entries<int, int>, capacity: nat, t: Tables, verify: int -> int, c: Caller): Entries<int, int>
  {
    if !TypeAllowed(t, c) || !c.native then s
    else if Lookup(s, c.token).Some? then AfterGet(s, c.token)
    else AfterPut(s, capacity, c.token, verify(c.token))
  }

  /** The verdict as the cache gives it. */
  predicate CachedVerdict(s: Entries<int, int>, t: Tables, verify: int -> int, c: Caller) {
    if !TypeAllowed(t, c) || !c.native then false
    else match Lookup(s, c.token)
      case Some(v) => v == 0
      case None => verify(c.token) == 0
  }

  /** A cache that only holds what the verifier says answers as the verifier does, and stays that way. */
  lemma FaithfulCacheIsInvisible(s: Entries<int, int>, capacity: nat, t: Tables, verify: int -> int, c: Caller)
    requires Faithful(s, verify)
    ensures Faithful(AfterCheck(s, capacity, t, verify, c), verify)
    ensures CachedVerdict(s, t, verify, c) <==> DirectVerdict(t, verify, c)
  {
  }

  function EntriesAfter(capacity: nat, t: Tables, verify: int -> int, calls: seq<Caller>): Entries<int, int> {
    if |calls| == 0 then []
    else AfterCheck(EntriesAfter(capacity, t, verify, calls[..|calls| - 1]), capacity, t, verify, calls[|calls| - 1])
  }

  lemma {:induction false} EntriesStayFaithful(capacity: nat, t: Tables, verify: int -> int, calls: seq<Caller>)
    ensures Faithful(EntriesAfter(capacity, t, verify, calls), verify)
  {
    if |calls| > 0 {
      var before := calls[..|calls| - 1];
      EntriesStayFaithful(capacity, t, verify, before);
      FaithfulCacheIsInvisible(EntriesAfter(capacity, t, verify, before), capacity, t, verify, calls[|calls| - 1]);
    }
  }

  /** With a fixed verifier the cache is invisible: each call of each run is answered as if checked afresh. */
  lemma CacheIsInvisible(capacity: nat, t: Tables, verify: int -> int, calls: seq<Caller>, i: nat)
    requires i < |calls|
    ensures CachedVerdict(EntriesAfter(capacity, t, verify, calls[..i]), t, verify, calls[i])
      <==> DirectVerdict(t, verify, calls[i])
  {
    EntriesStayFaithful(capacity, t, verify, calls[..i]);
    FaithfulCacheIsInvisible(EntriesAfter(capacity, t, verify, calls[..i]), capacity, t, verify, calls[i]);
  }

  /**
   * Over every run with a fixed verifier, a call is granted exactly when its type is listed for its uid, or listed for
   * nobody in particular and open to all; it comes from a native process; and its token verifies to zero.
   */
  lemma {:induction false} GrantsExactly(capacity: nat, t: Tables, verify: int -> int, calls: seq<Caller>, i: nat)
    requires i < |calls|
    ensures var c := calls[i];
      CachedVerdict(EntriesAfter(capacity, t, verify, calls[..i]), t, verify, c)
      <==> (
        && (c.resType in t.allowSome ==> c.uid in t.allowSome[c.resType])
        && (c.resType !in t.allowSome ==> c.resType in t.allowAll)
        && c.native && verify(c.token) == 0)
  {
    CacheIsInvisible(capacity, t, verify, calls, i);
  }

  /** A call of a native process, with a type listed for its uid, or for nobody in particular and open to all. */
  ghost predicate Admitted(t: Tables, c: Caller) {
    c.native && if c.resType in t.allowSome then c.uid in t.allowSome[c.resType] else c.resType in t.allowAll
  }

  /** The token is first; the others keep their order, the last one going if the cache was full without this one. */
  ghost predicate ComesFirst(
      before: Entries<int, int>, after: Entries<int, int>, capacity: nat, token: int, answer: int)
    requires capacity >= 1
  {
    var others := Without(before, token);
    && |after| >= 1 && after[0] == (token, answer)
    && after[1..] == if |others| < capacity || HasKey(before, token) then others else others[..capacity - 1]
  }

  lemma GotComesFirst(s: Entries<int, int>, capacity: nat, token: int, answer: int)
    requires capacity >= 1 && Lookup(s, token) == Some(answer)
    ensures ComesFirst(s, AfterGet(s, token), capacity, token, answer)
  {
  }

  lemma PutComesFirst(s: Entries<int, int>, capacity: nat, token: int, answer: int)
    requires capacity >= 1 && Lookup(s, token) == None
    ensures ComesFirst(s, AfterPut(s, capacity, token, answer), capacity, token, answer)
  {
    var others := Without(s, token);
    var all := [(token, answer)] + others;
    if |all| > capacity {
      assert all[..capacity][1..] == others[..capacity - 1];
    }
  }

  /**
   * Over every run with a fixed verifier, an admitted call brings its token to the front of the cache, with what the
   * verifier says of it; any other call leaves the cache as it was.
   */
  lemma {:induction false} AdmittedTokenComesFirst(
      capacity: nat, t: Tables, verify: int -> int, calls: seq<Caller>, c: Caller)
    requires capacity >= 1
    ensures var before := EntriesAfter(capacity, t, verify, calls);
      var after := EntriesAfter(capacity, t, verify, calls + [c]);
      if Admitted(t, c) then ComesFirst(before, after, capacity, c.token, verify(c.token)) else after == before
  {
    var before := EntriesAfter(capacity, t, verify, calls);
    assert (calls + [c])[..|calls + [c]| - 1] == calls;
    EntriesStayFaithful(capacity, t, verify, calls);
    if Admitted(t, c) {
      if Lookup(before, c.token).Some? {
        GotComesFirst(before, capacity, c.token, verify(c.token));
      } else {
        PutComesFirst(before, capacity, c.token, verify(c.token));
      }
    }
  }

  class PermissionChecker {
    const tables: Tables
    const permissionCache: ResschedLruCache<int, int>

    constructor (tables: Tables, capacity: nat)
      ensures this.tables == tables && permissionCache.capacity == capacity
      ensures permissionCache.Valid() && permissionCache.entries == []
    {
      this.tables := tables;
      permissionCache := new ResschedLruCache(capacity);
    }

    method IsHasPermission(c: Caller, verify: int -> int) returns (ok: bool)
      requires permissionCache.Valid() && permissionCache.capacity >= 1
      modifies permissionCache, permissionCache.lruList
      ensures permissionCache.Valid()
      ensures permissionCache.entries
        == AfterCheck(old(permissionCache.entries), permissionCache.capacity, tables, verify, c)
      ensures ok <==> CachedVerdict(old(permissionCache.entries), tables, verify, c)
      ensures ok ==> c.native && if c.resType in tables.allowSome then c.uid in tables.allowSome[c.resType]
        else c.resType in tables.allowAll
      ensures (forall e :: e in old(permissionCache.entries) ==> e.1 == verify(e.0)) ==>
        (ok <==> (
          && c.native && verify(c.token) == 0
          && if c.resType in tables.allowSome then c.uid in tables.allowSome[c.resType]
             else c.resType in tables.allowAll))
    {
      if c.resType in tables.allowSome {
        if c.uid !in tables.allowSome[c.resType] {
          return false;
        }
      } else if c.resType !in tables.allowAll {
        return false;
      }
      if !c.native {
        return false;
      }
      var cached := permissionCache.Get(c.token);
      if cached.Some? {
        return cached.value == 0;
      }
      var hasPermission := verify(c.token);
      permissionCache.Put(c.token, hasPermission);
      if hasPermission != 0 {
        return false;
      }
      return true;
    }
  }
}
