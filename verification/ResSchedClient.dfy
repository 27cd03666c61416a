/** The client: nested listener tables, the proxy, and recovery after the service comes back. */
module ResSchedClient {
  import opened Basics
  import opened ClientSpec

  type Nested = map<int, map<int, seq<Listener>>>

  /** The nested table, read pair by pair. */
  ghost predicate Nests(n: Nested, t: Table) {
    forall p :: (p in t <==> p.0 in n && p.1 in n[p.0]) && (p in t ==> t[p] == n[p.0][p.1])
  }

  /** No inner map is empty. */
  ghost predicate NoEmptyInner(n: Nested) {
    forall t :: t in n ==> n[t] != map[]
  }

  /** The pairs of a map of groups by type. */
  ghost predicate Lists(m: map<int, set<int>>, s: set<Pair>) {
    forall p :: p in s <==> p.0 in m && p.1 in m[p.0]
  }

  /** std::list::remove drops every equal element. */
  method Removed(s: seq<Listener>, l: Option<Listener>) returns (r: seq<Listener>)
    ensures r == Excluding(s, l)
  {
    if l.None? {
      return s;
    }
    r := [];
    for i := 0 to |s|
      invariant r == Without(s[..i], l.value)
    {
      assert s[..i + 1][..i] == s[..i];
      if s[i] != l.value {
        r := r + [s[i]];
      }
    }
    assert s[..|s|] == s;
  }

  /** Appends unless present: both listener lists are filled this way. */
  method Appended(s: seq<Listener>, l: Listener) returns (r: seq<Listener>)
    ensures r == Including(s, Some(l))
  {
    for i := 0 to |s|
      invariant l !in s[..i]
    {
      if s[i] == l {
        return s;
      }
    }
    assert s[..|s|] == s;
    return s + [l];
  }

  class InnerEventListener {
    var eventListeners: Nested
    ghost var table: Table   // the same, by pair

    ghost predicate Valid()
      reads this
    {
      NoEmptyInner(eventListeners) && Nests(eventListeners, table)
    }

    constructor ()
      ensures Valid() && table == map[]
    {
      eventListeners, table := map[], map[];
    }

    method RegisterEventListener(listener: Option<Listener>, eventType: int, group: int)
      requires Valid()
      modifies this
      ensures Valid() && table == AddListener(old(table), listener, (eventType, group))
      ensures var p := (eventType, group);
        var was := if p in old(table) then old(table)[p] else [];
        && (listener.None? ==> table == old(table))
        && (listener.Some? ==>
          && p in table && table[p] == (if listener.value in was then was else was + [listener.value])
          && table - {p} == old(table) - {p})
    {
      if listener.None? {
        return;
      }
      ghost var pair := (eventType, group);
      ghost var list := Including(if pair in table then table[pair] else [], listener);
      NestsPut(eventListeners, table, pair, list);
      if eventType !in eventListeners {
        eventListeners := eventListeners[eventType := map[group := [listener.value]]];
        assert list == [listener.value];
      } else {
        var groups := eventListeners[eventType];
        var listenerItem := Appended(if group in groups then groups[group] else [], listener.value);
        eventListeners := eventListeners[eventType := groups[group := listenerItem]];
      }
      table := table[pair := list];
    }

    method UnRegisterEventListener(listener: Option<Listener>, eventType: int, group: int)
      requires Valid()
      modifies this
      ensures Valid() && table == RemoveListener(old(table), listener, (eventType, group))
      ensures OnlyLoses(old(table), table, (eventType, group), listener)
    {
      OnlyThatIsLost(table, listener, (eventType, group));
      if eventType !in eventListeners {
        return;
      }
      var groups := eventListeners[eventType];
      if group !in groups {
        return;
      }
      ghost var pair := (eventType, group);
      var list := Removed(groups[group], listener);
      NestsPut(eventListeners, table, pair, list);
      NestsDrop(eventListeners, table, pair);
      table := RemoveListener(table, listener, pair);
      groups := if |list| == 0 then groups - {group} else groups[group := list];
      if |groups| == 0 {
        eventListeners := eventListeners - {eventType};
      } else {
        eventListeners := eventListeners[eventType := groups];
      }
    }

    method IsInnerEventMapEmpty(eventType: int, group: int) returns (empty: bool)
      requires Valid()
      ensures empty <==> (eventType, group) !in table || table[(eventType, group)] == []
    {
      if eventType !in eventListeners {
        return true;
      }
      return group !in eventListeners[eventType] || |eventListeners[eventType][group]| == 0;
    }

    /** The listeners an event goes to, in order; None stands for the error of an unknown type or group. */
    method OnReceiveEvent(eventType: int, group: int) returns (notified: Option<seq<Listener>>)
      requires Valid()
      ensures notified.Some? <==> (eventType, group) in table
      ensures notified.Some? ==> notified.value == table[(eventType, group)]
    {
      if eventType !in eventListeners || group !in eventListeners[eventType] {
        return None;
      }
      return Some(eventListeners[eventType][group]);
    }

    method GetRegisteredTypesAndGroup() returns (ret: map<int, seq<int>>)
      ensures ret.Keys == eventListeners.Keys
      ensures forall t :: t in ret ==> Enumerates(ret[t], eventListeners[t].Keys)
    {
      ret := map[];
      var todo := eventListeners.Keys;
      while todo != {}
        invariant todo <= eventListeners.Keys && ret.Keys == eventListeners.Keys - todo
        invariant forall t :: t in ret ==> Enumerates(ret[t], eventListeners[t].Keys)
      {
        ghost var some := Member(todo);
        var eventType :| eventType in todo;
        todo := todo - {eventType};
        var groups := GroupsOf(eventListeners[eventType]);
        ret := ret[eventType := groups];
      }
    }
  }

  method GroupsOf(m: map<int, seq<Listener>>) returns (groups: seq<int>)
    ensures Enumerates(groups, m.Keys)
  {
    groups := [];
    var todo := m.Keys;
    while todo != {}
      invariant todo <= m.Keys
      invariant Enumerates(groups, m.Keys - todo)
    {
      ghost var some := Member(todo);
      var group :| group in todo;
      todo := todo - {group};
      groups := groups + [group];
    }
  }

  lemma NestsPut(n: Nested, t: Table, p: Pair, list: seq<Listener>)
    requires Nests(n, t) && NoEmptyInner(n)
    ensures var next := n[p.0 := (if p.0 in n then n[p.0] else map[])[p.1 := list]];
      Nests(next, t[p := list]) && NoEmptyInner(next)
  {
    var groups := (if p.0 in n then n[p.0] else map[])[p.1 := list];
    assert p.1 in groups;
    forall q ensures q == p <==> q.0 == p.0 && q.1 == p.1 {
      assert q == (q.0, q.1) && p == (p.0, p.1);
    }
  }

  lemma NestsDrop(n: Nested, t: Table, p: Pair)
    requires Nests(n, t) && NoEmptyInner(n) && p in t
    ensures var groups := n[p.0] - {p.1};
      var next := if |groups| == 0 then n - {p.0} else n[p.0 := groups];
      Nests(next, t - {p}) && NoEmptyInner(next)
  {
    var groups := n[p.0] - {p.1};
    if |groups| == 0 {
      assert groups == map[];
    }
    forall q ensures q == p <==> q.0 == p.0 && q.1 == p.1 {
      assert q == (q.0, q.1) && p == (p.0, p.1);
    }
    assert forall g :: g in groups <==> g in n[p.0] && g != p.1;
  }

  class SystemloadLevelListener {
    var systemloadLevelCbs: seq<Listener>

    constructor ()
      ensures systemloadLevelCbs == []
    {
      systemloadLevelCbs := [];
    }

    method RegisterSystemloadLevelCb(callback: Option<Listener>)
      modifies this
      ensures systemloadLevelCbs == Including(old(systemloadLevelCbs), callback)
      ensures systemloadLevelCbs == old(systemloadLevelCbs)
        + if callback.None? || callback.value in old(systemloadLevelCbs) then [] else [callback.value]
    {
      if callback.Some? {
        systemloadLevelCbs := Appended(systemloadLevelCbs, callback.value);
      }
    }

    method UnRegisterSystemloadLevelCb(callback: Option<Listener>)
      modifies this
      ensures systemloadLevelCbs == Excluding(old(systemloadLevelCbs), callback)
    {
      systemloadLevelCbs := Removed(systemloadLevelCbs, callback);
    }
  }

  class ResSchedClient {
    var isDestroyed: bool
    var hasProxy: bool                                  // rss_ is not null
    var innerEventListener: InnerEventListener?
    var systemloadLevelListener: SystemloadLevelListener?
    var registeredInnerEvents: map<int, set<int>>
    var systemloadCbRegistered: bool
    ghost var registered: set<Pair>                     // registeredInnerEvents, by pair
    ghost var calls: seq<Call>                          // calls through the proxies so far

    ghost function View(): Client
      reads this, innerEventListener, systemloadLevelListener
    {
      Client(isDestroyed, hasProxy,
        innerEventListener != null,
        if innerEventListener != null then innerEventListener.table else map[],
        registered,
        systemloadLevelListener != null,
        if systemloadLevelListener != null then systemloadLevelListener.systemloadLevelCbs else [],
        systemloadCbRegistered)
    }

    /** Besides what every run keeps: a service that got all these calls holds exactly what the client believes. */
    ghost predicate Valid()
      reads this, innerEventListener, systemloadLevelListener
    {
      && Consistent(View())
      && (innerEventListener != null ==> innerEventListener.Valid())
      && Lists(registeredInnerEvents, registered)
      && (!hasProxy ==> registeredInnerEvents == map[])
      && Replay(calls) == Held(registered, systemloadCbRegistered)
    }

    constructor ()
      ensures Valid() && View() == Fresh
    {
      isDestroyed, hasProxy := false, false;
      innerEventListener, systemloadLevelListener := null, null;
      registeredInnerEvents, registered, systemloadCbRegistered, calls := map[], {}, false, [];
    }

    method TryConnect(outcome: Outcome) returns (ok: bool)
      requires Valid()
      modifies this`hasProxy
      ensures Valid() && View() == AfterConnect(old(View()), outcome)
      ensures ok <==> ConnectOk(old(View()), outcome)
    {
      if isDestroyed {
        return false;
      }
      if hasProxy {
        return true;
      }
      match outcome
      case NoProxy => return false;
      case NoRecipient => hasProxy := true; return false;
      case Connects => hasProxy := true; return true;
    }

    /** Also what the death recipient runs. */
    method StopRemoteObject()
      requires Valid()
      modifies this`hasProxy, this`systemloadCbRegistered, this`registeredInnerEvents, this`registered, this`calls
      ensures Valid() && View() == Disconnected(old(View())) && registeredInnerEvents == map[]
    {
      hasProxy := false;
      systemloadCbRegistered := false;
      registeredInnerEvents, registered := map[], {};
      ReplayNext(calls, Lost);
      calls := calls + [Lost];
    }

    method Destroy()
      requires Valid()
      modifies this`isDestroyed, this`hasProxy, this`systemloadCbRegistered
      modifies this`registeredInnerEvents, this`registered, this`calls
      ensures Valid() && View() == Step(old(View()), Event.Destroy)
    {
      StopRemoteObject();
      isDestroyed := true;
    }

    method InitInnerEventListenerLocked(alloc: bool) returns (ok: bool)
      requires Valid()
      modifies this`innerEventListener
      ensures Valid() && View() == old(View()).(hasEvents := ok)
      ensures ok <==> old(innerEventListener) != null || alloc
      ensures innerEventListener == old(innerEventListener) || fresh(innerEventListener)
      ensures ok ==> innerEventListener != null
    {
      if innerEventListener != null {
        return true;
      }
      if !alloc {
        return false;
      }
      innerEventListener := new InnerEventListener();
      return true;
    }

    method InitSystemloadListenersLocked(alloc: bool) returns (ok: bool)
      requires Valid()
      modifies this`systemloadLevelListener
      ensures Valid() && View() == old(View()).(hasLoad := ok)
      ensures ok <==> old(systemloadLevelListener) != null || alloc
      ensures systemloadLevelListener == old(systemloadLevelListener) || fresh(systemloadLevelListener)
      ensures ok ==> systemloadLevelListener != null
    {
      if systemloadLevelListener != null {
        return true;
      }
      if !alloc {
        return false;
      }
      systemloadLevelListener := new SystemloadLevelListener();
      return true;
    }

    /** Tell the service about a pair, and remember having done so. */
    method RegisterAtService(eventType: int, group: int)
      requires Valid() && hasProxy && (eventType, group) in View().table
      modifies this`registeredInnerEvents, this`registered, this`calls
      ensures Valid() && View() == old(View()).(registered := old(registered) + {(eventType, group)})
      ensures calls == old(calls) + [RegisterEvent((eventType, group))]
    {
      ListsPut(registeredInnerEvents, registered, (eventType, group));
      ReplayNext(calls, RegisterEvent((eventType, group)));
      calls := calls + [RegisterEvent((eventType, group))];
      if eventType !in registeredInnerEvents {
        registeredInnerEvents := registeredInnerEvents[eventType := {}];
      }
      registeredInnerEvents := registeredInnerEvents[eventType := registeredInnerEvents[eventType] + {group}];
      registered := registered + {(eventType, group)};
    }

    method RegisterEventListener(listener: Option<Listener>, eventType: int, group: int, alloc: bool)
      requires Valid()
      modifies this`innerEventListener, innerEventListener, this`registeredInnerEvents, this`registered, this`calls
      ensures Valid() && View() == Step(old(View()), Register(listener, (eventType, group), alloc))
      ensures innerEventListener == old(innerEventListener) || fresh(innerEventListener)
    {
      ghost var c := View();
      var ok := InitInnerEventListenerLocked(alloc);
      if !ok {
        return;
      }
      GrownTableIsConsistent(c, listener, (eventType, group));
      innerEventListener.RegisterEventListener(listener, eventType, group);
      assert View() == c.(hasEvents := true, table := AddListener(c.table, listener, (eventType, group)));
      RegisterIfNew(eventType, group);
    }

    /** A pair with listeners that the service does not know yet is registered, given a proxy. */
    method RegisterIfNew(eventType: int, group: int)
      requires Valid() && innerEventListener != null
      modifies this`registeredInnerEvents, this`registered, this`calls
      ensures Valid()
      ensures View() == old(View()).(registered :=
        if hasProxy && (eventType, group) in View().table
        then old(registered) + {(eventType, group)} else old(registered))
    {
      var empty := innerEventListener.IsInnerEventMapEmpty(eventType, group);
      if (eventType !in registeredInnerEvents || group !in registeredInnerEvents[eventType]) && !empty && hasProxy {
        RegisterAtService(eventType, group);
      } else if hasProxy && (eventType, group) in innerEventListener.table {
        assert registered + {(eventType, group)} == registered;
      }
    }

    method UnRegisterEventListener(listener: Option<Listener>, eventType: int, group: int)
      requires Valid()
      modifies innerEventListener, this`registeredInnerEvents, this`registered, this`calls
      ensures Valid() && View() == Step(old(View()), Unregister(listener, (eventType, group)))
    {
      if innerEventListener == null {
        return;
      }
      ghost var c := View();
      TableStaysGood(c.table, listener, (eventType, group));
      innerEventListener.UnRegisterEventListener(listener, eventType, group);
      assert View() == c.(table := RemoveListener(c.table, listener, (eventType, group)));
      UnRegisterEventListenerLocked(eventType, group);
    }

    /** After the table has lost a listener of the pair: the pair may have to go at the service too. */
    method UnRegisterEventListenerLocked(eventType: int, group: int)
      requires innerEventListener != null && innerEventListener.Valid()
      requires Consistent(View().(registered := registered - {(eventType, group)}))
        || ((eventType, group) in innerEventListener.table && Consistent(View()))
      requires GoodTable(innerEventListener.table) && (hasProxy || registeredInnerEvents == map[])
      requires Lists(registeredInnerEvents, registered) && Replay(calls) == Held(registered, systemloadCbRegistered)
      modifies this`registeredInnerEvents, this`registered, this`calls
      ensures Valid()
      ensures View() == old(View()).(registered :=
        if hasProxy && (eventType, group) !in innerEventListener.table
        then old(registered) - {(eventType, group)} else old(registered))
    {
      var empty := innerEventListener.IsInnerEventMapEmpty(eventType, group);
      if empty && hasProxy {
        ListsDrop(registeredInnerEvents, registered, (eventType, group));
        ReplayNext(calls, UnregisterEvent((eventType, group)));
        calls := calls + [UnregisterEvent((eventType, group))];
        if eventType in registeredInnerEvents {
          registeredInnerEvents := registeredInnerEvents[eventType := registeredInnerEvents[eventType] - {group}];
        }
        registered := registered - {(eventType, group)};
      }
    }

    /** Tell the service about the load notifier unless it knows, there is nobody to notify, or no proxy. */
    method RegisterLoadAtService()
      requires Valid() && systemloadLevelListener != null
      modifies this`systemloadCbRegistered, this`calls
      ensures Valid()
      ensures View() == old(View()).(loadRegistered :=
        old(systemloadCbRegistered) || (systemloadLevelListener.systemloadLevelCbs != [] && hasProxy))
      ensures old(calls) <= calls
    {
      if !systemloadCbRegistered && |systemloadLevelListener.systemloadLevelCbs| != 0 && hasProxy {
        NotifiedIsConsistent(View());
        ghost var notified := View().(loadRegistered := true);
        ReplayNext(calls, RegisterNotifier);
        calls := calls + [RegisterNotifier];
        systemloadCbRegistered := true;
        assert View() == notified;
      }
    }

    method RegisterSystemloadNotifier(callback: Option<Listener>, alloc: bool)
      requires Valid()
      modifies this`systemloadLevelListener, systemloadLevelListener, this`systemloadCbRegistered, this`calls
      ensures Valid() && View() == Step(old(View()), RegisterLoad(callback, alloc))
      ensures systemloadLevelListener == old(systemloadLevelListener) || fresh(systemloadLevelListener)
    {
      var ok := InitSystemloadListenersLocked(alloc);
      if !ok {
        return;
      }
      systemloadLevelListener.RegisterSystemloadLevelCb(callback);
      RegisterLoadAtService();
    }

    method UnRegisterSystemloadNotifier(callback: Option<Listener>)
      requires Valid()
      modifies systemloadLevelListener, this`systemloadCbRegistered, this`calls
      ensures Valid() && View() == Step(old(View()), UnregisterLoad(callback))
    {
      if systemloadLevelListener == null {
        return;
      }
      ghost var c := View();
      StepIsConsistent(c, UnregisterLoad(callback));
      ghost var next := Step(c, UnregisterLoad(callback));
      systemloadLevelListener.UnRegisterSystemloadLevelCb(callback);
      assert View() == c.(callbacks := Excluding(c.callbacks, callback));
      if |systemloadLevelListener.systemloadLevelCbs| == 0 && hasProxy {
        ReplayNext(calls, UnregisterNotifier);
        calls := calls + [UnregisterNotifier];
        systemloadCbRegistered := false;
      }
      assert View() == next;
    }

    /** Every pair of the table is registered again, known or not, by one call each. */
    method RecoverEventListener() returns (ghost made: seq<Pair>)
      requires Valid() && innerEventListener != null
      modifies this`registeredInnerEvents, this`registered, this`calls
      ensures Valid() && View() == RecoverEvents(old(View()), true)
      ensures Enumerates(made, if hasProxy then innerEventListener.table.Keys else {})
      ensures calls == old(calls) + Registrations(made)
    {
      var typesAndGroups := innerEventListener.GetRegisteredTypesAndGroup();
      var todo := typesAndGroups.Keys;
      made := [];
      NothingMore(calls);
      while todo != {}
        invariant Valid() && todo <= typesAndGroups.Keys
        invariant View() == old(View()).(registered := registered)
        invariant forall p :: p in registered <==> p in old(registered) || p in made
        invariant RecoveredBut(innerEventListener.table, hasProxy, made, todo)
        invariant calls == old(calls) + Registrations(made)
      {
        ghost var some := Member(todo);
        var eventType :| eventType in todo;
        ghost var more := RecoverType(eventType, typesAndGroups[eventType]);
        OneMoreType(innerEventListener.table, hasProxy, made, todo, eventType, typesAndGroups[eventType]);
        RegistrationsAdd(made, more);
        Rejoin(old(calls), Registrations(made), Registrations(more));
        todo, made := todo - {eventType}, made + more;
      }
    }

    method RecoverType(eventType: int, groups: seq<int>) returns (ghost made: seq<Pair>)
      requires Valid() && innerEventListener != null
      requires forall g :: g in groups <==> (eventType, g) in innerEventListener.table
      modifies this`registeredInnerEvents, this`registered, this`calls
      ensures Valid() && View() == old(View()).(registered := registered)
      ensures made == if hasProxy then PairsOf(eventType, groups) else []
      ensures forall p :: p in registered <==> p in old(registered) || p in made
      ensures calls == old(calls) + Registrations(made)
    {
      made := [];
      NothingMore(calls);
      for n := 0 to |groups|
        invariant Valid() && View() == old(View()).(registered := registered)
        invariant made == if hasProxy then PairsOf(eventType, groups[..n]) else []
        invariant forall p :: p in registered <==> p in old(registered) || p in made
        invariant calls == old(calls) + Registrations(made)
      {
        if !hasProxy {
          return;
        }
        ghost var pair := (eventType, groups[n]);
        assert groups[n] in groups;
        PairsNext(eventType, groups, n);
        RegistrationsNext(old(calls), made, pair);
        RegisterAtService(eventType, groups[n]);
        made := made + [pair];
      }
      assert groups[..|groups|] == groups;
    }

    /** made lists the registrations of the recovery, if one takes place. */
    method OnAddSystemAbility(ours: bool, outcome: Outcome, alloc: bool, allocLoad: bool)
      returns (ghost made: seq<Pair>)
      requires Valid()
      modifies this, innerEventListener, systemloadLevelListener
      ensures Valid() && View() == Step(old(View()), Added(ours, outcome, alloc, allocLoad))
      ensures Enumerates(made, if ours && ConnectOk(old(View()), outcome) then old(View()).table.Keys else {})
      ensures old(calls) + Registrations(made) <= calls
    {
      made := [];
      NothingMore(calls);
      if !ours {
        return;
      }
      var connected := TryConnect(outcome);
      if !connected {
        return;
      }
      ghost var d := View();
      made := RecoverRegistrations(alloc);
      RecoverNotifier(allocLoad);
      assert View() == RecoverLoad(RecoverEvents(d, alloc), allocLoad);
    }

    /** The same for the load notifier. */
    method RecoverNotifier(alloc: bool)
      requires Valid()
      modifies this`systemloadLevelListener, this`systemloadCbRegistered, this`calls
      ensures Valid() && View() == RecoverLoad(old(View()), alloc)
      ensures old(calls) <= calls
    {
      var ok := InitSystemloadListenersLocked(alloc);
      if !ok {
        return;
      }
      RegisterLoadAtService();
    }

    /** The event part of a recovery, if there is a callback object or one can be made. */
    method RecoverRegistrations(alloc: bool) returns (ghost made: seq<Pair>)
      requires Valid()
      modifies this`innerEventListener, this`registeredInnerEvents, this`registered, this`calls
      ensures Valid() && View() == RecoverEvents(old(View()), alloc)
      ensures Enumerates(made, if hasProxy then old(View()).table.Keys else {})
      ensures calls == old(calls) + Registrations(made)
    {
      made := [];
      NothingMore(calls);
      var ok := InitInnerEventListenerLocked(alloc);
      if ok && hasProxy {
        made := RecoverEventListener();
      }
    }
  }

  function PairsOf(eventType: int, groups: seq<int>): (ps: seq<Pair>)
    ensures |ps| == |groups| && forall i :: 0 <= i < |groups| ==> ps[i] == (eventType, groups[i])
  {
    seq(|groups|, i requires 0 <= i < |groups| => (eventType, groups[i]))
  }

  lemma PairsOfMembers(eventType: int, groups: seq<int>, p: Pair)
    ensures p in PairsOf(eventType, groups) <==> p.0 == eventType && p.1 in groups
  {
    var ps := PairsOf(eventType, groups);
    if p in ps {
      var i :| 0 <= i < |ps| && ps[i] == p;
      assert groups[i] in groups;
    }
    if p.0 == eventType && p.1 in groups {
      var i :| 0 <= i < |groups| && groups[i] == p.1;
      assert ps[i] == (p.0, p.1) == p;
    }
  }

  lemma PairsNext(eventType: int, groups: seq<int>, n: nat)
    requires n < |groups|
    ensures PairsOf(eventType, groups[..n + 1]) == PairsOf(eventType, groups[..n]) + [(eventType, groups[n])]
  {
  }

  /** The pairs of all types but those in todo have been registered once each, given a proxy. */
  ghost predicate RecoveredBut(t: Table, proxy: bool, made: seq<Pair>, todo: set<int>) {
    NoDuplicates(made) && forall p :: p in made <==> proxy && p in t && p.0 !in todo
  }

  lemma OneMoreType(t: Table, proxy: bool, made: seq<Pair>, todo: set<int>, eventType: int, groups: seq<int>)
    requires RecoveredBut(t, proxy, made, todo) && eventType in todo && NoDuplicates(groups)
    requires forall g :: g in groups <==> (eventType, g) in t
    ensures RecoveredBut(t, proxy, made + if proxy then PairsOf(eventType, groups) else [], todo - {eventType})
  {
    var more := if proxy then PairsOf(eventType, groups) else [];
    forall p: Pair ensures p in more <==> proxy && p in t && p.0 == eventType {
      PairsOfMembers(eventType, groups, p);
      if p.0 == eventType {
        var g := p.1;
        assert g in groups <==> (eventType, g) in t;
        assert p == (eventType, g);
      }
    }
    forall i, j | 0 <= i < j < |made + more| ensures (made + more)[i] != (made + more)[j] {
      if i < |made| <= j {
        assert made[i] in made && more[j - |made|] in more;
      }
    }
  }

  lemma ListsPut(m: map<int, set<int>>, s: set<Pair>, p: Pair)
    requires Lists(m, s)
    ensures Lists(m[p.0 := (if p.0 in m then m[p.0] else {}) + {p.1}], s + {p})
  {
    forall q ensures q == p <==> q.0 == p.0 && q.1 == p.1 {
      assert q == (q.0, q.1) && p == (p.0, p.1);
    }
  }

  lemma ListsDrop(m: map<int, set<int>>, s: set<Pair>, p: Pair)
    requires Lists(m, s)
    ensures Lists(if p.0 in m then m[p.0 := m[p.0] - {p.1}] else m, s - {p})
  {
    forall q ensures q == p <==> q.0 == p.0 && q.1 == p.1 {
      assert q == (q.0, q.1) && p == (p.0, p.1);
    }
  }
}
