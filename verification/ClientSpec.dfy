/** What the client believes it has registered at a service that can die and come back. */
module ClientSpec {
  import opened Basics

  datatype Listener = Listener(id: int)

  /** An event type and a listener group. */
  type Pair = (int, int)

  type Table = map<Pair, seq<Listener>>

  /**
   * hasEvents and hasLoad: whether the two callback objects exist yet. registered and loadRegistered:
   * what the client believes the service knows. connected: whether it holds a proxy.
   */
  datatype Client = Client(
    destroyed: bool, connected: bool,
    hasEvents: bool, table: Table, registered: set<Pair>,
    hasLoad: bool, callbacks: seq<Listener>, loadRegistered: bool)

  /** How an attempt to get a proxy ends; without a death recipient there is a proxy all the same. */
  datatype Outcome = NoProxy | NoRecipient | Connects

  /**
   * alloc flags say whether a callback object could be allocated, should one be needed. Died is the notice of the
   * service's death; the death itself the client does not see.
   */
  datatype Event =
    | Connect(outcome: Outcome)
    | Register(listener: Option<Listener>, pair: Pair, alloc: bool)
    | Unregister(listener: Option<Listener>, pair: Pair)
    | RegisterLoad(callback: Option<Listener>, alloc: bool)
    | UnregisterLoad(callback: Option<Listener>)
    | Died
    | ServiceDies
    | Added(ours: bool, outcome: Outcome, alloc: bool, allocLoad: bool)
    | Destroy

  function Without(s: seq<Listener>, l: Listener): (r: seq<Listener>)
    ensures l !in r && forall x :: x in r <==> x in s && x != l
  {
    if |s| == 0 then []
    else Without(s[..|s| - 1], l) + if s[|s| - 1] == l then [] else [s[|s| - 1]]
  }

  /** A null listener is not stored, and no listener twice. */
  function Including(s: seq<Listener>, l: Option<Listener>): seq<Listener> {
    if l.None? || l.value in s then s else s + [l.value]
  }

  function Excluding(s: seq<Listener>, l: Option<Listener>): seq<Listener> {
    if l.None? then s else Without(s, l.value)
  }

  function AddListener(t: Table, l: Option<Listener>, p: Pair): Table {
    if l.None? then t else t[p := Including(if p in t then t[p] else [], l)]
  }

  /** A pair whose last listener goes, goes too. */
  function RemoveListener(t: Table, l: Option<Listener>, p: Pair): Table {
    if p !in t then t
    else if Excluding(t[p], l) == [] then t - {p}
    else t[p := Excluding(t[p], l)]
  }

  function AfterConnect(c: Client, o: Outcome): Client {
    if c.destroyed || c.connected || o.NoProxy? then c else c.(connected := true)
  }

  predicate ConnectOk(c: Client, o: Outcome) {
    !c.destroyed && (c.connected || o.Connects?)
  }

  function Disconnected(c: Client): Client {
    c.(connected := false, registered := {}, loadRegistered := false)
  }

  function AfterRegister(c: Client, l: Option<Listener>, p: Pair, alloc: bool): Client {
    if !c.hasEvents && !alloc then c
    else
      var t := AddListener(c.table, l, p);
      c.(hasEvents := true, table := t,
         registered := if c.connected && p in t then c.registered + {p} else c.registered)
  }

  function AfterUnregister(c: Client, l: Option<Listener>, p: Pair): Client {
    if !c.hasEvents then c
    else
      var t := RemoveListener(c.table, l, p);
      c.(table := t, registered := if c.connected && p !in t then c.registered - {p} else c.registered)
  }

  function AfterRegisterLoad(c: Client, cb: Option<Listener>, alloc: bool): Client {
    if !c.hasLoad && !alloc then c
    else
      var cbs := Including(c.callbacks, cb);
      c.(hasLoad := true, callbacks := cbs, loadRegistered := c.loadRegistered || (cbs != [] && c.connected))
  }

  function AfterUnregisterLoad(c: Client, cb: Option<Listener>): Client {
    if !c.hasLoad then c
    else
      var cbs := Excluding(c.callbacks, cb);
      c.(callbacks := cbs, loadRegistered := c.loadRegistered && !(cbs == [] && c.connected))
  }

  /** Everything in the table is registered again. */
  function RecoverEvents(c: Client, alloc: bool): Client {
    if !c.hasEvents && !alloc then c
    else c.(hasEvents := true, registered := if c.connected then c.registered + c.table.Keys else c.registered)
  }

  function RecoverLoad(c: Client, alloc: bool): Client {
    if !c.hasLoad && !alloc then c
    else c.(hasLoad := true, loadRegistered := c.loadRegistered || (c.callbacks != [] && c.connected))
  }

  function AfterAdded(c: Client, ours: bool, o: Outcome, alloc: bool, allocLoad: bool): Client {
    if !ours then c
    else if !ConnectOk(c, o) then AfterConnect(c, o)
    else RecoverLoad(RecoverEvents(AfterConnect(c, o), alloc), allocLoad)
  }

  function Step(c: Client, e: Event): Client {
    match e
    case Connect(o) => AfterConnect(c, o)
    case Register(l, p, alloc) => AfterRegister(c, l, p, alloc)
    case Unregister(l, p) => AfterUnregister(c, l, p)
    case RegisterLoad(cb, alloc) => AfterRegisterLoad(c, cb, alloc)
    case UnregisterLoad(cb) => AfterUnregisterLoad(c, cb)
    case Died => Disconnected(c)
    case ServiceDies => c
    case Added(ours, o, alloc, allocLoad) => AfterAdded(c, ours, o, alloc, allocLoad)
    case Destroy => Disconnected(c).(destroyed := true)
  }

  const Fresh := Client(false, false, false, map[], {}, false, [], false)

  function RunFrom(c: Client, es: seq<Event>): Client {
    if |es| == 0 then c else Step(RunFrom(c, es[..|es| - 1]), es[|es| - 1])
  }

  function Run(es: seq<Event>): Client {
    RunFrom(Fresh, es)
  }

  // ----- what every run keeps

  ghost predicate GoodTable(t: Table) {
    forall p :: p in t ==> t[p] != [] && NoDuplicates(t[p])
  }

  ghost predicate Consistent(c: Client) {
    && GoodTable(c.table) && NoDuplicates(c.callbacks)
    && c.registered <= c.table.Keys && (c.loadRegistered ==> c.callbacks != [])
    && (!c.connected ==> c.registered == {} && !c.loadRegistered)
    && (!c.hasEvents ==> c.table == map[]) && (!c.hasLoad ==> c.callbacks == [])
    && (c.destroyed ==> !c.connected)
  }

  lemma {:induction false} WithoutKeepsDistinct(s: seq<Listener>, l: Listener)
    requires NoDuplicates(s)
    ensures NoDuplicates(Without(s, l))
  {
    if |s| > 0 {
      WithoutKeepsDistinct(s[..|s| - 1], l);
      assert s[|s| - 1] !in s[..|s| - 1];
      assert s[|s| - 1] !in Without(s[..|s| - 1], l);
    }
  }

  lemma TableStaysGood(t: Table, l: Option<Listener>, p: Pair)
    requires GoodTable(t)
    ensures GoodTable(AddListener(t, l, p)) && GoodTable(RemoveListener(t, l, p))
    ensures AddListener(t, l, p).Keys == t.Keys + (if l.Some? then {p} else {})
    ensures p !in RemoveListener(t, l, p) ==> RemoveListener(t, l, p).Keys == t.Keys - {p}
    ensures p in RemoveListener(t, l, p) ==> RemoveListener(t, l, p).Keys == t.Keys
  {
    if l.Some? && p in t {
      WithoutKeepsDistinct(t[p], l.value);
    }
  }

  lemma StepIsConsistent(c: Client, e: Event)
    requires Consistent(c)
    ensures Consistent(Step(c, e))
  {
    match e
    case Register(l, p, _) => TableStaysGood(c.table, l, p);
    case Unregister(l, p) => TableStaysGood(c.table, l, p);
    case UnregisterLoad(cb) => if cb.Some? { WithoutKeepsDistinct(c.callbacks, cb.value); }
    case _ =>
  }

  lemma GrownTableIsConsistent(c: Client, l: Option<Listener>, p: Pair)
    requires Consistent(c)
    ensures Consistent(c.(hasEvents := true, table := AddListener(c.table, l, p)))
  {
    TableStaysGood(c.table, l, p);
  }

  lemma NotifiedIsConsistent(c: Client)
    requires Consistent(c) && c.connected && c.callbacks != []
    ensures Consistent(c.(loadRegistered := true))
  {
  }

  /**
   * Over every run: without a proxy nothing counts as registered, only pairs with listeners do, and the
   * table never has an empty pair or a listener twice.
   */
  lemma {:induction false} RunIsConsistent(es: seq<Event>)
    ensures Consistent(Run(es))
  {
    if |es| > 0 {
      RunIsConsistent(es[..|es| - 1]);
      StepIsConsistent(Run(es[..|es| - 1]), es[|es| - 1]);
    }
  }

  /** All listeners of all pairs are as before, in their order, but for this one of this pair. */
  ghost predicate OnlyLoses(was: Table, now: Table, p: Pair, l: Option<Listener>) {
    && now - {p} == was - {p}
    && (l.None? && (p in was ==> was[p] != []) ==> now == was)
    && (l.Some? ==>
      && (forall x :: (p in now && x in now[p]) <==> p in was && x in was[p] && x != l.value)
      && (p in now ==> p in was && now[p] == Without(was[p], l.value)))
  }

  lemma OnlyThatIsLost(t: Table, l: Option<Listener>, p: Pair)
    ensures OnlyLoses(t, RemoveListener(t, l, p), p, l)
  {
    if l.Some? && p in t {
      assert forall x :: x in t[p] && x != l.value ==> x in Without(t[p], l.value);
    }
  }

  // ----- what connects, and which listeners a pair has

  /** Destroyed for good by any destruction before. */
  predicate Destroyed(es: seq<Event>) {
    exists e :: e in es && e.Destroy?
  }

  /** Connected since the last attempt that found a proxy, unless a death notice or the destruction came later. */
  predicate Linked(es: seq<Event>) {
    if |es| == 0 then false
    else
      var before := es[..|es| - 1];
      match es[|es| - 1]
      case Died => false
      case Destroy => false
      case Connect(outcome) => Linked(before) || (!Destroyed(before) && outcome != NoProxy)
      case Added(ours, outcome, _, _) => Linked(before) || (ours && !Destroyed(before) && outcome != NoProxy)
      case _ => Linked(before)
  }

  lemma {:induction false} ConnectedExactlyWhenLinked(es: seq<Event>)
    ensures Run(es).connected == Linked(es) && Run(es).destroyed == Destroyed(es)
  {
    if |es| > 0 {
      var before, e := es[..|es| - 1], es[|es| - 1];
      ConnectedExactlyWhenLinked(before);
      RunIsConsistent(before);
      assert es == before + [e];
    }
  }

  /**
   * The event since which a listener is listed for a pair, or -1: its first registration after the last time it was
   * unregistered, not counting attempts for which no callback object could be had.
   */
  function Since(es: seq<Event>, p: Pair, l: Listener): (i: int)
    ensures i < |es|
  {
    if |es| == 0 then -1
    else
      var before, e := es[..|es| - 1], es[|es| - 1];
      if e.Unregister? && e.listener == Some(l) && e.pair == p then -1
      else if Since(before, p, l) < 0 && e.Register? && e.listener == Some(l) && e.pair == p
        && (Run(before).hasEvents || e.alloc) then |es| - 1
      else Since(before, p, l)
  }

  /** The same for a load callback. */
  function LoadSince(es: seq<Event>, l: Listener): (i: int)
    ensures i < |es|
  {
    if |es| == 0 then -1
    else
      var before, e := es[..|es| - 1], es[|es| - 1];
      if e.UnregisterLoad? && e.callback == Some(l) then -1
      else if LoadSince(before, l) < 0 && e.RegisterLoad? && e.callback == Some(l)
        && (Run(before).hasLoad || e.alloc) then |es| - 1
      else LoadSince(before, l)
  }

  /** Exactly the listeners with a moment, by ascending moments. */
  ghost predicate OrderedBy(s: seq<Listener>, since: Listener -> int) {
    && (forall l :: l in s <==> since(l) >= 0)
    && (forall i, j :: 0 <= i < j < |s| ==> since(s[i]) < since(s[j]))
  }

  lemma {:induction false} WithoutKeepsOrder(s: seq<Listener>, l: Listener, since: Listener -> int)
    requires forall i, j :: 0 <= i < j < |s| ==> since(s[i]) < since(s[j])
    ensures forall i, j :: 0 <= i < j < |Without(s, l)| ==> since(Without(s, l)[i]) < since(Without(s, l)[j])
  {
    if |s| > 0 {
      var older, last := s[..|s| - 1], s[|s| - 1];
      WithoutKeepsOrder(older, l, since);
      forall x | x in Without(older, l) ensures since(x) < since(last) {
        assert x in older;
      }
    }
  }

  lemma ExcludingKeepsOrder(s: seq<Listener>, l: Listener, was: Listener -> int, now: Listener -> int)
    requires OrderedBy(s, was) && now(l) == -1 && forall x :: x != l ==> now(x) == was(x)
    ensures OrderedBy(Without(s, l), now)
  {
    var r := Without(s, l);
    WithoutKeepsOrder(s, l, was);
    assert forall i :: 0 <= i < |r| ==> r[i] in r;
  }

  lemma IncludingKeepsOrder(s: seq<Listener>, l: Listener, was: Listener -> int, now: Listener -> int, moment: int)
    requires OrderedBy(s, was) && moment >= 0 && forall x :: was(x) < moment
    requires now(l) == (if was(l) < 0 then moment else was(l)) && forall x :: x != l ==> now(x) == was(x)
    ensures OrderedBy(Including(s, Some(l)), now)
  {
    assert forall i :: 0 <= i < |s| ==> s[i] in s;
  }

  function Listed(t: Table, p: Pair): seq<Listener> {
    if p in t then t[p] else []
  }

  lemma SameOrder(s: seq<Listener>, was: Listener -> int, now: Listener -> int)
    requires OrderedBy(s, was) && forall x :: now(x) == was(x)
    ensures OrderedBy(s, now)
  {
  }

  lemma ListedNext(c: Client, e: Event, p: Pair)
    requires Consistent(c)
    ensures Listed(Step(c, e).table, p)
      == if e.Register? && e.pair == p && (c.hasEvents || e.alloc) then Including(Listed(c.table, p), e.listener)
         else if e.Unregister? && e.pair == p then Excluding(Listed(c.table, p), e.listener)
         else Listed(c.table, p)
  {
    match e
    case Register(l, q, _) =>
    case Unregister(l, q) =>
    case _ =>
  }

  /**
   * Over every run: a pair's listeners are exactly those registered and not unregistered since, in the order of their
   * registrations; registering one again neither doubles nor moves it, and other pairs keep theirs.
   */
  lemma {:induction false} ListenersAreThoseRegistered(es: seq<Event>, p: Pair)
    ensures OrderedBy(Listed(Run(es).table, p), l => Since(es, p, l))
  {
    if |es| > 0 {
      var before, e := es[..|es| - 1], es[|es| - 1];
      var c, was, now := Run(before), l => Since(before, p, l), l => Since(es, p, l);
      ListenersAreThoseRegistered(before, p);
      RunIsConsistent(before);
      ListedNext(c, e, p);
      RunNext(es);
      if e.Register? && e.pair == p && e.listener.Some? && (c.hasEvents || e.alloc) {
        IncludingKeepsOrder(Listed(c.table, p), e.listener.value, was, now, |es| - 1);
      } else if e.Unregister? && e.pair == p && e.listener.Some? {
        ExcludingKeepsOrder(Listed(c.table, p), e.listener.value, was, now);
      } else {
        SameOrder(Listed(c.table, p), was, now);
      }
    }
  }

  lemma {:induction false} CallbacksAreThoseRegistered(es: seq<Event>)
    ensures OrderedBy(Run(es).callbacks, l => LoadSince(es, l))
  {
    if |es| > 0 {
      var before, e := es[..|es| - 1], es[|es| - 1];
      var c, was, now := Run(before), l => LoadSince(before, l), l => LoadSince(es, l);
      CallbacksAreThoseRegistered(before);
      RunIsConsistent(before);
      if e.RegisterLoad? && e.callback.Some? && (c.hasLoad || e.alloc) {
        IncludingKeepsOrder(c.callbacks, e.callback.value, was, now, |es| - 1);
      } else if e.UnregisterLoad? && e.callback.Some? {
        ExcludingKeepsOrder(c.callbacks, e.callback.value, was, now);
      } else {
        SameOrder(c.callbacks, was, now);
      }
    }
  }

  /** A callback object is there once it could be allocated when a registration or a recovery asked for it. */
  predicate EventObject(es: seq<Event>) {
    if |es| == 0 then false
    else
      var before, e := es[..|es| - 1], es[|es| - 1];
      EventObject(before) || ((e.Register? || Recovers(Run(before), e)) && e.alloc)
  }

  predicate LoadObject(es: seq<Event>) {
    if |es| == 0 then false
    else
      var before, e := es[..|es| - 1], es[|es| - 1];
      || LoadObject(before)
      || (e.RegisterLoad? && e.alloc) || (Recovers(Run(before), e) && e.allocLoad)
  }

  lemma {:induction false} ObjectsAreThoseAllocated(es: seq<Event>)
    ensures Run(es).hasEvents == EventObject(es) && Run(es).hasLoad == LoadObject(es)
  {
    if |es| > 0 {
      ObjectsAreThoseAllocated(es[..|es| - 1]);
      ObjectsNext(Run(es[..|es| - 1]), es[|es| - 1]);
      RunNext(es);
    }
  }

  lemma ObjectsNext(c: Client, e: Event)
    ensures Step(c, e).hasEvents == (c.hasEvents || ((e.Register? || Recovers(c, e)) && e.alloc))
    ensures Step(c, e).hasLoad == (c.hasLoad || (e.RegisterLoad? && e.alloc) || (Recovers(c, e) && e.allocLoad))
  {
  }

  /** The client's belief is exactly its own tables. */
  ghost predicate Synced(c: Client) {
    && c.connected
    && c.registered == c.table.Keys
    && (c.loadRegistered <==> c.callbacks != [])
  }

  /** A re-add notice that finds the service. */
  predicate Recovers(c: Client, e: Event) {
    e.Added? && e.ours && ConnectOk(c, e.outcome)
  }

  predicate Ends(e: Event) {
    e.Died? || e.Destroy?
  }

  lemma StepStaysSynced(c: Client, e: Event)
    requires Consistent(c) && Synced(c) && !Ends(e)
    ensures Synced(Step(c, e))
  {
    match e
    case Register(l, p, _) => TableStaysGood(c.table, l, p);
    case Unregister(l, p) => TableStaysGood(c.table, l, p);
    case _ =>
  }

  lemma {:induction false} StaysSynced(c: Client, es: seq<Event>)
    requires Consistent(c) && Synced(c)
    requires forall e :: e in es ==> !Ends(e)
    ensures Consistent(RunFrom(c, es)) && Synced(RunFrom(c, es))
  {
    if |es| > 0 {
      var before := es[..|es| - 1];
      StaysSynced(c, before);
      StepIsConsistent(RunFrom(c, before), es[|es| - 1]);
      assert es[|es| - 1] in es;
      StepStaysSynced(RunFrom(c, before), es[|es| - 1]);
    }
  }

  /** From a successful re-add notice until the service dies, what is registered is what has listeners. */
  lemma {:induction false} RecoveryLastsUntilDeath(past: seq<Event>, e: Event, es: seq<Event>)
    requires Recovers(Run(past), e)
    requires forall e' :: e' in es ==> !Ends(e')
    ensures Synced(RunFrom(Step(Run(past), e), es))
  {
    RunIsConsistent(past);
    StepIsConsistent(Run(past), e);
    StaysSynced(Step(Run(past), e), es);
  }

  // ----- exactly when a connected client is out of step

  /** A proxy gained without a recovery: by a plain connect, or by a re-add notice that finds no death recipient. */
  predicate ConnectsOnly(c: Client, e: Event) {
    && !c.destroyed && !c.connected
    && ((e.Connect? && !e.outcome.NoProxy?) || (e.Added? && e.ours && e.outcome.NoRecipient?))
  }

  /** While connected, in step. */
  ghost predicate InStep(c: Client) {
    c.connected ==> Synced(c)
  }

  /** An event takes a client out of step exactly when it connects only, and some listener or callback is there. */
  lemma StepLosesStepExactly(c: Client, e: Event)
    requires Consistent(c) && InStep(c)
    ensures InStep(Step(c, e)) <==> !(ConnectsOnly(c, e) && (c.table != map[] || c.callbacks != []))
  {
    match e
    case Register(l, p, _) => TableStaysGood(c.table, l, p);
    case Unregister(l, p) => TableStaysGood(c.table, l, p);
    case _ =>
  }

  /** No death notice since event i, and no destruction. */
  ghost predicate NoEndSince(es: seq<Event>, i: nat) {
    forall j :: i < j < |es| ==> !Ends(es[j])
  }

  /** A proxy is told of p: it is registered while connected, with whatever listener, or a recovery runs. */
  predicate Tells(c: Client, e: Event, p: Pair) {
    (e.Register? && e.pair == p && c.connected) || Recovers(c, e)
  }

  /** Event i told a proxy of p, which has had listeners ever since, and no death notice came since. */
  ghost predicate ToldAt(es: seq<Event>, i: nat, p: Pair) {
    && i < |es| && Tells(Run(es[..i]), es[i], p) && NoEndSince(es, i)
    && forall j :: i < j <= |es| ==> p in Run(es[..j]).table
  }

  predicate TellsOfLoad(c: Client, e: Event) {
    (e.RegisterLoad? && c.connected) || Recovers(c, e)
  }

  ghost predicate LoadToldAt(es: seq<Event>, i: nat) {
    && i < |es| && TellsOfLoad(Run(es[..i]), es[i]) && NoEndSince(es, i)
    && forall j :: i < j <= |es| ==> Run(es[..j]).callbacks != []
  }

  lemma RunNext(es: seq<Event>)
    requires |es| > 0
    ensures Run(es) == Step(Run(es[..|es| - 1]), es[|es| - 1])
  {
  }

  /** An event before the last one told of p for the whole run exactly when it did for the run before. */
  lemma ToldNext(es: seq<Event>, i: nat, p: Pair)
    requires i + 1 < |es|
    ensures var before, e := es[..|es| - 1], es[|es| - 1];
      && (ToldAt(es, i, p) <==> ToldAt(before, i, p) && !Ends(e) && p in Run(es).table)
      && (LoadToldAt(es, i) <==> LoadToldAt(before, i) && !Ends(e) && Run(es).callbacks != [])
  {
    var before, e := es[..|es| - 1], es[|es| - 1];
    assert es[..|es|] == es && before[..i] == es[..i];
    assert forall j :: 0 <= j <= |before| ==> before[..j] == es[..j];
    assert NoEndSince(es, i) <==> NoEndSince(before, i) && !Ends(e);
  }

  lemma ToldNow(es: seq<Event>, p: Pair)
    requires |es| > 0
    ensures var c, e := Run(es[..|es| - 1]), es[|es| - 1];
      && (ToldAt(es, |es| - 1, p) <==> Tells(c, e, p) && p in Run(es).table)
      && (LoadToldAt(es, |es| - 1) <==> TellsOfLoad(c, e) && Run(es).callbacks != [])
  {
    assert es[..|es|] == es;
  }

  ghost predicate Told(es: seq<Event>, p: Pair) {
    exists i: nat :: ToldAt(es, i, p)
  }

  ghost predicate LoadTold(es: seq<Event>) {
    exists i: nat :: LoadToldAt(es, i)
  }

  lemma ToldUntil(es: seq<Event>, p: Pair)
    requires |es| > 0
    ensures var before, e := es[..|es| - 1], es[|es| - 1];
      Told(es, p) <==> p in Run(es).table && (Tells(Run(before), e, p) || (Told(before, p) && !Ends(e)))
  {
    var before, e := es[..|es| - 1], es[|es| - 1];
    ToldNow(es, p);
    if i: nat :| ToldAt(es, i, p) {
      if i + 1 < |es| { ToldNext(es, i, p); }
    }
    if i: nat :| ToldAt(before, i, p) {
      ToldNext(es, i, p);
    }
  }

  lemma LoadToldUntil(es: seq<Event>)
    requires |es| > 0
    ensures var before, e := es[..|es| - 1], es[|es| - 1];
      LoadTold(es) <==> Run(es).callbacks != [] && (TellsOfLoad(Run(before), e) || (LoadTold(before) && !Ends(e)))
  {
    var before, e := es[..|es| - 1], es[|es| - 1];
    ToldNow(es, (0, 0));
    if i: nat :| LoadToldAt(es, i) {
      if i + 1 < |es| { ToldNext(es, i, (0, 0)); }
    }
    if i: nat :| LoadToldAt(before, i) {
      ToldNext(es, i, (0, 0));
    }
  }

  /**
   * Over every run: the client counts a pair as registered exactly when it has told the service of it at some moment
   * since which the pair never was without listeners and no death notice came; and so for the notifier.
   */
  lemma {:induction false} RegisteredExactlyWhenTold(es: seq<Event>, p: Pair)
    ensures p in Run(es).registered <==> Told(es, p)
    ensures Run(es).loadRegistered <==> LoadTold(es)
  {
    if |es| > 0 {
      var before, e := es[..|es| - 1], es[|es| - 1];
      RegisteredExactlyWhenTold(before, p);
      RunIsConsistent(before);
      ToldUntil(es, p);
      LoadToldUntil(es);
      KnownNext(Run(before), e, p);
      LoadKnownNext(Run(before), e);
      RunNext(es);
    }
  }

  /** One event: known from now on if told now, or known before, not ended, and still with listeners. */
  lemma KnownNext(c: Client, e: Event, p: Pair)
    requires Consistent(c)
    ensures p in Step(c, e).registered
      <==> p in Step(c, e).table && (Tells(c, e, p) || (p in c.registered && !Ends(e)))
  {
    match e
    case Register(l, q, _) => TableStaysGood(c.table, l, q);
    case Unregister(l, q) => TableStaysGood(c.table, l, q);
    case _ =>
  }

  lemma LoadKnownNext(c: Client, e: Event)
    requires Consistent(c)
    ensures Step(c, e).loadRegistered
      <==> Step(c, e).callbacks != [] && (TellsOfLoad(c, e) || (c.loadRegistered && !Ends(e)))
  {
  }

  /** A listener left behind: registered without a proxy, then connected without a re-add notice. */
  lemma ReconnectingAloneDoesNotRecover()
    ensures exists es :: Run(es).connected && !Synced(Run(es))
  {
    var p: Pair := (1, 2);
    var e1, e2 := Register(Some(Listener(7)), p, true), Connect(Connects);
    var none: seq<Event>, one, two := [], [e1], [e1, e2];
    assert one[..|one| - 1] == none && two[..|two| - 1] == one;
    assert Run(one) == Step(Run(none), e1) && Run(two) == Step(Run(one), e2);
    assert p in Run(two).table && p !in Run(two).registered;
  }

  // ----- what the service holds

  datatype Call =
    | RegisterEvent(pair: Pair) | UnregisterEvent(pair: Pair)
    | RegisterNotifier | UnregisterNotifier
    | Lost

  /** What a service that got these calls holds; with the service its registrations are lost. */
  datatype Held = Held(pairs: set<Pair>, notifier: bool)

  function Effect(h: Held, call: Call): Held {
    match call
    case RegisterEvent(p) => h.(pairs := h.pairs + {p})
    case UnregisterEvent(p) => h.(pairs := h.pairs - {p})
    case RegisterNotifier => h.(notifier := true)
    case UnregisterNotifier => h.(notifier := false)
    case Lost => Held({}, false)
  }

  function Replay(calls: seq<Call>): Held {
    if |calls| == 0 then Held({}, false) else Effect(Replay(calls[..|calls| - 1]), calls[|calls| - 1])
  }

  /** The calls that register these pairs, in this order. */
  function Registrations(order: seq<Pair>): (calls: seq<Call>)
    ensures |calls| == |order| && forall i :: 0 <= i < |order| ==> calls[i] == RegisterEvent(order[i])
  {
    seq(|order|, i requires 0 <= i < |order| => RegisterEvent(order[i]))
  }

  lemma RegistrationsAdd(a: seq<Pair>, b: seq<Pair>)
    ensures Registrations(a + b) == Registrations(a) + Registrations(b)
  {
  }

  lemma RegistrationsNext(calls: seq<Call>, order: seq<Pair>, p: Pair)
    ensures (calls + Registrations(order)) + [RegisterEvent(p)] == calls + Registrations(order + [p])
  {
    assert Registrations(order + [p]) == Registrations(order) + [RegisterEvent(p)];
  }

  lemma ReplayNext(calls: seq<Call>, call: Call)
    ensures Replay(calls + [call]) == Effect(Replay(calls), call)
  {
    assert (calls + [call])[..|calls + [call]| - 1] == calls;
  }

  // ----- what the running service really holds

  /** Whether the proxy leads to the service that is running: it does when gained, and until that service dies. */
  predicate Live(es: seq<Event>) {
    if |es| == 0 then false
    else
      var before := es[..|es| - 1];
      Run(es).connected && (!Run(before).connected || (Live(before) && !es[|es| - 1].ServiceDies?))
  }

  /** Whether a death recipient was attached when the proxy was gained; without one no notice comes. */
  predicate Watched(es: seq<Event>) {
    if |es| == 0 then false
    else
      var before, e := es[..|es| - 1], es[|es| - 1];
      && Run(es).connected
      && if Run(before).connected then Watched(before) else (e.Connect? || e.Added?) && e.outcome.Connects?
  }

  /** The registrations and withdrawals one event makes through the proxy. */
  datatype Made = Made(told: set<Pair>, untold: set<Pair>, notifierOn: bool, notifierOff: bool)

  function MadeBy(c: Client, e: Event): Made {
    match e
    case Register(l, p, alloc) =>
      var first := c.connected && (c.hasEvents || alloc) && p in AddListener(c.table, l, p) && p !in c.registered;
      Made(if first then {p} else {}, {}, false, false)
    case Unregister(l, p) =>
      Made({}, if c.connected && c.hasEvents && p !in RemoveListener(c.table, l, p) then {p} else {}, false, false)
    case RegisterLoad(cb, alloc) =>
      var some := (c.hasLoad || alloc) && Including(c.callbacks, cb) != [];
      Made({}, {}, c.connected && some && !c.loadRegistered, false)
    case UnregisterLoad(cb) => Made({}, {}, false, c.connected && c.hasLoad && Excluding(c.callbacks, cb) == [])
    case Added(_, _, alloc, allocLoad) =>
      if !Recovers(c, e) then Made({}, {}, false, false)
      else
        Made(if c.hasEvents || alloc then c.table.Keys else {}, {},
             (c.hasLoad || allocLoad) && c.callbacks != [] && !c.loadRegistered, false)
    case _ => Made({}, {}, false, false)
  }

  function Taken(h: Held, m: Made): Held {
    Held(h.pairs + m.told - m.untold, (h.notifier || m.notifierOn) && !m.notifierOff)
  }

  /** What the running service holds of this client: a dead proxy's calls are lost, and a new service starts empty. */
  function Service(es: seq<Event>): Held {
    if |es| == 0 then Held({}, false)
    else
      var before, e := es[..|es| - 1], es[|es| - 1];
      if Ends(e) || e.ServiceDies? then Held({}, false)
      else if Live(es) then Taken(Service(before), MadeBy(Run(before), e))
      else Service(before)
  }

  function Believed(c: Client): Held {
    Held(c.registered, c.loadRegistered)
  }

  lemma MadeIsBelieved(c: Client, e: Event)
    requires Consistent(c) && !Ends(e)
    ensures Step(c, e).connected ==> Believed(Step(c, e)) == Taken(Believed(c), MadeBy(c, e))
  {
    match e
    case Register(l, p, _) => TableStaysGood(c.table, l, p);
    case Unregister(l, p) => TableStaysGood(c.table, l, p);
    case _ =>
  }

  /**
   * Over every run, deaths unseen by the client included: the running service holds what the client believes exactly
   * when the proxy leads to it or the client believes nothing; otherwise it holds nothing at all.
   */
  lemma {:induction false} ServiceHoldsWhatIsBelievedExactly(es: seq<Event>)
    ensures Service(es) == if Live(es) then Believed(Run(es)) else Held({}, false)
    ensures Service(es) == Believed(Run(es)) <==> Live(es) || Believed(Run(es)) == Held({}, false)
  {
    if |es| > 0 {
      var before, e := es[..|es| - 1], es[|es| - 1];
      ServiceHoldsWhatIsBelievedExactly(before);
      RunIsConsistent(before);
      RunNext(es);
      if !Ends(e) {
        MadeIsBelieved(Run(before), e);
      }
    }
  }

  /** Notices come only to a client with a death recipient. */
  ghost predicate NoticesAreWatched(past: seq<Event>, es: seq<Event>) {
    forall i :: 0 <= i < |es| && es[i].Died? ==> Watched(past + es[..i])
  }

  lemma StaysUnwatchedNext(es: seq<Event>)
    requires |es| > 0 && !es[|es| - 1].Died? && !es[|es| - 1].Destroy?
    requires var before := es[..|es| - 1]; Run(before).connected && !Watched(before) && !Live(before)
    ensures Run(es).connected && !Watched(es) && !Live(es)
  {
    RunNext(es);
  }

  lemma {:induction false} StaysUnwatched(past: seq<Event>, es: seq<Event>)
    requires Run(past).connected && !Watched(past) && !Live(past)
    requires NoticesAreWatched(past, es) && forall e :: e in es ==> !e.Destroy?
    ensures Run(past + es).connected && !Watched(past + es) && !Live(past + es)
  {
    if |es| == 0 {
      assert past + es == past;
    } else {
      var before, all := es[..|es| - 1], past + es;
      assert all[..|all| - 1] == past + before && all[|all| - 1] == es[|es| - 1];
      assert NoticesAreWatched(past, before) by {
        assert forall i :: 0 <= i < |before| ==> before[..i] == es[..i] && before[i] == es[i];
      }
      StaysUnwatched(past, before);
      StaysUnwatchedNext(all);
    }
  }

  /**
   * A client whose proxy, gained without a death recipient, has died never gets through again, whatever it registers
   * and however often the service is added again.
   */
  lemma UnwatchedDeathIsForever(past: seq<Event>, es: seq<Event>)
    requires Run(past).connected && !Watched(past) && !Live(past)
    requires NoticesAreWatched(past, es) && forall e :: e in es ==> !e.Destroy?
    ensures Run(past + es).connected && !Watched(past + es) && !Live(past + es)
    ensures Service(past + es) == Held({}, false)
  {
    StaysUnwatched(past, es);
    ServiceHoldsWhatIsBelievedExactly(past + es);
  }

  /** Connect without a death recipient, let the service die and come back: all looks well, and nothing is held. */
  lemma UnwatchedDeathHappens()
    ensures exists es :: NoticesAreWatched([], es) && Synced(Run(es)) && Service(es) != Believed(Run(es))
  {
    var p: Pair := (1, 2);
    var none: seq<Event> := [];
    var e1, e2 := Register(Some(Listener(7)), p, true), Connect(NoRecipient);
    var e3, e4 := ServiceDies, Added(true, Connects, true, true);
    var one, two, three, four := [e1], [e1, e2], [e1, e2, e3], [e1, e2, e3, e4];
    assert one[..0] == none && two[..1] == one && three[..2] == two && four[..3] == three;
    assert Run(one) == Step(Run(none), e1) && Run(two) == Step(Run(one), e2);
    assert Run(three) == Run(two) && Run(four) == Step(Run(three), e4);
    assert Run(two).connected && !Live(three) && !Live(four);
    RunIsConsistent(three);
    assert p in Run(four).registered && Synced(Run(four));
    ServiceHoldsWhatIsBelievedExactly(four);
    assert NoticesAreWatched([], four);
  }
}
