/** What adjusting does to the groups of an application's processes, as a function of what the kernel refuses. */
module CgroupSpec {
  import opened Basics
  import opened Supervisor

  /** The scheduling part of a process record: the current, requested and previous groups, and the reports. */
  datatype Sched = Sched(cur: SchedPolicy, asked: SchedPolicy, last: SchedPolicy, reports: seq<GroupChange>)

  type Scheds = map<int, Sched>

  datatype AdjustSource = ProcessCreate | OtherSource(code: int)

  /** What adjusting leaves alone in a process: its kind, its host's pid, and the group it deserves by its own state. */
  datatype Kin = Kin(kind: ProcRecordType, host: int, deserved: SchedPolicy)

  /** What adjusting leaves alone in an application: its processes' kin, and the pids known as hosts. */
  datatype Family = Family(kin: map<int, Kin>, hosts: set<int>)

  /** The group each process is given by its own state and the source: a new process starts in the default one. */
  function Own(f: Family, source: AdjustSource): map<int, SchedPolicy> {
    map p | p in f.kin :: if source.ProcessCreate? then SP_DEFAULT else f.kin[p].deserved
  }

  ghost predicate Covers(f: Family, s: Scheds) {
    f.kin.Keys == s.Keys
  }

  lemma Overwritten(s: Scheds, h: int, a: Sched, b: Sched)
    ensures s[h := a][h := b] == s[h := b]
  {
  }

  /** A group is asked for: nothing to do, or the kernel moves the process, or it refuses. */
  function Asked(s: Sched, group: SchedPolicy, ok: bool): Sched {
    if s.cur == group then s.(asked := group)
    else if ok then Sched(group, group, s.cur, s.reports + [GroupChange(s.cur, group)])
    else s.(asked := group)
  }

  /** p is a render, GPU or child process of h, and h is known as a host. */
  predicate Leads(f: Family, h: int, p: int) {
    h in f.hosts && p in f.kin && f.kin[p].kind.Follows() && f.kin[p].host == h
  }

  /** The followers of h asked to go where h is. */
  function FollowersAsked(f: Family, s: Scheds, h: int, refused: set<int>): Scheds
    requires h in s
  {
    map p | p in s :: if Leads(f, h, p) then Asked(s[p], s[h].cur, p !in refused) else s[p]
  }

  /** One process asked for a group, then its followers to join it. */
  function OneAdjusted(f: Family, s: Scheds, h: int, group: SchedPolicy, refused: set<int>): Scheds
    requires h in s
  {
    FollowersAsked(f, s[h := Asked(s[h], group, h !in refused)], h, refused)
  }

  /** Which processes are attempted: those asked for a group they are not in. */
  function FollowersNeeding(f: Family, s: Scheds, h: int): set<int>
    requires h in s
  {
    set p | p in s && Leads(f, h, p) && s[p].cur != s[h].cur
  }

  function OneNeeding(f: Family, s: Scheds, h: int, group: SchedPolicy, refused: set<int>): set<int>
    requires h in s
  {
    (if s[h].cur != group then {h} else {}) + FollowersNeeding(f, s[h := Asked(s[h], group, h !in refused)], h)
  }

  /** The processes one adjustment may touch. */
  predicate Touches(f: Family, h: int, p: int) {
    p == h || Leads(f, h, p)
  }

  /** The followers of h asked so far, while the rest wait. */
  function FollowersPart(f: Family, s: Scheds, h: int, refused: set<int>, done: set<int>): Scheds
    requires h in s
  {
    map p | p in s :: if p in done && Leads(f, h, p) then Asked(s[p], s[h].cur, p !in refused) else s[p]
  }

  function FollowersPartNeeding(f: Family, s: Scheds, h: int, done: set<int>): set<int>
    requires h in s
  {
    set p | p in done && p in s && Leads(f, h, p) && s[p].cur != s[h].cur
  }

  lemma OneMoreFollower(f: Family, s: Scheds, h: int, earlier: set<int>, latest: set<int>, done: set<int>, p: int)
    requires h in s && p in s && p !in done && earlier <= done
    requires latest <= if Leads(f, h, p) && s[p].cur != s[h].cur then {p} else {}
    ensures var t := FollowersPart(f, s, h, earlier, done);
      && t[h].cur == s[h].cur && t[p] == s[p]
      && FollowersPart(f, s, h, earlier + latest, done + {p})
        == (if Leads(f, h, p) then t[p := Asked(s[p], s[h].cur, p !in latest)] else t)
    ensures FollowersPartNeeding(f, s, h, done + {p})
      == FollowersPartNeeding(f, s, h, done) + if Leads(f, h, p) && s[p].cur != s[h].cur then {p} else {}
  {
  }

  lemma AllFollowersAsked(f: Family, s: Scheds, h: int, refused: set<int>)
    requires h in s
    ensures FollowersPart(f, s, h, refused, {}) == s && FollowersPartNeeding(f, s, h, {}) == {}
    ensures FollowersPart(f, s, h, refused, s.Keys) == FollowersAsked(f, s, h, refused)
    ensures FollowersPartNeeding(f, s, h, s.Keys) == FollowersNeeding(f, s, h)
  {
  }

  /** Asking h and then its followers is one adjustment: neither part can refuse for the other. */
  lemma OneThenFollowers(f: Family, s: Scheds, h: int, group: SchedPolicy, first: set<int>, rest: set<int>)
    requires h in s && first <= {h}
    requires rest <= FollowersNeeding(f, s[h := Asked(s[h], group, h !in first)], h)
    ensures var t := s[h := Asked(s[h], group, h !in first)];
      && FollowersAsked(f, t, h, rest) == OneAdjusted(f, s, h, group, first + rest)
      && (if s[h].cur != group then {h} else {}) + FollowersNeeding(f, t, h) == OneNeeding(f, s, h, group, first + rest)
  {
    assert h !in rest;
  }

  lemma NoFollowers(f: Family, s: Scheds, h: int)
    requires h in s && h !in f.hosts
    ensures FollowersAsked(f, s, h, {}) == s && FollowersNeeding(f, s, h) == {}
  {
  }

  // ----- the whole application

  /** A host that adjusting the application visits. */
  predicate IsLeader(f: Family, h: int) {
    h in f.kin && !f.kin[h].kind.Follows()
  }

  /** p follows a visited host. */
  predicate IsLed(f: Family, p: int) {
    p in f.kin && IsLeader(f, f.kin[p].host) && Leads(f, f.kin[p].host, p)
  }

  /** The processes handled once the leaders in done have been visited. */
  predicate Handled(f: Family, done: set<int>, p: int) {
    if IsLeader(f, p) then p in done else IsLed(f, p) && f.kin[p].host in done
  }

  /** The group a handled process is asked for: a leader its own, a led process its leader's new one. */
  function Target(f: Family, s: Scheds, own: map<int, SchedPolicy>, refused: set<int>, p: int): SchedPolicy
    requires Covers(f, s) && own.Keys == s.Keys && p in s && (IsLeader(f, p) || IsLed(f, p))
  {
    if IsLeader(f, p) then own[p]
    else
      var h := f.kin[p].host;
      Asked(s[h], own[h], h !in refused).cur
  }

  function PartlyAdjusted(f: Family, s: Scheds, own: map<int, SchedPolicy>, refused: set<int>, done: set<int>): Scheds
    requires Covers(f, s) && own.Keys == s.Keys
  {
    map p | p in s :: if Handled(f, done, p) then Asked(s[p], Target(f, s, own, refused, p), p !in refused) else s[p]
  }

  function PartlyNeeding(f: Family, s: Scheds, own: map<int, SchedPolicy>, refused: set<int>, done: set<int>): set<int>
    requires Covers(f, s) && own.Keys == s.Keys
  {
    set p | p in s && Handled(f, done, p) && s[p].cur != Target(f, s, own, refused, p)
  }

  function AllAdjusted(f: Family, s: Scheds, own: map<int, SchedPolicy>, refused: set<int>): Scheds
    requires Covers(f, s) && own.Keys == s.Keys
  {
    PartlyAdjusted(f, s, own, refused, s.Keys)
  }

  /** Visiting one more leader: the earlier outcome is kept, and the new refusals concern only its own family. */
  lemma OneMoreLeader(f: Family, s: Scheds, own: map<int, SchedPolicy>,
      earlier: set<int>, latest: set<int>, done: set<int>, h: int)
    requires Covers(f, s) && own.Keys == s.Keys && h in s && IsLeader(f, h) && h !in done
    requires forall p :: p in earlier ==> p in s && Handled(f, done, p)
    requires forall p :: p in latest ==> Touches(f, h, p)
    ensures OneAdjusted(f, PartlyAdjusted(f, s, own, earlier, done), h, own[h], latest)
      == PartlyAdjusted(f, s, own, earlier + latest, done + {h})
    ensures PartlyNeeding(f, s, own, earlier, done)
      + OneNeeding(f, PartlyAdjusted(f, s, own, earlier, done), h, own[h], latest)
      == PartlyNeeding(f, s, own, earlier + latest, done + {h})
  {
  }

  lemma NotALeader(f: Family, s: Scheds, own: map<int, SchedPolicy>, refused: set<int>, done: set<int>, q: int)
    requires Covers(f, s) && own.Keys == s.Keys && !IsLeader(f, q)
    ensures PartlyAdjusted(f, s, own, refused, done + {q}) == PartlyAdjusted(f, s, own, refused, done)
    ensures PartlyNeeding(f, s, own, refused, done + {q}) == PartlyNeeding(f, s, own, refused, done)
  {
    assert forall p :: Handled(f, done + {q}, p) <==> Handled(f, done, p);
  }

  lemma NoneAdjusted(f: Family, s: Scheds, own: map<int, SchedPolicy>)
    requires Covers(f, s) && own.Keys == s.Keys
    ensures PartlyAdjusted(f, s, own, {}, {}) == s && PartlyNeeding(f, s, own, {}, {}) == {}
  {
  }

  // ----- what adjusting the whole application achieves

  /** The reports form a chain ending in the current group, and the previous group is where the last one started. */
  ghost predicate Chained(s: Sched) {
    Chain(s.reports, s.cur) && (|s.reports| > 0 ==> s.last == s.reports[|s.reports| - 1].oldGroup)
  }

  ghost predicate AllChained(s: Scheds) {
    forall p :: p in s ==> Chained(s[p])
  }

  lemma AskedKeepsChain(s: Sched, group: SchedPolicy, ok: bool)
    requires Chained(s)
    ensures Chained(Asked(s, group, ok))
  {
    if s.cur != group { ChainNext(s.reports, s.cur, group); }
  }

  lemma OneKeepsChains(f: Family, s: Scheds, h: int, group: SchedPolicy, refused: set<int>)
    requires h in s && AllChained(s)
    ensures AllChained(OneAdjusted(f, s, h, group, refused))
  {
    AskedKeepsChain(s[h], group, h !in refused);
    var t := s[h := Asked(s[h], group, h !in refused)];
    forall p | p in s ensures Chained(FollowersAsked(f, t, h, refused)[p]) {
      AskedKeepsChain(t[p], t[h].cur, p !in refused);
    }
  }

  lemma AllKeepsChains(f: Family, s: Scheds, own: map<int, SchedPolicy>, refused: set<int>)
    requires Covers(f, s) && own.Keys == s.Keys && AllChained(s)
    ensures AllChained(AllAdjusted(f, s, own, refused))
  {
    forall p | p in s ensures Chained(AllAdjusted(f, s, own, refused)[p]) {
      if Handled(f, s.Keys, p) {
        AskedKeepsChain(s[p], Target(f, s, own, refused, p), p !in refused);
      }
    }
  }

  /** What happens to an application: processes come and go, and are adjusted with whatever kin they have by then. */
  datatype Event =
    | Started(pid: int)
    | Ended(pid: int)
    | AdjustedOne(f: Family, h: int, group: SchedPolicy, refused: set<int>)
    | AdjustedAll(f: Family, own: map<int, SchedPolicy>, refused: set<int>)

  function After(s: Scheds, e: Event): Scheds {
    match e
    case Started(p) => if p in s then s else s[p := Sched(SP_UPPER_LIMIT, SP_UPPER_LIMIT, SP_UPPER_LIMIT, [])]
    case Ended(p) => s - {p}
    case AdjustedOne(f, h, group, refused) => if h in s then OneAdjusted(f, s, h, group, refused) else s
    case AdjustedAll(f, own, refused) =>
      if f.kin.Keys == s.Keys == own.Keys then AllAdjusted(f, s, own, refused) else s
  }

  function Run(events: seq<Event>): Scheds {
    if events == [] then map[] else After(Run(events[..|events| - 1]), events[|events| - 1])
  }

  /** Over every run and whatever the kernel refuses, the reports of each living process form a chain from its start. */
  lemma {:induction false} RunKeepsChains(events: seq<Event>)
    ensures AllChained(Run(events))
  {
    if events != [] {
      var s := Run(events[..|events| - 1]);
      RunKeepsChains(events[..|events| - 1]);
      match events[|events| - 1]
      case Started(_) =>
      case Ended(_) =>
      case AdjustedOne(f, h, group, refused) => if h in s { OneKeepsChains(f, s, h, group, refused); }
      case AdjustedAll(f, own, refused) => if f.kin.Keys == s.Keys == own.Keys { AllKeepsChains(f, s, own, refused); }
    }
  }

  /** A render, GPU or child process of a known host that follows none itself. */
  ghost predicate FollowsByKind(f: Family, p: int) {
    && p in f.kin && (f.kin[p].kind.Render? || f.kin[p].kind.Gpu? || f.kin[p].kind.Child?)
    && f.kin[p].host in f.hosts && f.kin[p].host in f.kin
    && (f.kin[f.kin[p].host].kind.Normal? || f.kin[f.kin[p].host].kind.Extension?)
  }

  /** A render, GPU or child process is asked to be where its host now is, however many moves the kernel refused. */
  lemma LedFollowTheirLeaders(f: Family, s: Scheds, own: map<int, SchedPolicy>, refused: set<int>, p: int)
    requires Covers(f, s) && own.Keys == s.Keys && FollowsByKind(f, p)
    ensures var t := AllAdjusted(f, s, own, refused);
      && t[p].asked == t[f.kin[p].host].cur
      && (p !in refused ==> t[p].cur == t[f.kin[p].host].cur)
  {
    assert f.kin[p].host in s && Handled(f, s.Keys, f.kin[p].host);
  }

  /** A normal or extension process is asked for its own group, and is in it unless it was refused. */
  lemma LeadersTakeTheirOwnGroup(f: Family, s: Scheds, own: map<int, SchedPolicy>, refused: set<int>, p: int)
    requires Covers(f, s) && own.Keys == s.Keys && p in s && (f.kin[p].kind.Normal? || f.kin[p].kind.Extension?)
    ensures var t := AllAdjusted(f, s, own, refused);
      t[p].asked == own[p] && (p !in refused ==> t[p].cur == own[p])
  {
    assert Handled(f, s.Keys, p);
  }

  /** A render, GPU or child process without such a host is not touched. */
  lemma StrayFollowersStay(f: Family, s: Scheds, own: map<int, SchedPolicy>, refused: set<int>, p: int)
    requires Covers(f, s) && own.Keys == s.Keys && p in s && !FollowsByKind(f, p)
    requires f.kin[p].kind.Render? || f.kin[p].kind.Gpu? || f.kin[p].kind.Child?
    ensures AllAdjusted(f, s, own, refused)[p] == s[p]
  {
    assert !Handled(f, s.Keys, p);
  }

  /** Every visited process is where it belongs. */
  ghost predicate Settled(f: Family, s: Scheds, own: map<int, SchedPolicy>)
    requires Covers(f, s) && own.Keys == s.Keys
  {
    && (forall p :: p in s && IsLeader(f, p) ==> s[p].cur == own[p])
    && (forall p :: p in s && IsLed(f, p) ==> s[p].cur == s[f.kin[p].host].cur)
  }

  /**
   * From any state, an adjustment in which no leader or led process is refused settles the application;
   * and a settled application stays as it is: adjusting it again attempts nothing and moves nothing.
   */
  lemma UnrefusedAdjustmentSettles(f: Family, s: Scheds, own: map<int, SchedPolicy>, refused: set<int>)
    requires Covers(f, s) && own.Keys == s.Keys
    ensures refused == {} ==> Settled(f, AllAdjusted(f, s, own, refused), own)
    ensures Settled(f, s, own) ==> PartlyNeeding(f, s, own, refused, s.Keys) == {}
    ensures Settled(f, s, own) ==> forall p :: p in s ==>
      AllAdjusted(f, s, own, refused)[p] == s[p].(asked := AllAdjusted(f, s, own, refused)[p].asked)
  {
    var t := AllAdjusted(f, s, own, refused);
    forall p | p in s && IsLed(f, p)
      ensures refused == {} ==> t[p].cur == t[f.kin[p].host].cur
      ensures Settled(f, s, own) ==> Target(f, s, own, refused, p) == s[p].cur
    {
      LedFollowTheirLeaders(f, s, own, refused, p);
      assert f.kin[p].host in s;
    }
  }

  /** So an adjustment without refusals followed by another one leaves the second nothing to do. */
  lemma SecondAdjustmentIsSilent(f: Family, s: Scheds, own: map<int, SchedPolicy>, refused: set<int>)
    requires Covers(f, s) && own.Keys == s.Keys
    ensures PartlyNeeding(f, AllAdjusted(f, s, own, {}), own, refused, s.Keys) == {}
  {
    UnrefusedAdjustmentSettles(f, s, own, {});
    UnrefusedAdjustmentSettles(f, AllAdjusted(f, s, own, {}), own, refused);
  }

  // ----- adjusting again and again

  /** The groups after repeated adjustments with the same state, each with its own refusals. */
  function Repeated(f: Family, s: Scheds, own: map<int, SchedPolicy>, rounds: seq<set<int>>): (t: Scheds)
    requires Covers(f, s) && own.Keys == s.Keys
    ensures t.Keys == s.Keys
  {
    if rounds == [] then s
    else AllAdjusted(f, Repeated(f, s, own, rounds[..|rounds| - 1]), own, rounds[|rounds| - 1])
  }

  /** Some round did not refuse p. */
  ghost predicate Granted(rounds: seq<set<int>>, p: int) {
    exists i :: 0 <= i < |rounds| && p !in rounds[i]
  }

  lemma GrantedNext(rounds: seq<set<int>>, p: int)
    requires |rounds| > 0
    ensures Granted(rounds, p) <==> Granted(rounds[..|rounds| - 1], p) || p !in rounds[|rounds| - 1]
  {
    var older := rounds[..|rounds| - 1];
    if Granted(older, p) {
      var i :| 0 <= i < |older| && p !in older[i];
      assert rounds[i] == older[i];
    }
    if i :| 0 <= i < |rounds| && p !in rounds[i] {
      assert i < |older| ==> older[i] == rounds[i];
    }
  }

  /** A leader moves at most once, to its own group, in the first round that lets it, and then stays. */
  lemma {:induction false} LeaderMovesAtMostOnce(f: Family, s: Scheds, own: map<int, SchedPolicy>,
      rounds: seq<set<int>>, p: int)
    requires Covers(f, s) && own.Keys == s.Keys && p in s && IsLeader(f, p)
    ensures var t := Repeated(f, s, own, rounds)[p];
      && t.cur == (if Granted(rounds, p) then own[p] else s[p].cur)
      && t.reports == s[p].reports + (if t.cur != s[p].cur then [GroupChange(s[p].cur, own[p])] else [])
  {
    if rounds != [] {
      var older, refused := rounds[..|rounds| - 1], rounds[|rounds| - 1];
      var r := Repeated(f, s, own, older);
      LeaderMovesAtMostOnce(f, s, own, older, p);
      GrantedNext(rounds, p);
      assert Handled(f, r.Keys, p) && Repeated(f, s, own, rounds)[p] == Asked(r[p], own[p], p !in refused);
      assert r[p].cur == s[p].cur ==> r[p].reports == s[p].reports;
    }
  }

  /** How far a led process can have got while its leader, first at a, is bound for b. */
  ghost predicate AtMostTwice(p: Sched, moves: int, leader: SchedPolicy, a: SchedPolicy, b: SchedPolicy) {
    && (leader == a || leader == b)
    && 0 <= moves <= 2
    && (moves == 2 ==> a != b && leader == b && p.cur == b)
    && (moves == 1 ==> p.cur == a || p.cur == b)
    && (moves == 1 && leader == a ==> p.cur == a)
  }

  /**
   * A led process moves at most twice, however often everything is adjusted; and once its leader has been let into
   * its group, the first later or same round that lets the led process move takes it there for good.
   */
  lemma {:induction false} FollowerMovesAtMostTwice(f: Family, s: Scheds, own: map<int, SchedPolicy>,
      rounds: seq<set<int>>, p: int)
    requires Covers(f, s) && own.Keys == s.Keys && p in s && IsLed(f, p)
    ensures var h, t := f.kin[p].host, Repeated(f, s, own, rounds);
      && AtMostTwice(t[p], |t[p].reports| - |s[p].reports|, t[h].cur, s[h].cur, own[h])
      && forall i, j :: 0 <= i <= j < |rounds| && h !in rounds[i] && p !in rounds[j] ==> t[p].cur == own[h]
  {
    if rounds != [] {
      var h := f.kin[p].host;
      var older, refused := rounds[..|rounds| - 1], rounds[|rounds| - 1];
      var r, t := Repeated(f, s, own, older), Repeated(f, s, own, rounds);
      FollowerMovesAtMostTwice(f, s, own, older, p);
      LeaderMovesAtMostOnce(f, s, own, older, h);
      LeaderMovesAtMostOnce(f, s, own, rounds, h);
      assert t[p] == Asked(r[p], t[h].cur, p !in refused);
      forall i, j | 0 <= i <= j < |rounds| && h !in rounds[i] && p !in rounds[j] ensures t[p].cur == own[h] {
        assert Granted(rounds, h);
        if j < |older| {
          assert older[i] == rounds[i] && older[j] == rounds[j];
          assert Granted(older, h);
        }
      }
    }
  }
}
