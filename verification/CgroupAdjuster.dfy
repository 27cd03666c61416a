/** Choosing the scheduling group of each process of an application, and making the kernel follow. */
module CgroupAdjuster {
  import opened Basics
  import opened Supervisor
  import opened CgroupSpec

  /** One attempt to move a process: the kernel may refuse. */
  datatype Attempt = Attempt(pid: int, group: SchedPolicy, ok: bool)

  class Kernel {
    ghost var attempts: seq<Attempt>

    /** The error path is the kernel's own affair: either answer may come, whatever the arguments. */
    method SetThreadGroupSchedPolicy(pid: int, group: SchedPolicy) returns (ok: bool)
      modifies this
      ensures attempts == old(attempts) + [Attempt(pid, group, ok)]
    {
      ok := *;
      attempts := attempts + [Attempt(pid, group, ok)];
    }
  }

  /** The focus is compared by pid. */
  predicate Focused(app: Application, pr: ProcessRecord)
    reads app`focusedProcess
  {
    app.focusedProcess != null && app.focusedProcess.pid == pr.pid
  }

  /** The group of a process that is not a render process, from its own state alone. */
  function OwnGroup(pr: ProcessRecord, focused: bool): SchedPolicy
    reads pr`processState, pr`abilities, pr`windows
  {
    if focused then SP_TOP_APP
    else if pr.abilities == [] then if pr.processState.Background? then SP_BACKGROUND else SP_DEFAULT
    else if pr.IsVisible() then SP_FOREGROUND
    else if pr.HasServiceExtension() then if pr.processState.Background? then SP_BACKGROUND else SP_DEFAULT
    else match pr.processState
      case Background => SP_BACKGROUND
      case Foreground => SP_FOREGROUND
      case OtherState(_) => SP_DEFAULT
  }

  /** Which group goes with which state, for each group: 4 is the top group, 2 foreground, 1 background, 0 default. */
  lemma GroupByState(pr: ProcessRecord, focused: bool)
    ensures var group := OwnGroup(pr, focused);
      var visible := exists w :: w in pr.windows && w.isVisible;
      var serving := exists a :: a in pr.abilities && (a.kind.Service? || a.kind.ExtensionAbility? || a.kind.Data?);
      && (group == 4 <==> focused)
      && (group == 1 <==> !focused && pr.processState.Background? && (pr.abilities == [] || !visible))
      && (group == 2 <==>
        !focused && pr.abilities != [] && (visible || (pr.processState.Foreground? && !serving)))
      && (group in {0, 1, 2, 4})
  {
  }

  // ----- the application as the specification sees it

  ghost function SchedOf(pr: ProcessRecord): Sched
    reads pr`curSchedGroup, pr`setSchedGroup, pr`lastSchedGroup, pr`reports
  {
    Sched(pr.curSchedGroup, pr.setSchedGroup, pr.lastSchedGroup, pr.reports)
  }

  ghost function Scheds(app: Application): (s: CgroupSpec.Scheds)
    requires app.Valid()
    reads app`pidsMap, app`records
    reads app.records`curSchedGroup, app.records`setSchedGroup, app.records`lastSchedGroup, app.records`reports
    ensures s.Keys == app.pidsMap.Keys
  {
    map p | p in app.pidsMap :: SchedOf(app.pidsMap[p])
  }

  /** When only one record has changed, only its entry has. */
  lemma OneRecordChanged(app: Application, before: CgroupSpec.Scheds, pr: ProcessRecord)
    requires app.Valid() && app.Has(pr) && before.Keys == app.pidsMap.Keys
    requires forall p :: p in app.pidsMap && p != pr.pid ==> before[p] == SchedOf(app.pidsMap[p])
    ensures Scheds(app) == before[pr.pid := SchedOf(pr)]
  {
    var expected := before[pr.pid := SchedOf(pr)];
    assert expected.Keys == Scheds(app).Keys;
    forall p | p in app.pidsMap ensures Scheds(app)[p] == expected[p] {
      assert Scheds(app)[p] == SchedOf(app.pidsMap[p]);
    }
  }

  ghost function KinOf(app: Application, pr: ProcessRecord): Kin
    reads app`focusedProcess, pr`processType, pr`hostPid, pr`processState, pr`abilities, pr`windows
  {
    Kin(pr.processType, pr.hostPid, OwnGroup(pr, Focused(app, pr)))
  }

  ghost function FamilyOf(app: Application): (f: Family)
    requires app.Valid()
    reads app`pidsMap, app`records, app`hostPidsSet, app`focusedProcess
    reads app.records`processType, app.records`hostPid
    reads app.records`processState, app.records`abilities, app.records`windows
    ensures f.kin.Keys == app.pidsMap.Keys
  {
    Family(map p | p in app.pidsMap :: KinOf(app, app.pidsMap[p]), app.hostPidsSet)
  }

  /** The group computed for h: a render process takes its host's, if it has a host. */
  function Computed(f: Family, s: CgroupSpec.Scheds, h: int, source: AdjustSource): SchedPolicy
    requires Covers(f, s) && h in s
  {
    if f.kin[h].kind.Render? then if f.kin[h].host in s then s[f.kin[h].host].cur else SP_DEFAULT
    else Own(f, source)[h]
  }

  /**
   * A process that is not its own host is asked for one group: a render process for its host's, or the default one
   * without such a host; at creation any other for the default one.
   */
  lemma GroupAtCreation(f: Family, s: CgroupSpec.Scheds, h: int, source: AdjustSource, refused: set<int>)
    requires Covers(f, s) && h in s && f.kin[h].host != h
    ensures var host, t := f.kin[h].host, OneAdjusted(f, s, h, Computed(f, s, h, source), refused);
      && (f.kin[h].kind.Render? ==> t[h].asked == if host in s then s[host].cur else 0)
      && (!f.kin[h].kind.Render? && source.ProcessCreate? ==> t[h].asked == 0)
      && (h !in refused ==> t[h].cur == t[h].asked)
  {
  }

  // ----- the attempts of one call

  ghost function Refused(log: seq<Attempt>): set<int> {
    set i | 0 <= i < |log| && !log[i].ok :: log[i].pid
  }

  ghost function Attempted(log: seq<Attempt>): (s: set<int>)
    ensures Refused(log) <= s
    ensures s == {} ==> log == []
  {
    var s := set i | 0 <= i < |log| :: log[i].pid;
    assert log != [] ==> log[0].pid in s;
    s
  }

  lemma LogsAdd(a: seq<Attempt>, b: seq<Attempt>)
    ensures Refused(a + b) == Refused(a) + Refused(b) && Attempted(a + b) == Attempted(a) + Attempted(b)
  {
    assert forall i :: 0 <= i < |a| ==> (a + b)[i] == a[i];
    assert forall i :: 0 <= i < |b| ==> (a + b)[|a| + i] == b[i];
    forall p | p in Refused(b) ensures p in Refused(a + b) {
      var i :| 0 <= i < |b| && !b[i].ok && b[i].pid == p;
      assert (a + b)[|a| + i] == b[i];
    }
    forall p | p in Attempted(b) ensures p in Attempted(a + b) {
      var i :| 0 <= i < |b| && b[i].pid == p;
      assert (a + b)[|a| + i] == b[i];
    }
  }

  lemma OneAttempt(a: Attempt)
    ensures Refused([a]) == if a.ok then {} else {a.pid}
    ensures Attempted([a]) == {a.pid}
  {
    assert [a][0] == a;
  }

  // ----- one process

  method Request(app: Application, pr: ProcessRecord, group: SchedPolicy)
    requires app.Valid() && app.Has(pr)
    modifies pr`setSchedGroup
    ensures app.Valid() && FamilyOf(app) == old(FamilyOf(app))
    ensures pr.setSchedGroup == group
    ensures Scheds(app) == old(Scheds(app))[pr.pid := old(SchedOf(pr)).(asked := group)]
  {
    ghost var before := Scheds(app);
    pr.setSchedGroup := group;
    OneRecordChanged(app, before, pr);
  }

  /** The process is now in the group it was asked for, and reports the change. */
  method Enter(app: Application, pr: ProcessRecord)
    requires app.Valid() && app.Has(pr)
    modifies pr`curSchedGroup, pr`lastSchedGroup, pr`reports
    ensures app.Valid() && FamilyOf(app) == old(FamilyOf(app))
    ensures Scheds(app) == old(Scheds(app))[pr.pid := Sched(pr.setSchedGroup, pr.setSchedGroup, old(pr.curSchedGroup),
                                            old(pr.reports) + [GroupChange(old(pr.curSchedGroup), pr.setSchedGroup)])]
  {
    ghost var before, f := Scheds(app), FamilyOf(app);
    pr.lastSchedGroup := pr.curSchedGroup;
    assert FamilyOf(app) == f;
    pr.curSchedGroup := pr.setSchedGroup;
    assert FamilyOf(app) == f;
    pr.reports := pr.reports + [GroupChange(pr.lastSchedGroup, pr.curSchedGroup)];
    assert FamilyOf(app) == f;
    OneRecordChanged(app, before, pr);
  }

  method ComputeProcessGroup(app: Application, pr: ProcessRecord, source: AdjustSource)
    requires app.Valid() && app.Has(pr)
    modifies pr`setSchedGroup
    ensures app.Valid() && FamilyOf(app) == old(FamilyOf(app))
    ensures pr.setSchedGroup == Computed(old(FamilyOf(app)), old(Scheds(app)), pr.pid, source)
    ensures pr.processType.Render? ==>
      pr.setSchedGroup == if pr.hostPid in app.pidsMap then old(app.pidsMap[pr.hostPid].curSchedGroup) else 0
    ensures !pr.processType.Render? ==>
      pr.setSchedGroup == if source.ProcessCreate? then 0 else OwnGroup(pr, Focused(app, pr))
    ensures Scheds(app) == old(Scheds(app))[pr.pid := old(SchedOf(pr)).(asked := pr.setSchedGroup)]
  {
    var group := SP_DEFAULT;
    if pr.processType.Render? {
      group := if pr.hostPid in app.pidsMap then app.pidsMap[pr.hostPid].curSchedGroup else SP_DEFAULT;
    } else if source.ProcessCreate? {
      group := SP_DEFAULT;
    } else if app.focusedProcess != null && app.focusedProcess.pid == pr.pid {
      group := SP_TOP_APP;
    } else {
      if |pr.abilities| == 0 {
        group := SP_DEFAULT;
        if pr.processState.Background? {
          group := SP_BACKGROUND;
        }
      } else if pr.IsVisible() {
        group := SP_FOREGROUND;
      } else if pr.HasServiceExtension() {
        group := SP_DEFAULT;
        if pr.processState.Background? {
          group := SP_BACKGROUND;
        }
      } else {
        if pr.processState.Background? {
          group := SP_BACKGROUND;
        } else if pr.processState.Foreground? {
          group := SP_FOREGROUND;
        } else {
          group := SP_DEFAULT;
        }
      }
    }
    Request(app, pr, group);
  }

  /** Go to the requested group, if not there already and if the kernel lets it; report only a change made. */
  method ApplyProcessGroup(app: Application, pr: ProcessRecord, kernel: Kernel) returns (ghost log: seq<Attempt>)
    requires app.Valid() && app.Has(pr)
    modifies pr`curSchedGroup, pr`lastSchedGroup, pr`reports, kernel
    ensures kernel.attempts == old(kernel.attempts) + log
    ensures app.Valid() && FamilyOf(app) == old(FamilyOf(app))
    ensures Attempted(log) == if old(pr.curSchedGroup) == pr.setSchedGroup then {} else {pr.pid}
    ensures Scheds(app)
      == old(Scheds(app))[pr.pid := Asked(old(SchedOf(pr)), pr.setSchedGroup, pr.pid !in Refused(log))]
  {
    log := [];
    if pr.curSchedGroup != pr.setSchedGroup {
      ghost var same := Scheds(app);
      var ok := kernel.SetThreadGroupSchedPolicy(pr.pid, pr.setSchedGroup);
      log := [Attempt(pr.pid, pr.setSchedGroup, ok)];
      OneAttempt(log[0]);
      if !ok {
        assert same[pr.pid] == SchedOf(pr);
        return;
      }
      Enter(app, pr);
    }
  }

  /** A process takes the group its host has now. */
  method FollowHost(app: Application, r: ProcessRecord, kernel: Kernel) returns (ghost log: seq<Attempt>)
    requires app.Valid() && app.Has(r) && r.hostPid in app.pidsMap
    modifies r`setSchedGroup, r`curSchedGroup, r`lastSchedGroup, r`reports, kernel
    ensures kernel.attempts == old(kernel.attempts) + log
    ensures app.Valid() && FamilyOf(app) == old(FamilyOf(app))
    ensures var group := old(app.pidsMap[r.hostPid].curSchedGroup);
      && Attempted(log) == (if old(r.curSchedGroup) == group then {} else {r.pid})
      && Scheds(app) == old(Scheds(app))[r.pid := Asked(old(SchedOf(r)), group, r.pid !in Refused(log))]
  {
    ghost var s := Scheds(app);
    Request(app, r, app.pidsMap[r.hostPid].curSchedGroup);
    ghost var t := SchedOf(r);
    log := ApplyProcessGroup(app, r, kernel);
    Overwritten(s, r.pid, t, SchedOf(r));
  }

  /** The followers of h in done have been asked, with this log; now is the state reached. */
  ghost predicate FollowersDone(f: Family, s: CgroupSpec.Scheds, h: int, now: CgroupSpec.Scheds,
      log: seq<Attempt>, done: set<int>)
    requires h in s
  {
    && now == FollowersPart(f, s, h, Refused(log), done)
    && Attempted(log) == FollowersPartNeeding(f, s, h, done)
  }

  /** One more follower, asked or passed over. */
  lemma OneMoreDone(f: Family, s: CgroupSpec.Scheds, h: int, now: CgroupSpec.Scheds, log: seq<Attempt>,
      done: set<int>, p: int, next: CgroupSpec.Scheds, more: seq<Attempt>)
    requires h in s && h in now && p in s && p in now && p !in done && FollowersDone(f, s, h, now, log, done)
    requires if Leads(f, h, p) then
      && Attempted(more) == (if now[p].cur == now[h].cur then {} else {p})
      && next == now[p := Asked(now[p], now[h].cur, p !in Refused(more))]
      else next == now && more == []
    ensures FollowersDone(f, s, h, next, log + more, done + {p})
  {
    OneMoreFollower(f, s, h, Refused(log), {}, done, p);
    LogsAdd(log, more);
    OneMoreFollower(f, s, h, Refused(log), Refused(more), done, p);
  }

  /** The loop over a host's followers. */
  method AdjustFollowers(app: Application, pr: ProcessRecord, kernel: Kernel) returns (ghost log: seq<Attempt>)
    requires app.Valid() && app.Has(pr) && app.IsHostProcess(pr.pid)
    modifies app.records`setSchedGroup, app.records`curSchedGroup, app.records`lastSchedGroup, app.records`reports
    modifies kernel
    ensures kernel.attempts == old(kernel.attempts) + log
    ensures app.Valid() && FamilyOf(app) == old(FamilyOf(app))
    ensures Attempted(log) == FollowersNeeding(old(FamilyOf(app)), old(Scheds(app)), pr.pid)
    ensures Scheds(app) == FollowersAsked(old(FamilyOf(app)), old(Scheds(app)), pr.pid, Refused(log))
  {
    ghost var f, s := FamilyOf(app), Scheds(app);
    var todo := app.pidsMap.Keys;
    log := [];
    NothingVisited(s.Keys);
    NothingMore(kernel.attempts);
    AllFollowersAsked(f, s, pr.pid, {});
    while todo != {}
      invariant todo <= s.Keys && kernel.attempts == old(kernel.attempts) + log
      invariant app.Valid() && FamilyOf(app) == f
      invariant FollowersDone(f, s, pr.pid, Scheds(app), log, s.Keys - todo)
      decreases |todo|
    {
      ghost var some := Member(todo);
      var pid :| pid in todo;
      ghost var more := FollowerStep(app, pr, kernel, pid, f, s, log, todo);
      Rejoin(old(kernel.attempts), log, more);
      todo, log := todo - {pid}, log + more;
    }
    AllFollowersAsked(f, s, pr.pid, Refused(log));
  }

  /** One turn of that loop. */
  method FollowerStep(app: Application, pr: ProcessRecord, kernel: Kernel, pid: int,
      ghost f: Family, ghost s: CgroupSpec.Scheds, ghost log: seq<Attempt>, ghost todo: set<int>)
    returns (ghost more: seq<Attempt>)
    requires app.Valid() && app.Has(pr) && app.IsHostProcess(pr.pid) && pid in todo && todo <= app.pidsMap.Keys
    requires FamilyOf(app) == f && s.Keys == app.pidsMap.Keys
    requires FollowersDone(f, s, pr.pid, Scheds(app), log, s.Keys - todo)
    modifies app.records`setSchedGroup, app.records`curSchedGroup, app.records`lastSchedGroup, app.records`reports
    modifies kernel
    ensures kernel.attempts == old(kernel.attempts) + more
    ensures app.Valid() && FamilyOf(app) == f
    ensures FollowersDone(f, s, pr.pid, Scheds(app), log + more, s.Keys - (todo - {pid}))
  {
    var procRecord := app.pidsMap[pid];
    ghost var now := Scheds(app);
    assert now[pid] == SchedOf(procRecord);
    Visited(s.Keys, todo, pid);
    more := [];
    if procRecord.processType.Follows() && procRecord.hostPid in app.pidsMap && procRecord.hostPid == pr.pid {
      more := FollowHost(app, procRecord, kernel);
      OneMoreDone(f, s, pr.pid, now, log, s.Keys - todo, pid, Scheds(app), more);
    } else {
      NothingMore(kernel.attempts);
      OneMoreDone(f, s, pr.pid, now, log, s.Keys - todo, pid, now, more);
    }
  }

  /** One process moves to its computed group, and its followers after it. */
  method AdjustProcessGroup(app: Application, pr: ProcessRecord, source: AdjustSource, kernel: Kernel)
    returns (ghost log: seq<Attempt>)
    requires app.Valid() && app.Has(pr)
    modifies app.records`setSchedGroup, app.records`curSchedGroup, app.records`lastSchedGroup, app.records`reports
    modifies kernel
    ensures kernel.attempts == old(kernel.attempts) + log
    ensures app.Valid() && FamilyOf(app) == old(FamilyOf(app))
    ensures var f, s := old(FamilyOf(app)), old(Scheds(app));
      var group := Computed(f, s, pr.pid, source);
      && Scheds(app) == OneAdjusted(f, s, pr.pid, group, Refused(log))
      && Attempted(log) == OneNeeding(f, s, pr.pid, group, Refused(log))
  {
    ghost var f, s, h := FamilyOf(app), Scheds(app), pr.pid;
    ghost var first := MoveProcess(app, pr, source, kernel);
    ghost var rest := LetFollow(app, pr, kernel);
    log := first + rest;
    Rejoin(old(kernel.attempts), first, rest);
    LogsAdd(first, rest);
    OneThenFollowers(f, s, h, Computed(f, s, h, source), Refused(first), Refused(rest));
  }

  /** A process that is not a host has no followers. */
  method LetFollow(app: Application, pr: ProcessRecord, kernel: Kernel) returns (ghost log: seq<Attempt>)
    requires app.Valid() && app.Has(pr)
    modifies app.records`setSchedGroup, app.records`curSchedGroup, app.records`lastSchedGroup, app.records`reports
    modifies kernel
    ensures kernel.attempts == old(kernel.attempts) + log
    ensures app.Valid() && FamilyOf(app) == old(FamilyOf(app))
    ensures Attempted(log) == FollowersNeeding(old(FamilyOf(app)), old(Scheds(app)), pr.pid)
    ensures Scheds(app) == FollowersAsked(old(FamilyOf(app)), old(Scheds(app)), pr.pid, Refused(log))
  {
    log := [];
    if !app.IsHostProcess(pr.pid) {
      NoFollowers(FamilyOf(app), Scheds(app), pr.pid);
      return;
    }
    log := AdjustFollowers(app, pr, kernel);
  }

  /** The process itself. */
  method MoveProcess(app: Application, pr: ProcessRecord, source: AdjustSource, kernel: Kernel)
    returns (ghost log: seq<Attempt>)
    requires app.Valid() && app.Has(pr)
    modifies pr`setSchedGroup, pr`curSchedGroup, pr`lastSchedGroup, pr`reports, kernel
    ensures kernel.attempts == old(kernel.attempts) + log
    ensures app.Valid() && FamilyOf(app) == old(FamilyOf(app))
    ensures var group := Computed(old(FamilyOf(app)), old(Scheds(app)), pr.pid, source);
      && Attempted(log) == (if old(Scheds(app))[pr.pid].cur != group then {pr.pid} else {})
      && Scheds(app) == old(Scheds(app))[pr.pid := Asked(old(Scheds(app))[pr.pid], group, pr.pid !in Refused(log))]
  {
    ghost var s := Scheds(app);
    ComputeProcessGroup(app, pr, source);
    ghost var t := SchedOf(pr);
    log := ApplyProcessGroup(app, pr, kernel);
    Overwritten(s, pr.pid, t, SchedOf(pr));
  }

  /** The leaders in done have been visited, with this log; now is the state reached. */
  ghost predicate LeadersDone(f: Family, s: CgroupSpec.Scheds, own: map<int, SchedPolicy>, now: CgroupSpec.Scheds,
      log: seq<Attempt>, done: set<int>)
    requires Covers(f, s) && own.Keys == s.Keys
  {
    && now == PartlyAdjusted(f, s, own, Refused(log), done)
    && Attempted(log) == PartlyNeeding(f, s, own, Refused(log), done)
  }

  /** One more process, with its followers if it is a leader. */
  lemma OneMoreLeaderDone(f: Family, s: CgroupSpec.Scheds, own: map<int, SchedPolicy>, now: CgroupSpec.Scheds,
      log: seq<Attempt>, done: set<int>, h: int, next: CgroupSpec.Scheds, more: seq<Attempt>)
    requires Covers(f, s) && own.Keys == s.Keys && h in s && h in now && h !in done
    requires LeadersDone(f, s, own, now, log, done)
    requires if IsLeader(f, h) then
      && next == OneAdjusted(f, now, h, own[h], Refused(more))
      && Attempted(more) == OneNeeding(f, now, h, own[h], Refused(more))
      else next == now && more == []
    ensures LeadersDone(f, s, own, next, log + more, done + {h})
  {
    LogsAdd(log, more);
    if IsLeader(f, h) {
      OneMoreLeader(f, s, own, Refused(log), Refused(more), done, h);
    } else {
      NotALeader(f, s, own, Refused(log), done, h);
    }
  }

  /** p is a render, GPU or child process, and its host h a process known as a host that follows none itself. */
  ghost predicate LedBy(app: Application, p: int, h: int)
    requires app.Valid() && p in app.pidsMap && h in app.pidsMap
    reads app`pidsMap, app`records, app`hostPidsSet, app.records
  {
    var r, host := app.pidsMap[p], app.pidsMap[h];
    && (r.processType.Render? || r.processType.Gpu? || r.processType.Child?)
    && r.hostPid == h && h in app.hostPidsSet
    && (host.processType.Normal? || host.processType.Extension?)
  }

  /** Every such process is asked to be where its host is, and is there unless it was refused. */
  ghost predicate FollowersJoined(app: Application, refused: set<int>)
    requires app.Valid()
    reads app`pidsMap, app`records, app`hostPidsSet, app.records
  {
    forall p, h :: p in app.pidsMap && h in app.pidsMap && LedBy(app, p, h) ==>
      && app.pidsMap[p].setSchedGroup == app.pidsMap[h].curSchedGroup
      && (p !in refused ==> app.pidsMap[p].curSchedGroup == app.pidsMap[h].curSchedGroup)
  }

  /** Every normal or extension process is asked for the group of its own state, and is there unless it was refused. */
  ghost predicate OthersWentTheirOwnWay(app: Application, source: AdjustSource, refused: set<int>)
    requires app.Valid()
    reads app`pidsMap, app`records, app`focusedProcess, app.records
  {
    forall p :: p in app.pidsMap && (app.pidsMap[p].processType.Normal? || app.pidsMap[p].processType.Extension?) ==>
      var r := app.pidsMap[p];
      && r.setSchedGroup == (if source.ProcessCreate? then 0 else OwnGroup(r, Focused(app, r)))
      && (p !in refused ==> r.curSchedGroup == r.setSchedGroup)
  }

  lemma AdjustedByKind(app: Application, before: CgroupSpec.Scheds, source: AdjustSource, refused: set<int>)
    requires app.Valid() && before.Keys == app.pidsMap.Keys
    requires Scheds(app) == AllAdjusted(FamilyOf(app), before, Own(FamilyOf(app), source), refused)
    ensures FollowersJoined(app, refused) && OthersWentTheirOwnWay(app, source, refused)
  {
    var f, own := FamilyOf(app), Own(FamilyOf(app), source);
    assert forall p :: p in app.pidsMap ==> f.kin[p] == KinOf(app, app.pidsMap[p]);
    assert forall p :: p in app.pidsMap ==> Scheds(app)[p] == SchedOf(app.pidsMap[p]);
    forall p, h | p in app.pidsMap && h in app.pidsMap && LedBy(app, p, h)
      ensures app.pidsMap[p].setSchedGroup == app.pidsMap[h].curSchedGroup
      ensures p !in refused ==> app.pidsMap[p].curSchedGroup == app.pidsMap[h].curSchedGroup
    {
      LedFollowTheirLeaders(f, before, own, refused, p);
    }
    forall p | p in app.pidsMap && (app.pidsMap[p].processType.Normal? || app.pidsMap[p].processType.Extension?)
      ensures Scheds(app)[p].asked == own[p] && (p !in refused ==> Scheds(app)[p].cur == own[p])
    {
      LeadersTakeTheirOwnGroup(f, before, own, refused, p);
    }
  }

  /** Every process that follows no host is adjusted, each with its followers. */
  method AdjustAllProcessGroup(app: Application, source: AdjustSource, kernel: Kernel) returns (ghost log: seq<Attempt>)
    requires app.Valid()
    modifies app.records`setSchedGroup, app.records`curSchedGroup, app.records`lastSchedGroup, app.records`reports
    modifies kernel
    ensures kernel.attempts == old(kernel.attempts) + log
    ensures app.Valid() && FamilyOf(app) == old(FamilyOf(app))
    ensures var f, s, own := old(FamilyOf(app)), old(Scheds(app)), Own(old(FamilyOf(app)), source);
      && Scheds(app) == AllAdjusted(f, s, own, Refused(log))
      && Attempted(log) == PartlyNeeding(f, s, own, Refused(log), s.Keys)
    ensures FollowersJoined(app, Refused(log)) && OthersWentTheirOwnWay(app, source, Refused(log))
  {
    ghost var f, s, own := FamilyOf(app), Scheds(app), Own(FamilyOf(app), source);
    var todo := app.pidsMap.Keys;
    log := [];
    NothingVisited(s.Keys);
    NothingMore(kernel.attempts);
    NoneAdjusted(f, s, own);
    while todo != {}
      invariant todo <= s.Keys && kernel.attempts == old(kernel.attempts) + log
      invariant LeadersDone(f, s, own, Scheds(app), log, s.Keys - todo)
      invariant app.Valid() && FamilyOf(app) == f
      decreases |todo|
    {
      ghost var some := Member(todo);
      var pid :| pid in todo;
      ghost var more := LeaderStep(app, source, kernel, pid, f, s, own, log, todo);
      Rejoin(old(kernel.attempts), log, more);
      todo, log := todo - {pid}, log + more;
    }
    AdjustedByKind(app, s, source, Refused(log));
  }

  /** One turn of that loop. */
  method LeaderStep(app: Application, source: AdjustSource, kernel: Kernel, pid: int,
      ghost f: Family, ghost s: CgroupSpec.Scheds, ghost own: map<int, SchedPolicy>,
      ghost log: seq<Attempt>, ghost todo: set<int>)
    returns (ghost more: seq<Attempt>)
    requires app.Valid() && pid in todo && todo <= app.pidsMap.Keys && FamilyOf(app) == f
    requires Covers(f, s) && own == Own(f, source) && LeadersDone(f, s, own, Scheds(app), log, s.Keys - todo)
    modifies app.records`setSchedGroup, app.records`curSchedGroup, app.records`lastSchedGroup, app.records`reports
    modifies kernel
    ensures kernel.attempts == old(kernel.attempts) + more
    ensures app.Valid() && FamilyOf(app) == f
    ensures LeadersDone(f, s, own, Scheds(app), log + more, s.Keys - (todo - {pid}))
  {
    var procRecord := app.pidsMap[pid];
    ghost var now := Scheds(app);
    assert f.kin[pid] == KinOf(app, procRecord);
    Visited(s.Keys, todo, pid);
    more := [];
    if !procRecord.processType.Follows() {
      more := AdjustProcessGroup(app, procRecord, source, kernel);
      OneMoreLeaderDone(f, s, own, now, log, s.Keys - todo, pid, Scheds(app), more);
    } else {
      NothingMore(kernel.attempts);
      OneMoreLeaderDone(f, s, own, now, log, s.Keys - todo, pid, now, more);
    }
  }

  /**
   * After adjusting everything for any reason but a process's creation, a leader the kernel did not refuse is in the
   * top group exactly when it has the focus; so at most one is.
   */
  lemma OnlyTheFocusedLeaderIsOnTop(app: Application, before: CgroupSpec.Scheds, code: int, refused: set<int>, p: int)
    requires app.Valid() && before.Keys == app.pidsMap.Keys
    requires p in app.pidsMap && (app.pidsMap[p].processType.Normal? || app.pidsMap[p].processType.Extension?)
    requires Scheds(app) == AllAdjusted(FamilyOf(app), before, Own(FamilyOf(app), OtherSource(code)), refused)
    requires p !in refused
    ensures app.pidsMap[p].curSchedGroup == SP_TOP_APP <==> Focused(app, app.pidsMap[p])
    ensures app.pidsMap[p].curSchedGroup == SP_TOP_APP ==>
      forall q :: q in app.pidsMap && q != p ==> !Focused(app, app.pidsMap[q])
  {
    var f := FamilyOf(app);
    assert f.kin[p] == KinOf(app, app.pidsMap[p]) && Scheds(app)[p] == SchedOf(app.pidsMap[p]);
    LeadersTakeTheirOwnGroup(f, before, Own(f, OtherSource(code)), refused, p);
  }

  // ----- a process is created

  ghost predicate OthersKeptKin(f: Family, g: Family, pid: int) {
    forall p :: p in f.kin && p != pid ==> p in g.kin && g.kin[p] == f.kin[p]
  }

  /** What a creation notice says of a process: its kind, and a follower's host, which is known from then on. */
  function Described(f: Family, pid: int, kind: ProcRecordType, hostPid: int): Family
    requires pid in f.kin
  {
    var host := if kind.Follows() then hostPid else f.kin[pid].host;
    Family(f.kin[pid := f.kin[pid].(kind := kind, host := host)], f.hosts + if kind.Follows() then {hostPid} else {})
  }

  lemma DescribedFollowerIsLed(f: Family, pid: int, kind: ProcRecordType, hostPid: int)
    requires pid in f.kin
    ensures var g := Described(f, pid, kind, hostPid);
      && g.kin[pid].kind == kind && (kind.Follows() ==> g.kin[pid].host == hostPid)
      && (kind.Follows() && IsLeader(g, hostPid) ==> IsLed(g, pid))
      && OthersKeptKin(f, g, pid)
  {
  }

  /** When only one record's kin has changed, only its entry has. */
  lemma OneKinChanged(app: Application, before: Family, pr: ProcessRecord)
    requires app.Valid() && app.Has(pr) && before.kin.Keys == app.pidsMap.Keys
    requires forall p :: p in app.pidsMap && p != pr.pid ==> before.kin[p] == KinOf(app, app.pidsMap[p])
    ensures FamilyOf(app) == Family(before.kin[pr.pid := KinOf(app, pr)], app.hostPidsSet)
  {
    var expected := before.kin[pr.pid := KinOf(app, pr)];
    assert expected.Keys == FamilyOf(app).kin.Keys;
    forall p | p in app.pidsMap ensures FamilyOf(app).kin[p] == expected[p] {
      assert FamilyOf(app).kin[p] == KinOf(app, app.pidsMap[p]);
    }
  }

  /** The record for a pid, made if there is none yet; the others stay as they are. */
  method StartRecord(app: Application, pid: int) returns (pr: ProcessRecord)
    requires app.Valid()
    modifies app`pidsMap, app`records
    ensures app.Valid() && app.Has(pr) && pr.pid == pid
    ensures Scheds(app) == After(old(Scheds(app)), Started(pid))
    ensures OthersKeptKin(old(FamilyOf(app)), FamilyOf(app), pid)
    ensures app.records == old(app.records) + {pr} && (pr in old(app.records) || fresh(pr))
  {
    ghost var before := Scheds(app);
    pr := app.GetProcessRecordNonNull(pid);
    ghost var expected := After(before, Started(pid));
    assert expected.Keys == app.pidsMap.Keys;
    forall p | p in app.pidsMap ensures Scheds(app)[p] == expected[p] {
      assert Scheds(app)[p] == SchedOf(app.pidsMap[p]);
    }
  }

  /** A name is not part of what groups depend on. */
  method NameOnce(app: Application, pr: ProcessRecord, name: Option<string>)
    requires app.Valid() && app.Has(pr)
    modifies pr`processName
    ensures app.Valid() && Scheds(app) == old(Scheds(app)) && FamilyOf(app) == old(FamilyOf(app))
    ensures pr.processName == if name.Some? && old(pr.processName) == "" then name.value else old(pr.processName)
  {
    if name.Some? {
      pr.SetName(name.value);
    }
  }

  /** The fields of the record that the creation notice gives. */
  method WriteKin(app: Application, pr: ProcessRecord, kind: ProcRecordType, hostPid: int)
    requires app.Valid() && app.Has(pr)
    modifies pr`processType, pr`hostPid
    ensures app.Valid() && Scheds(app) == old(Scheds(app))
    ensures FamilyOf(app) == Described(old(FamilyOf(app)), pr.pid, kind, hostPid).(hosts := app.hostPidsSet)
  {
    ghost var before := FamilyOf(app);
    assert before.kin[pr.pid] == KinOf(app, pr);
    pr.processType := kind;
    if kind.Follows() {
      pr.hostPid := hostPid;
    }
    ghost var host := if kind.Follows() then hostPid else before.kin[pr.pid].host;
    assert KinOf(app, pr) == before.kin[pr.pid].(kind := kind, host := host);
    OneKinChanged(app, before, pr);
  }

  /** The creation notice is written down, and a follower's host becomes known. */
  method Describe(app: Application, pr: ProcessRecord, kind: ProcRecordType, hostPid: int)
    requires app.Valid() && app.Has(pr)
    modifies app`hostPidsSet, pr`processType, pr`hostPid
    ensures app.Valid() && Scheds(app) == old(Scheds(app))
    ensures FamilyOf(app) == Described(old(FamilyOf(app)), pr.pid, kind, hostPid)
  {
    WriteKin(app, pr, kind, hostPid);
    ghost var g := FamilyOf(app);
    if kind.Follows() {
      app.AddHostProcess(hostPid);
      HostsChanged(app, g);
    }
  }

  lemma HostsChanged(app: Application, before: Family)
    requires app.Valid() && before.kin.Keys == app.pidsMap.Keys
    requires forall p :: p in app.pidsMap ==> before.kin[p] == KinOf(app, app.pidsMap[p])
    ensures FamilyOf(app) == before.(hosts := app.hostPidsSet)
  {
    forall p | p in app.pidsMap ensures FamilyOf(app).kin[p] == before.kin[p] {
      assert FamilyOf(app).kin[p] == KinOf(app, app.pidsMap[p]);
    }
    assert FamilyOf(app).kin == before.kin;
  }

  /** The record is started if need be, named once, and described. */
  method NoteCreation(app: Application, pid: int, kind: ProcRecordType, hostPid: int, name: Option<string>)
    returns (pr: ProcessRecord)
    requires app.Valid()
    modifies app`pidsMap, app`records, app`hostPidsSet, app.records
    ensures app.Valid() && app.Has(pr) && pr.pid == pid
    ensures app.records == old(app.records) + {pr} && (pr in old(app.records) || fresh(pr))
    ensures Scheds(app) == After(old(Scheds(app)), Started(pid))
    ensures OthersKeptKin(old(FamilyOf(app)), FamilyOf(app), pid)
    ensures var g := FamilyOf(app);
      && g.kin[pid].kind == kind && (kind.Follows() ==> g.kin[pid].host == hostPid)
      && (kind.Follows() && IsLeader(g, hostPid) ==> IsLed(g, pid))
    ensures kind.Render? || kind.Gpu? || kind.Child? ==> pr.hostPid == hostPid && hostPid in app.hostPidsSet
  {
    pr := StartRecord(app, pid);
    ghost var f := FamilyOf(app);
    NameOnce(app, pr, name);
    Describe(app, pr, kind, hostPid);
    DescribedFollowerIsLed(f, pid, kind, hostPid);
  }

  /**
   * A process is created: its record is noted and adjusted at once, a render process to its host's group, any other by
   * the source. A follower is led from now on by its host, if that is a process of the application that follows none.
   */
  method HandleProcessCreated(app: Application, pid: int, kind: ProcRecordType, hostPid: int, name: Option<string>,
      source: AdjustSource, kernel: Kernel)
    returns (ghost log: seq<Attempt>)
    requires app.Valid()
    modifies app`pidsMap, app`records, app`hostPidsSet, app.records, kernel
    ensures app.Valid() && pid in app.pidsMap && kernel.attempts == old(kernel.attempts) + log
    ensures OthersKeptKin(old(FamilyOf(app)), FamilyOf(app), pid)
    ensures var f, s := FamilyOf(app), After(old(Scheds(app)), Started(pid));
      && Covers(f, s) && f.kin[pid].kind == kind
      && (kind.Render? || kind.Gpu? || kind.Child? ==> f.kin[pid].host == hostPid && hostPid in f.hosts)
      && (kind.Follows() && IsLeader(f, hostPid) ==> IsLed(f, pid))
      && Scheds(app) == After(s, AdjustedOne(f, pid, Computed(f, s, pid, source), Refused(log)))
      && Attempted(log) == OneNeeding(f, s, pid, Computed(f, s, pid, source), Refused(log))
  {
    var pr := NoteCreation(app, pid, kind, hostPid, name);
    log := AdjustProcessGroup(app, pr, source, kernel);
  }
}
