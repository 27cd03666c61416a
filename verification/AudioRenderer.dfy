/** Which processes are playing audio: batches of session events folded into RUNNING and STOP reports. */
module AudioRenderer {
  import opened Basics

  const PID_MIN := 0
  const INT32_MAX := 0x7FFF_FFFF

  datatype RendererState = Running | Stopped | Released | Paused | OtherState(code: int)

  /** One session event of a batch; the source dereferences each one, so there are no null entries. */
  datatype Info = Info(pid: int, uid: int, session: int, state: RendererState)

  datatype ProcessRenderState = ProcessRenderState(pid: int, uid: int, sessions: set<int>)

  type Processes = map<int, ProcessRenderState>

  /** A report about one process: it has begun (on) or stopped playing. */
  datatype Report = Report(uid: int, on: bool)

  predicate IsValidPid(pid: int) {
    PID_MIN < pid <= INT32_MAX
  }

  predicate Starts(i: Info) {
    i.state.Running?
  }

  /** A stop counts for valid pids only. */
  predicate Stops(i: Info) {
    (i.state.Stopped? || i.state.Released? || i.state.Paused?) && IsValidPid(i.pid)
  }

  // ----- what a run of events means

  /** Whether a session of a process is running after some events: the last start, or stop of a valid pid, decides. */
  ghost predicate RunsAfter(was: bool, events: seq<Info>, pid: int, session: int) {
    if |events| == 0 then was
    else
      var i := events[|events| - 1];
      if i.pid == pid && i.session == session && i.state == Running then true
      else if i.pid == pid && i.session == session && 0 < pid <= 0x7FFF_FFFF
          && (i.state == Stopped || i.state == Released || i.state == Paused) then false
      else RunsAfter(was, events[..|events| - 1], pid, session)
  }

  ghost predicate Playing(m: Processes, pid: int, session: int) {
    pid in m && session in m[pid].sessions
  }

  function Noted(m: Processes, i: Info): Processes {
    if Starts(i) then
      if i.pid in m then m[i.pid := m[i.pid].(sessions := m[i.pid].sessions + {i.session})]
      else m[i.pid := ProcessRenderState(i.pid, i.uid, {i.session})]
    else if Stops(i) && i.pid in m then m[i.pid := m[i.pid].(sessions := m[i.pid].sessions - {i.session})]
    else m
  }

  function NotedAll(m: Processes, batch: seq<Info>): Processes {
    if |batch| == 0 then m else Noted(NotedAll(m, batch[..|batch| - 1]), batch[|batch| - 1])
  }

  /** The valid pids a batch has a stop for. */
  function StopPids(batch: seq<Info>): set<int> {
    set i | 0 <= i < |batch| && Stops(batch[i]) :: batch[i].pid
  }

  /** Processes whose last session stopped are forgotten at the end of the batch. */
  function AfterBatch(m: Processes, batch: seq<Info>): Processes {
    var noted := NotedAll(m, batch);
    map p | p in noted && !(p in StopPids(batch) && noted[p].sessions == {}) :: noted[p]
  }

  /** What the batch reports about one process: at most one report. */
  function ReportsOf(m: Processes, batch: seq<Info>, pid: int): seq<Report> {
    var noted := NotedAll(m, batch);
    if pid !in noted then []
    else if noted[pid].sessions != {} then if pid in m then [] else [Report(noted[pid].uid, true)]
    else if pid in StopPids(batch) then [Report(noted[pid].uid, false)]
    else []
  }

  function After(batches: seq<seq<Info>>): Processes {
    if |batches| == 0 then map[] else AfterBatch(After(batches[..|batches| - 1]), batches[|batches| - 1])
  }

  function ReportsAfter(batches: seq<seq<Info>>, pid: int): seq<Report> {
    if |batches| == 0 then []
    else
      var older := batches[..|batches| - 1];
      ReportsAfter(older, pid) + ReportsOf(After(older), batches[|batches| - 1], pid)
  }

  function Events(batches: seq<seq<Info>>): seq<Info> {
    if |batches| == 0 then [] else Events(batches[..|batches| - 1]) + batches[|batches| - 1]
  }

  ghost predicate NoneEmpty(m: Processes) {
    forall p :: p in m ==> m[p].sessions != {}
  }

  // ----- the tracked sessions are the playing ones

  lemma {:induction false} NotedMeansRunning(m: Processes, batch: seq<Info>, pid: int, session: int)
    ensures Playing(NotedAll(m, batch), pid, session) <==> RunsAfter(Playing(m, pid, session), batch, pid, session)
  {
    if |batch| > 0 {
      NotedMeansRunning(m, batch[..|batch| - 1], pid, session);
    }
  }

  /** Within a batch a set only empties for a pid that has a stop in it; pids and uids stay put. */
  lemma {:induction false} NotedShape(m: Processes, batch: seq<Info>, pid: int)
    requires NoneEmpty(m)
    ensures pid in m ==> pid in NotedAll(m, batch) && NotedAll(m, batch)[pid].uid == m[pid].uid
    ensures pid in NotedAll(m, batch) && NotedAll(m, batch)[pid].sessions == {} ==> pid in StopPids(batch)
    ensures pid in NotedAll(m, batch)
      <==> pid in m || exists i :: 0 <= i < |batch| && Starts(batch[i]) && batch[i].pid == pid
  {
    if |batch| > 0 {
      var older, i := batch[..|batch| - 1], batch[|batch| - 1];
      NotedShape(m, older, pid);
      assert forall p :: p in StopPids(older) ==> p in StopPids(batch);
      if Stops(i) {
        assert batch[|batch| - 1].pid in StopPids(batch);
      }
      assert Starts(i) ==> exists k :: 0 <= k < |batch| && Starts(batch[k]) && batch[k].pid == i.pid;
      assert forall k :: 0 <= k < |older| ==> older[k] == batch[k];
    }
  }

  /** The first event of a batch by which a process starts. */
  ghost predicate FirstStart(batch: seq<Info>, k: int, pid: int) {
    && 0 <= k < |batch| && batch[k].state == Running && batch[k].pid == pid
    && forall j :: 0 <= j < k ==> !(batch[j].state == Running && batch[j].pid == pid)
  }

  /** A process not tracked before a batch is tracked under the uid of its first start in it. */
  lemma {:induction false} UidIsOfFirstStart(m: Processes, batch: seq<Info>, k: int, pid: int)
    requires pid !in m && FirstStart(batch, k, pid)
    ensures pid in NotedAll(m, batch) && NotedAll(m, batch)[pid].uid == batch[k].uid
    decreases |batch|
  {
    var older := batch[..|batch| - 1];
    if k < |older| {
      UidIsOfFirstStart(m, older, k, pid);
    } else {
      NotStarted(m, older, pid);
    }
  }

  lemma {:induction false} NotStarted(m: Processes, batch: seq<Info>, pid: int)
    requires pid !in m && forall j :: 0 <= j < |batch| ==> !(batch[j].state == Running && batch[j].pid == pid)
    ensures pid !in NotedAll(m, batch)
  {
    if |batch| > 0 {
      NotStarted(m, batch[..|batch| - 1], pid);
    }
  }

  /** So a batch that takes a process up reports that uid, and no other. */
  lemma NewProcessReport(m: Processes, batch: seq<Info>, k: int, pid: int)
    requires NoneEmpty(m) && pid !in m && FirstStart(batch, k, pid)
    ensures ReportsOf(m, batch, pid) == [Report(batch[k].uid, exists s :: RunsAfter(false, batch, pid, s))]
  {
    UidIsOfFirstStart(m, batch, k, pid);
    NotedShape(m, batch, pid);
    BatchReports(m, batch, pid);
    var noted := NotedAll(m, batch);
    if noted[pid].sessions != {} {
      var s := Member(noted[pid].sessions);
      NotedMeansRunning(m, batch, pid, s);
    }
    forall s | RunsAfter(false, batch, pid, s) ensures noted[pid].sessions != {} {
      NotedMeansRunning(m, batch, pid, s);
    }
  }

  lemma {:induction false} RunsAfterAppend(was: bool, a: seq<Info>, b: seq<Info>, pid: int, session: int)
    ensures RunsAfter(was, a + b, pid, session) == RunsAfter(RunsAfter(was, a, pid, session), b, pid, session)
  {
    if |b| == 0 {
      assert a + b == a;
    } else {
      assert (a + b)[..|a + b| - 1] == a + b[..|b| - 1];
      RunsAfterAppend(was, a, b[..|b| - 1], pid, session);
    }
  }

  lemma BatchMeansRunning(m: Processes, batch: seq<Info>, pid: int, session: int)
    requires NoneEmpty(m)
    ensures NoneEmpty(AfterBatch(m, batch))
    ensures Playing(AfterBatch(m, batch), pid, session) <==> RunsAfter(Playing(m, pid, session), batch, pid, session)
  {
    NotedMeansRunning(m, batch, pid, session);
    forall p | p in AfterBatch(m, batch) ensures AfterBatch(m, batch)[p].sessions != {} {
      NotedShape(m, batch, p);
    }
  }

  /** Over any run of batches the map holds exactly the sessions whose last event was a start. */
  lemma {:induction false} TrackedMeansPlaying(batches: seq<seq<Info>>, pid: int, session: int)
    ensures NoneEmpty(After(batches))
    ensures Playing(After(batches), pid, session) <==> RunsAfter(false, Events(batches), pid, session)
  {
    if |batches| > 0 {
      var older, batch := batches[..|batches| - 1], batches[|batches| - 1];
      TrackedMeansPlaying(older, pid, session);
      BatchMeansRunning(After(older), batch, pid, session);
      RunsAfterAppend(false, Events(older), batch, pid, session);
    }
  }

  /** So a process is in the map exactly when some session of it is playing. */
  lemma MapMeansPlaying(batches: seq<seq<Info>>, pid: int)
    ensures pid in After(batches) <==> exists s :: RunsAfter(false, Events(batches), pid, s)
  {
    TrackedMeansPlaying(batches, pid, 0);
    if pid in After(batches) {
      var s := Member(After(batches)[pid].sessions);
      TrackedMeansPlaying(batches, pid, s);
    }
    if s :| RunsAfter(false, Events(batches), pid, s) {
      TrackedMeansPlaying(batches, pid, s);
    }
  }

  // ----- when the reports alternate

  /** A batch in which an untracked process starts, and has no session left running at its end. */
  ghost predicate Blip(m: Processes, batch: seq<Info>, pid: int) {
    && pid !in m
    && (exists i :: 0 <= i < |batch| && batch[i].state == Running && batch[i].pid == pid)
    && (forall s :: !RunsAfter(false, batch, pid, s))
  }

  lemma BatchReports(m: Processes, batch: seq<Info>, pid: int)
    requires NoneEmpty(m)
    ensures var next, now := AfterBatch(m, batch), ReportsOf(m, batch, pid);
      if pid in next && pid !in m then now == [Report(next[pid].uid, true)]
      else if pid !in next && pid in m then now == [Report(m[pid].uid, false)]
      else if Blip(m, batch, pid) then |now| == 1 && !now[0].on
      else now == []
    ensures pid in m && pid in AfterBatch(m, batch) ==> AfterBatch(m, batch)[pid].uid == m[pid].uid
    ensures Blip(m, batch, pid) ==> pid !in AfterBatch(m, batch)
  {
    NotedShape(m, batch, pid);
    var noted := NotedAll(m, batch);
    if pid !in m && pid in noted {
      if noted[pid].sessions == {} {
        forall s ensures !RunsAfter(false, batch, pid, s) {
          NotedMeansRunning(m, batch, pid, s);
        }
      } else {
        var s := Member(noted[pid].sessions);
        NotedMeansRunning(m, batch, pid, s);
      }
    }
  }

  function Flags(rs: seq<Report>): (bs: seq<bool>)
    ensures |bs| == |rs| && forall i :: 0 <= i < |rs| ==> bs[i] == rs[i].on
  {
    seq(|rs|, i requires 0 <= i < |rs| => rs[i].on)
  }

  /** Each STOP names the uid of the RUNNING before it. */
  ghost predicate Paired(rs: seq<Report>) {
    forall i :: 0 < i < |rs| && !rs[i].on ==> rs[i].uid == rs[i - 1].uid
  }

  ghost predicate NoBlips(batches: seq<seq<Info>>, pid: int) {
    forall i :: 0 <= i < |batches| ==> !Blip(After(batches[..i]), batches[i], pid)
  }

  /**
   * The reports about a process alternate, RUNNING first, exactly when no batch of the run is a blip
   * for it; then the last report says whether it is tracked, and each STOP closes its own RUNNING.
   */
  lemma {:induction false} ReportsAlternateExactlyWithoutBlips(batches: seq<seq<Info>>, pid: int)
    ensures Alternates(Flags(ReportsAfter(batches, pid))) <==> NoBlips(batches, pid)
    ensures NoBlips(batches, pid) ==>
      var rs := ReportsAfter(batches, pid);
      && (LastOn(Flags(rs)) <==> pid in After(batches))
      && Paired(rs) && (pid in After(batches) ==> rs[|rs| - 1].uid == After(batches)[pid].uid)
  {
    if |batches| > 0 {
      var older, batch := batches[..|batches| - 1], batches[|batches| - 1];
      ReportsAlternateExactlyWithoutBlips(older, pid);
      TrackedMeansPlaying(older, pid, 0);
      BatchReports(After(older), batch, pid);
      NoBlipsNext(batches, pid);
      var rs, now := ReportsAfter(older, pid), ReportsOf(After(older), batch, pid);
      if |now| == 1 {
        assert now == [now[0]];
        OneMoreReport(rs, now[0]);
      } else {
        assert rs + now == rs;
      }
    }
  }

  lemma OneMoreReport(rs: seq<Report>, r: Report)
    ensures Alternates(Flags(rs + [r])) <==> Alternates(Flags(rs)) && r.on != LastOn(Flags(rs))
    ensures LastOn(Flags(rs + [r])) == r.on
    ensures Paired(rs) && (|rs| > 0 && !r.on ==> r.uid == rs[|rs| - 1].uid) ==> Paired(rs + [r])
  {
    AlternatesAppend(Flags(rs), r.on);
    assert Flags(rs + [r]) == Flags(rs) + [r.on];
  }

  lemma NoBlipsNext(batches: seq<seq<Info>>, pid: int)
    requires |batches| > 0
    ensures var older := batches[..|batches| - 1];
      NoBlips(batches, pid) <==> NoBlips(older, pid) && !Blip(After(older), batches[|batches| - 1], pid)
  {
    var older := batches[..|batches| - 1];
    assert forall i :: 0 <= i < |older| ==> older[..i] == batches[..i] && older[i] == batches[i];
  }

  /** The promise of the audio framework: a batch names each session of a process once. */
  ghost predicate SessionsOnce(batch: seq<Info>) {
    forall i, j :: 0 <= i < j < |batch| ==> batch[i].pid != batch[j].pid || batch[i].session != batch[j].session
  }

  lemma {:induction false} LoneStartRuns(batch: seq<Info>, k: nat)
    requires k < |batch| && Starts(batch[k])
    requires forall j :: k < j < |batch| ==> batch[k].pid != batch[j].pid || batch[k].session != batch[j].session
    ensures RunsAfter(false, batch, batch[k].pid, batch[k].session)
    decreases |batch|
  {
    if k < |batch| - 1 {
      LoneStartRuns(batch[..|batch| - 1], k);
    }
  }

  /** Such batches are never blips, so over them the reports always alternate. */
  lemma SessionsOnceAlternate(batches: seq<seq<Info>>, pid: int)
    requires forall i :: 0 <= i < |batches| ==> SessionsOnce(batches[i])
    ensures Alternates(Flags(ReportsAfter(batches, pid)))
  {
    forall i | 0 <= i < |batches| ensures !Blip(After(batches[..i]), batches[i], pid) {
      var batch := batches[i];
      if k :| 0 <= k < |batch| && Starts(batch[k]) && batch[k].pid == pid {
        LoneStartRuns(batch, k);
      }
    }
    ReportsAlternateExactlyWithoutBlips(batches, pid);
  }

  /** One session starting and stopping in one batch sends a STOP no RUNNING came before. */
  lemma BlipHappens()
    ensures exists batches, pid :: !Alternates(Flags(ReportsAfter(batches, pid)))
  {
    var batch := [Info(7, 1, 1, Running), Info(7, 1, 1, Stopped)];
    var none: seq<seq<Info>> := [];
    assert [batch][..0] == none;
    assert Starts(batch[0]) && batch[0].pid == 7;
    var first := [batch[0]];
    assert batch[..|batch| - 1] == first;
    forall s ensures !RunsAfter(false, batch, 7, s) {
      assert RunsAfter(false, first, 7, s) == (s == 1);
    }
    assert Blip(After([batch][..0]), [batch][0], 7);
    ReportsAlternateExactlyWithoutBlips([batch], 7);
    assert !NoBlips([batch], 7);
  }
}
