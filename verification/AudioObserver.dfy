/** The audio observer: renderer batches and capture sessions, updated in place. */
module AudioObserver {
  import opened Basics
  import R = AudioRenderer
  import C = AudioCapturer

  /** The part of a report trace that is about one process. */
  function About<T>(trace: seq<(int, T)>, pid: int): seq<T> {
    if |trace| == 0 then []
    else About(trace[..|trace| - 1], pid) + if trace[|trace| - 1].0 == pid then [trace[|trace| - 1].1] else []
  }

  lemma AboutNext<T>(trace: seq<(int, T)>, p: int, r: T)
    ensures forall pid :: About(trace + [(p, r)], pid) == About(trace, pid) + if p == pid then [r] else []
  {
    assert (trace + [(p, r)])[..|trace|] == trace;
  }

  /** The longer trace adds, for each process, exactly the reports given for it. */
  ghost predicate Adds<T(!new)>(before: seq<(int, T)>, after: seq<(int, T)>, now: int -> seq<T>) {
    forall pid :: About(after, pid) == About(before, pid) + now(pid)
  }

  lemma AddsNothing<T(!new)>(trace: seq<(int, T)>)
    ensures Adds(trace, trace, pid => [])
  {
    assert forall pid :: About(trace, pid) + [] == About(trace, pid);
  }

  /** One more process handled: its report, or none, is appended. */
  lemma AddsNext<T(!new)>(before: seq<(int, T)>, trace: seq<(int, T)>,
      f: int -> seq<T>, g: int -> seq<T>, p: int, r: Option<T>)
    requires Adds(before, trace, f)
    requires forall pid :: g(pid) == f(pid) + if pid == p && r.Some? then [r.value] else []
    ensures Adds(before, if r.Some? then trace + [(p, r.value)] else trace, g)
  {
    if r.Some? {
      AboutNext(trace, p, r.value);
    } else {
      assert forall pid :: g(pid) == f(pid);
    }
  }

  lemma AddsSame<T(!new)>(before: seq<(int, T)>, after: seq<(int, T)>, f: int -> seq<T>, g: int -> seq<T>)
    requires Adds(before, after, f) && forall pid :: g(pid) == f(pid)
    ensures Adds(before, after, g)
  {
  }

  lemma AddsMore<T(!new)>(a: seq<(int, T)>, b: seq<(int, T)>, c: seq<(int, T)>,
      f: int -> seq<T>, g: int -> seq<T>, h: int -> seq<T>)
    requires Adds(a, b, f) && Adds(b, c, g) && forall pid :: h(pid) == f(pid) + g(pid)
    ensures Adds(a, c, h)
  {
  }

  /** The state each session had in its last event of the batch. */
  function LastStates(batch: seq<R.Info>): map<int, R.RendererState> {
    if |batch| == 0 then map[]
    else LastStates(batch[..|batch| - 1])[batch[|batch| - 1].session := batch[|batch| - 1].state]
  }

  /** The events of a batch whose session was not in that state after the previous batch. */
  function Changes(last: map<int, R.RendererState>, batch: seq<R.Info>): seq<R.Info> {
    if |batch| == 0 then []
    else
      var i := batch[|batch| - 1];
      Changes(last, batch[..|batch| - 1]) + if i.session in last && last[i.session] == i.state then [] else [i]
  }

  /** A session's state after a batch is that of its last event in it; a session the batch does not name has none. */
  lemma {:induction false} LastStateIsLast(batch: seq<R.Info>, k: nat)
    requires k < |batch| && forall j :: k < j < |batch| ==> batch[j].session != batch[k].session
    ensures batch[k].session in LastStates(batch) && LastStates(batch)[batch[k].session] == batch[k].state
    decreases |batch|
  {
    if k < |batch| - 1 {
      LastStateIsLast(batch[..|batch| - 1], k);
    }
  }

  lemma {:induction false} OnlyNamedHaveStates(batch: seq<R.Info>, session: int)
    requires session in LastStates(batch)
    ensures exists k :: 0 <= k < |batch| && batch[k].session == session
  {
    var last := |batch| - 1;
    if batch[last].session != session {
      OnlyNamedHaveStates(batch[..last], session);
      var k :| 0 <= k < last && batch[..last][k].session == session;
      assert batch[k].session == session;
    } else {
      assert batch[last].session == session;
    }
  }

  /** Each event of a batch is reported in its place, unless its session was in that very state before the batch. */
  lemma {:induction false} ChangesInPlace(last: map<int, R.RendererState>, a: seq<R.Info>, i: R.Info, b: seq<R.Info>)
    ensures Changes(last, []) == []
    ensures Changes(last, a + [i] + b)
      == Changes(last, a)
        + (if i.session in last && last[i.session] == i.state then [] else [i])
        + Changes(last, b)
    decreases |b|
  {
    var all := a + [i] + b;
    if |b| == 0 {
      assert all == a + [i] && all[..|all| - 1] == a;
    } else {
      assert all[..|all| - 1] == a + [i] + b[..|b| - 1];
      ChangesInPlace(last, a, i, b[..|b| - 1]);
    }
  }

  datatype CapturerState = Running | Stopped | Released | OtherState(code: int)

  datatype CaptureInfo = CaptureInfo(pid: int, uid: int, session: int, state: CapturerState)

  /** The capture event a batch entry stands for; null entries and pid 0 stand for none. */
  function EventOf(info: Option<CaptureInfo>): Option<C.Event> {
    match info
    case None => None
    case Some(i) =>
      if i.pid == 0 then None
      else match i.state
        case Running => Some(C.Begin(i.pid, i.uid, i.session))
        case Stopped => Some(C.End(i.pid, i.uid, i.session))
        case Released => Some(C.End(i.pid, i.uid, i.session))
        case OtherState(_) => None
  }

  function CaptureEvents(infos: seq<Option<CaptureInfo>>): seq<C.Event> {
    if |infos| == 0 then []
    else
      var e := EventOf(infos[|infos| - 1]);
      CaptureEvents(infos[..|infos| - 1]) + if e.Some? then [e.value] else []
  }

  /** What one entry says of a session: a begin or an end of it under a pid other than 0. */
  ghost predicate CapturesNext(was: bool, info: Option<CaptureInfo>, pid: int, session: int) {
    if info.Some? && info.value.pid == pid && pid != 0 && info.value.session == session then
      if info.value.state == Running then true
      else if info.value.state == Stopped || info.value.state == Released then false
      else was
    else was
  }

  /** Whether a session is capturing after some entries. */
  ghost predicate CapturesAfter(was: bool, infos: seq<Option<CaptureInfo>>, pid: int, session: int) {
    if |infos| == 0 then was
    else CapturesNext(CapturesAfter(was, infos[..|infos| - 1], pid, session), infos[|infos| - 1], pid, session)
  }

  ghost predicate Tracked(c: C.Capture, pid: int, session: int) {
    pid in c.sessions && session in c.sessions[pid]
  }

  lemma EntryTracksCaptures(c: C.Capture, info: Option<CaptureInfo>, pid: int, session: int)
    ensures Tracked(StepEvent(c, EventOf(info)), pid, session)
      <==> CapturesNext(Tracked(c, pid, session), info, pid, session)
  {
  }

  /** A batch leaves tracked exactly the sessions that capture after it. */
  lemma {:induction false} BatchTracksCaptures(c: C.Capture, infos: seq<Option<CaptureInfo>>, pid: int, session: int)
    ensures Tracked(StepAll(c, CaptureEvents(infos)), pid, session)
      <==> CapturesAfter(Tracked(c, pid, session), infos, pid, session)
  {
    if |infos| > 0 {
      var older, info := infos[..|infos| - 1], infos[|infos| - 1];
      BatchTracksCaptures(c, older, pid, session);
      assert infos == older + [info];
      CaptureNext(c, older, info);
      EntryTracksCaptures(StepAll(c, CaptureEvents(older)), info, pid, session);
    }
  }

  function StepEvent(c: C.Capture, e: Option<C.Event>): C.Capture {
    if e.Some? then C.Step(c, e.value) else c
  }

  function ReportsOfEvent(c: C.Capture, e: Option<C.Event>): int -> seq<C.Report> {
    pid => if e.Some? then C.ReportsOf(c, e.value, pid) else []
  }

  function StepAll(c: C.Capture, es: seq<C.Event>): C.Capture {
    if |es| == 0 then c else C.Step(StepAll(c, es[..|es| - 1]), es[|es| - 1])
  }

  function ReportsOfAll(c: C.Capture, es: seq<C.Event>, pid: int): seq<C.Report> {
    if |es| == 0 then []
    else ReportsOfAll(c, es[..|es| - 1], pid) + C.ReportsOf(StepAll(c, es[..|es| - 1]), es[|es| - 1], pid)
  }

  class AudioObserver {
    var renderState: map<int, R.RendererState>
    var processRenderStateMap: R.Processes
    var capturerStateMap: map<int, set<int>>
    var capturerInfoPidToUidMap: map<int, int>
    ghost var sessionChanges: seq<R.Info>            // AUDIO_RENDER_STATE_CHANGE reports
    ghost var audioReports: seq<(int, R.Report)>     // INNER_AUDIO_STATE reports, by pid
    ghost var captureReports: seq<(int, C.Report)>   // AUDIO_CAPTURE begin and end reports, by pid

    constructor ()
      ensures renderState == map[] && processRenderStateMap == map[]
      ensures Capture() == C.Capture(map[], map[])
      ensures sessionChanges == [] && audioReports == [] && captureReports == []
    {
      renderState, processRenderStateMap := map[], map[];
      capturerStateMap, capturerInfoPidToUidMap := map[], map[];
      sessionChanges, audioReports, captureReports := [], [], [];
    }

    ghost function Capture(): C.Capture
      reads this
    {
      C.Capture(capturerStateMap, capturerInfoPidToUidMap)
    }

    // ----- renderers

    method OnRendererStateChange(infos: seq<R.Info>)
      modifies this`renderState, this`processRenderStateMap, this`sessionChanges, this`audioReports
      ensures processRenderStateMap == R.AfterBatch(old(processRenderStateMap), infos)
      ensures var m := old(processRenderStateMap);
        Adds(old(audioReports), audioReports, pid => R.ReportsOf(m, infos, pid))
      ensures renderState == LastStates(infos)
      ensures sessionChanges == old(sessionChanges) + Changes(old(renderState), infos)
    {
      ghost var m := processRenderStateMap;
      var newRunningPid, newStopSessionPid := HandleEachInfo(infos);
      RememberStates(infos);
      HandleStartAudioStateEvent(newRunningPid);
      ghost var started := audioReports;
      HandleStopAudioStateEvent(newStopSessionPid);
      BatchReportsSplit(m, infos);
      assert processRenderStateMap == R.AfterBatch(m, infos);
      AddsMore(old(audioReports), started, audioReports, StartReports(R.NotedAll(m, infos), newRunningPid),
        StopReports(R.NotedAll(m, infos), newStopSessionPid), pid => R.ReportsOf(m, infos, pid));
    }

    /** The first loop over the batch. */
    method HandleEachInfo(infos: seq<R.Info>) returns (newRunningPid: set<int>, newStopSessionPid: set<int>)
      modifies this`processRenderStateMap, this`sessionChanges
      ensures processRenderStateMap == R.NotedAll(old(processRenderStateMap), infos)
      ensures newRunningPid == processRenderStateMap.Keys - old(processRenderStateMap).Keys
      ensures newStopSessionPid == R.StopPids(infos)
      ensures sessionChanges == old(sessionChanges) + Changes(renderState, infos)
    {
      ghost var m := processRenderStateMap;
      newRunningPid, newStopSessionPid := {}, {};
      assert sessionChanges + [] == sessionChanges;
      for n := 0 to |infos|
        invariant processRenderStateMap == R.NotedAll(m, infos[..n])
        invariant newRunningPid == R.NotedAll(m, infos[..n]).Keys - m.Keys
        invariant newStopSessionPid == R.StopPids(infos[..n])
        invariant sessionChanges == old(sessionChanges) + Changes(renderState, infos[..n])
      {
        var info := infos[n];
        assert infos[..n + 1][..n] == infos[..n];
        StopPidsNext(infos, n);
        KeysOnlyGrow(m, infos[..n]);
        if info.session !in renderState || renderState[info.session] != info.state {
          sessionChanges := sessionChanges + [info];
        }
        newRunningPid, newStopSessionPid := HandleInnerAudioStateChange(info, newRunningPid, newStopSessionPid);
      }
      assert infos[..|infos|] == infos;
    }

    /** The second loop: the states the next batch is compared with. */
    method RememberStates(infos: seq<R.Info>)
      modifies this`renderState
      ensures renderState == LastStates(infos)
    {
      renderState := map[];
      for n := 0 to |infos|
        invariant renderState == LastStates(infos[..n])
      {
        assert infos[..n + 1][..n] == infos[..n];
        renderState := renderState[infos[n].session := infos[n].state];
      }
      assert infos[..|infos|] == infos;
    }

    method HandleInnerAudioStateChange(info: R.Info, running: set<int>, stopped: set<int>)
      returns (running': set<int>, stopped': set<int>)
      modifies this`processRenderStateMap
      ensures processRenderStateMap == R.Noted(old(processRenderStateMap), info)
      ensures running' == running + (processRenderStateMap.Keys - old(processRenderStateMap.Keys))
      ensures stopped' == stopped + if R.Stops(info) then {info.pid} else {}
    {
      running', stopped' := running, stopped;
      match info.state
      case Running => running' := ProcessRunningSessionState(info, running);
      case OtherState(_) =>
      case _ => stopped' := ProcessStopSessionState(info, stopped);
    }

    method ProcessRunningSessionState(info: R.Info, running: set<int>) returns (running': set<int>)
      requires R.Starts(info)
      modifies this`processRenderStateMap
      ensures processRenderStateMap == R.Noted(old(processRenderStateMap), info)
      ensures running' == if info.pid in old(processRenderStateMap) then running else running + {info.pid}
    {
      if info.pid in processRenderStateMap {
        var process := processRenderStateMap[info.pid];
        process := process.(sessions := process.sessions + {info.session});
        processRenderStateMap := processRenderStateMap[info.pid := process];
        return running;
      }
      var process := R.ProcessRenderState(info.pid, info.uid, {info.session});
      processRenderStateMap := processRenderStateMap[info.pid := process];
      return running + {info.pid};
    }

    method ProcessStopSessionState(info: R.Info, stopped: set<int>) returns (stopped': set<int>)
      requires info.state.Stopped? || info.state.Released? || info.state.Paused?
      modifies this`processRenderStateMap
      ensures processRenderStateMap == R.Noted(old(processRenderStateMap), info)
      ensures stopped' == stopped + if R.IsValidPid(info.pid) then {info.pid} else {}
    {
      if !R.IsValidPid(info.pid) {
        return stopped;
      }
      stopped' := stopped + {info.pid};
      if info.pid !in processRenderStateMap {
        return;
      }
      var process := processRenderStateMap[info.pid];
      process := process.(sessions := process.sessions - {info.session});
      processRenderStateMap := processRenderStateMap[info.pid := process];
    }

    method HandleStartAudioStateEvent(newRunningPid: set<int>)
      modifies this`audioReports
      ensures Adds(old(audioReports), audioReports, StartReports(processRenderStateMap, newRunningPid))
    {
      ghost var done: set<int> := {};
      var todo := newRunningPid;
      AddsNothing(audioReports);
      while todo != {}
        invariant done + todo == newRunningPid && done !! todo
        invariant Adds(old(audioReports), audioReports, StartReports(processRenderStateMap, done))
      {
        ghost var some := Member(todo);
        var pid :| pid in todo;
        StartNext(old(audioReports), audioReports, processRenderStateMap, done, pid);
        todo, done := todo - {pid}, done + {pid};
        if pid !in processRenderStateMap || |processRenderStateMap[pid].sessions| <= 0 {
          continue;
        }
        var report := R.Report(processRenderStateMap[pid].uid, true);
        audioReports := audioReports + [(pid, report)];
      }
    }

    method HandleStopAudioStateEvent(newStopSessionPid: set<int>)
      modifies this`processRenderStateMap, this`audioReports
      ensures processRenderStateMap == Kept(old(processRenderStateMap), newStopSessionPid)
      ensures Adds(old(audioReports), audioReports, StopReports(old(processRenderStateMap), newStopSessionPid))
    {
      ghost var m, done: set<int> := processRenderStateMap, {};
      var todo := newStopSessionPid;
      AddsNothing(audioReports);
      while todo != {}
        invariant done + todo == newStopSessionPid && done !! todo
        invariant processRenderStateMap == Kept(m, done)
        invariant Adds(old(audioReports), audioReports, StopReports(m, done))
      {
        ghost var some := Member(todo);
        var pid :| pid in todo;
        KeptNext(m, done, pid);
        StopNext(old(audioReports), audioReports, m, done, pid);
        todo, done := todo - {pid}, done + {pid};
        StopIfSilent(pid);
      }
    }

    method StopIfSilent(pid: int)
      modifies this`processRenderStateMap, this`audioReports
      ensures var m := old(processRenderStateMap);
        var stops := pid in m && m[pid].sessions == {};
        && processRenderStateMap == (if stops then m - {pid} else m)
        && audioReports == if stops then old(audioReports) + [(pid, R.Report(m[pid].uid, false))] else old(audioReports)
    {
      if pid !in processRenderStateMap || |processRenderStateMap[pid].sessions| > 0 {
        return;
      }
      var report := R.Report(processRenderStateMap[pid].uid, false);
      processRenderStateMap := processRenderStateMap - {pid};
      audioReports := audioReports + [(pid, report)];
    }

    // ----- capturers

    method OnCapturerStateChange(infos: seq<Option<CaptureInfo>>)
      modifies this`capturerStateMap, this`capturerInfoPidToUidMap, this`captureReports
      ensures Capture() == StepAll(old(Capture()), CaptureEvents(infos))
      ensures var c := old(Capture());
        Adds(old(captureReports), captureReports, pid => ReportsOfAll(c, CaptureEvents(infos), pid))
    {
      ghost var c := Capture();
      AddsNothing(captureReports);
      for n := 0 to |infos|
        invariant Capture() == StepAll(c, CaptureEvents(infos[..n]))
        invariant Adds(old(captureReports), captureReports, pid => ReportsOfAll(c, CaptureEvents(infos[..n]), pid))
      {
        ghost var trace, before := captureReports, Capture();
        HandleCaptureInfo(infos[n]);
        assert infos[..n + 1] == infos[..n] + [infos[n]];
        CaptureNext(c, infos[..n], infos[n]);
        AddsMore(old(captureReports), trace, captureReports, pid => ReportsOfAll(c, CaptureEvents(infos[..n]), pid),
          ReportsOfEvent(before, EventOf(infos[n])), pid => ReportsOfAll(c, CaptureEvents(infos[..n + 1]), pid));
      }
      assert infos[..|infos|] == infos;
    }

    method HandleCaptureInfo(info: Option<CaptureInfo>)
      modifies this`capturerStateMap, this`capturerInfoPidToUidMap, this`captureReports
      ensures Capture() == StepEvent(old(Capture()), EventOf(info))
      ensures Adds(old(captureReports), captureReports, ReportsOfEvent(old(Capture()), EventOf(info)))
    {
      AddsNothing(captureReports);
      match info
      case None =>
      case Some(i) =>
        if i.pid != 0 {
          match i.state
          case Running => ProcessCapturerBegin(i.pid, i.uid, i.session);
          case OtherState(_) =>
          case _ => ProcessCapturerEnd(i.pid, i.uid, i.session);
        }
    }

    method ProcessCapturerBegin(pid: int, uid: int, session: int)
      modifies this`capturerStateMap, this`capturerInfoPidToUidMap, this`captureReports
      ensures Capture() == C.Step(old(Capture()), C.Begin(pid, uid, session))
      ensures var c := old(Capture());
        Adds(old(captureReports), captureReports, p => C.ReportsOf(c, C.Begin(pid, uid, session), p))
    {
      AddsNothing(captureReports);
      if pid !in capturerStateMap {
        AboutNext(captureReports, pid, C.Report(uid, true));
        captureReports := captureReports + [(pid, C.Report(uid, true))];
        capturerStateMap := capturerStateMap[pid := {}];
      }
      capturerStateMap := capturerStateMap[pid := capturerStateMap[pid] + {session}];
      capturerInfoPidToUidMap := capturerInfoPidToUidMap[pid := uid];
    }

    method ProcessCapturerEnd(pid: int, uid: int, session: int)
      modifies this`capturerStateMap, this`capturerInfoPidToUidMap, this`captureReports
      ensures Capture() == C.Step(old(Capture()), C.End(pid, uid, session))
      ensures var c := old(Capture());
        Adds(old(captureReports), captureReports, p => C.ReportsOf(c, C.End(pid, uid, session), p))
    {
      AddsNothing(captureReports);
      if pid !in capturerStateMap {
        return;
      }
      capturerStateMap := capturerStateMap[pid := capturerStateMap[pid] - {session}];
      if capturerStateMap[pid] == {} {
        capturerInfoPidToUidMap := capturerInfoPidToUidMap - {pid};
        capturerStateMap := capturerStateMap - {pid};
        AboutNext(captureReports, pid, C.Report(uid, false));
        captureReports := captureReports + [(pid, C.Report(uid, false))];
      }
    }

    method EndOne(pid: int)
      requires pid in capturerInfoPidToUidMap
      modifies this`capturerInfoPidToUidMap, this`captureReports
      ensures capturerInfoPidToUidMap == old(capturerInfoPidToUidMap) - {pid}
      ensures captureReports == old(captureReports) + [(pid, C.Report(old(capturerInfoPidToUidMap)[pid], false))]
    {
      var report := C.Report(capturerInfoPidToUidMap[pid], false);
      capturerInfoPidToUidMap := capturerInfoPidToUidMap - {pid};
      captureReports := captureReports + [(pid, report)];
    }

    method ProcessCapturerEndCaseByUnregister()
      requires capturerStateMap.Keys == capturerInfoPidToUidMap.Keys
      modifies this`capturerStateMap, this`capturerInfoPidToUidMap, this`captureReports
      ensures Capture() == C.Step(old(Capture()), C.Unregister)
      ensures var c := old(Capture());
        Adds(old(captureReports), captureReports, p => C.ReportsOf(c, C.Unregister, p))
    {
      ghost var c := Capture();
      var todo := capturerStateMap.Keys;
      EndEach(todo);
      capturerStateMap := map[];
      AddsSame(old(captureReports), captureReports, EndReports(c, c.sessions.Keys),
        p => C.ReportsOf(c, C.Unregister, p));
    }

    /** The loop over all capturing processes. */
    method EndEach(pids: set<int>)
      requires pids <= capturerInfoPidToUidMap.Keys
      modifies this`capturerInfoPidToUidMap, this`captureReports
      ensures capturerInfoPidToUidMap == old(capturerInfoPidToUidMap) - pids
      ensures Adds(old(captureReports), captureReports, EndReports(old(Capture()), pids))
    {
      ghost var c, done: set<int> := Capture(), {};
      var todo := pids;
      AddsNothing(captureReports);
      while todo != {}
        invariant done + todo == pids && done !! todo
        invariant capturerInfoPidToUidMap == c.uids - done
        invariant Adds(old(captureReports), captureReports, EndReports(c, done))
      {
        ghost var some := Member(todo);
        var pid :| pid in todo;
        EndNext(old(captureReports), captureReports, c, done, pid);
        EndOne(pid);
        assert c.uids - done - {pid} == c.uids - (done + {pid});
        todo, done := todo - {pid}, done + {pid};
      }
    }
  }

  function StartReports(m: R.Processes, pids: set<int>): int -> seq<R.Report> {
    pid => if pid in pids && pid in m && m[pid].sessions != {} then [R.Report(m[pid].uid, true)] else []
  }

  function StopReports(m: R.Processes, pids: set<int>): int -> seq<R.Report> {
    pid => if pid in pids && pid in m && m[pid].sessions == {} then [R.Report(m[pid].uid, false)] else []
  }

  function EndReports(c: C.Capture, pids: set<int>): int -> seq<C.Report> {
    pid => if pid in pids && pid in c.uids then [C.Report(c.uids[pid], false)] else []
  }

  /** Processes that are not both stopping and silent. */
  function Kept(m: R.Processes, pids: set<int>): R.Processes {
    map p | p in m && !(p in pids && m[p].sessions == {}) :: m[p]
  }

  lemma StartNext(before: seq<(int, R.Report)>, trace: seq<(int, R.Report)>, m: R.Processes, done: set<int>, pid: int)
    requires pid !in done && Adds(before, trace, StartReports(m, done))
    ensures Adds(before,
      if pid in m && m[pid].sessions != {} then trace + [(pid, R.Report(m[pid].uid, true))] else trace,
      StartReports(m, done + {pid}))
  {
    var r := if pid in m && m[pid].sessions != {} then Some(R.Report(m[pid].uid, true)) else None;
    AddsNext(before, trace, StartReports(m, done), StartReports(m, done + {pid}), pid, r);
  }

  lemma StopNext(before: seq<(int, R.Report)>, trace: seq<(int, R.Report)>, m: R.Processes, done: set<int>, pid: int)
    requires pid !in done && Adds(before, trace, StopReports(m, done))
    ensures Adds(before,
      if pid in m && m[pid].sessions == {} then trace + [(pid, R.Report(m[pid].uid, false))] else trace,
      StopReports(m, done + {pid}))
  {
    var r := if pid in m && m[pid].sessions == {} then Some(R.Report(m[pid].uid, false)) else None;
    AddsNext(before, trace, StopReports(m, done), StopReports(m, done + {pid}), pid, r);
  }

  lemma EndNext(before: seq<(int, C.Report)>, trace: seq<(int, C.Report)>, c: C.Capture, done: set<int>, pid: int)
    requires pid !in done && pid in c.uids && Adds(before, trace, EndReports(c, done))
    ensures Adds(before, trace + [(pid, C.Report(c.uids[pid], false))], EndReports(c, done + {pid}))
  {
    AddsNext(before, trace, EndReports(c, done), EndReports(c, done + {pid}), pid, Some(C.Report(c.uids[pid], false)));
  }

  lemma KeptNext(m: R.Processes, pids: set<int>, pid: int)
    ensures pid !in pids ==> (pid in Kept(m, pids) <==> pid in m) && (pid in m ==> Kept(m, pids)[pid] == m[pid])
    ensures Kept(m, pids + {pid}) == if pid in m && m[pid].sessions == {} then Kept(m, pids) - {pid} else Kept(m, pids)
  {
  }

  /** A batch's report about a process comes from one of the two report loops. */
  lemma BatchReportsSplit(m: R.Processes, batch: seq<R.Info>)
    ensures var noted := R.NotedAll(m, batch);
      forall pid :: R.ReportsOf(m, batch, pid)
        == StartReports(noted, noted.Keys - m.Keys)(pid) + StopReports(noted, R.StopPids(batch))(pid)
  {
  }

  lemma CaptureNext(c: C.Capture, infos: seq<Option<CaptureInfo>>, info: Option<CaptureInfo>)
    ensures var es, next := CaptureEvents(infos), CaptureEvents(infos + [info]);
      && StepAll(c, next) == StepEvent(StepAll(c, es), EventOf(info))
      && forall pid ::
        ReportsOfAll(c, next, pid) == ReportsOfAll(c, es, pid) + ReportsOfEvent(StepAll(c, es), EventOf(info))(pid)
  {
    var es, e := CaptureEvents(infos), EventOf(info);
    assert (infos + [info])[..|infos + [info]| - 1] == infos;
    if e.Some? {
      assert (es + [e.value])[..|es + [e.value]| - 1] == es;
    } else {
      assert es + [] == es;
      assert forall pid :: ReportsOfAll(c, es, pid) + [] == ReportsOfAll(c, es, pid);
    }
  }

  lemma {:induction false} KeysOnlyGrow(m: R.Processes, batch: seq<R.Info>)
    ensures m.Keys <= R.NotedAll(m, batch).Keys
  {
    if |batch| > 0 { KeysOnlyGrow(m, batch[..|batch| - 1]); }
  }

  lemma StopPidsNext(infos: seq<R.Info>, n: nat)
    requires n < |infos|
    ensures R.StopPids(infos[..n + 1]) == R.StopPids(infos[..n]) + if R.Stops(infos[n]) then {infos[n].pid} else {}
  {
    var now := infos[..n + 1];
    assert forall i :: 0 <= i < n ==> now[i] == infos[..n][i];
    if R.Stops(infos[n]) {
      assert now[n].pid in R.StopPids(now);
    }
  }
}
