/** Which processes are capturing audio: begin, end and mass unregistration of capture sessions. */
module AudioCapturer {
  import opened Basics

  datatype Event = Begin(pid: int, uid: int, session: int) | End(pid: int, uid: int, session: int) | Unregister

  datatype Capture = Capture(sessions: map<int, set<int>>, uids: map<int, int>)

  datatype Report = Report(uid: int, on: bool)

  predicate LastEnd(c: Capture, e: Event) {
    e.End? && e.pid in c.sessions && c.sessions[e.pid] <= {e.session}
  }

  function Step(c: Capture, e: Event): Capture {
    match e
    case Begin(pid, uid, session) =>
      Capture(c.sessions[pid := (if pid in c.sessions then c.sessions[pid] else {}) + {session}], c.uids[pid := uid])
    case End(pid, _, session) =>
      if pid !in c.sessions then c
      else if LastEnd(c, e) then Capture(c.sessions - {pid}, c.uids - {pid})
      else c.(sessions := c.sessions[pid := c.sessions[pid] - {session}])
    case Unregister => Capture(map[], c.uids - c.sessions.Keys)
  }

  /** What one event reports about one process. */
  function ReportsOf(c: Capture, e: Event, pid: int): seq<Report> {
    match e
    case Begin(p, uid, _) => if p == pid && pid !in c.sessions then [Report(uid, true)] else []
    case End(p, uid, _) => if p == pid && LastEnd(c, e) then [Report(uid, false)] else []
    case Unregister => if pid in c.sessions && pid in c.uids then [Report(c.uids[pid], false)] else []
  }

  function After(es: seq<Event>): Capture {
    if |es| == 0 then Capture(map[], map[]) else Step(After(es[..|es| - 1]), es[|es| - 1])
  }

  function FlagsAfter(es: seq<Event>, pid: int): seq<bool> {
    if |es| == 0 then []
    else
      var now := ReportsOf(After(es[..|es| - 1]), es[|es| - 1], pid);
      FlagsAfter(es[..|es| - 1], pid) + if |now| == 1 then [now[0].on] else []
  }

  /** Whether a session is capturing: the last event that concerns it decides. */
  ghost predicate Capturing(es: seq<Event>, pid: int, session: int) {
    if |es| == 0 then false
    else match es[|es| - 1]
      case Begin(p, _, s) => (p == pid && s == session) || Capturing(es[..|es| - 1], pid, session)
      case End(p, _, s) => !(p == pid && s == session) && Capturing(es[..|es| - 1], pid, session)
      case Unregister => false
  }

  /** The uid given with the last begin of a process. */
  function LastUid(es: seq<Event>, pid: int): int {
    if |es| == 0 then 0
    else
      var e := es[|es| - 1];
      if e.Begin? && e.pid == pid then e.uid else LastUid(es[..|es| - 1], pid)
  }

  ghost predicate Consistent(c: Capture) {
    c.sessions.Keys == c.uids.Keys && forall p :: p in c.sessions ==> c.sessions[p] != {}
  }

  lemma StepIsConsistent(c: Capture, e: Event)
    requires Consistent(c)
    ensures Consistent(Step(c, e))
  {
    if e.End? && e.pid in c.sessions && c.sessions[e.pid] - {e.session} == {} {
      assert c.sessions[e.pid] <= {e.session};
    }
  }

  /** Both maps have the same pids, no set is ever empty, and the maps hold what the events say. */
  lemma {:induction false} TrackedMeansCapturing(es: seq<Event>, pid: int, session: int)
    ensures Consistent(After(es))
    ensures (pid in After(es).sessions && session in After(es).sessions[pid]) <==> Capturing(es, pid, session)
    ensures pid in After(es).uids ==> After(es).uids[pid] == LastUid(es, pid)
  {
    if |es| > 0 {
      TrackedMeansCapturing(es[..|es| - 1], pid, session);
      StepIsConsistent(After(es[..|es| - 1]), es[|es| - 1]);
    }
  }

  /**
   * A report is sent exactly when a process comes to be tracked, naming the uid of that event, or ceases to be: by its
   * last session's end, naming the uid of that event, or by the mass unregistration, naming the uid of its last begin.
   */
  lemma ReportsAreOfChanges(es: seq<Event>, e: Event, pid: int)
    ensures var before, after := After(es).sessions, After(es + [e]).sessions;
      ReportsOf(After(es), e, pid)
      == if pid !in before && pid in after then [Report(LastUid(es + [e], pid), true)]
         else if pid in before && pid !in after then [Report(if e.End? then e.uid else LastUid(es, pid), false)]
         else []
  {
    assert (es + [e])[..|es|] == es;
    TrackedMeansCapturing(es, pid, 0);
    TrackedMeansCapturing(es + [e], pid, 0);
  }

  /** BEGIN and END alternate for every process, and a BEGIN is open exactly for the tracked ones. */
  lemma {:induction false} ReportsAlternate(es: seq<Event>, pid: int)
    ensures Alternates(FlagsAfter(es, pid))
    ensures LastOn(FlagsAfter(es, pid)) <==> pid in After(es).sessions
    ensures Count(FlagsAfter(es, pid), b => b) - Count(FlagsAfter(es, pid), b => !b)
      == if pid in After(es).sessions then 1 else 0
  {
    if |es| > 0 {
      var older, e := es[..|es| - 1], es[|es| - 1];
      ReportsAlternate(older, pid);
      TrackedMeansCapturing(older, pid, 0);
      StepIsConsistent(After(older), e);
      var now := ReportsOf(After(older), e, pid);
      if |now| == 1 {
        AlternatesAppend(FlagsAfter(older, pid), now[0].on);
      } else {
        assert FlagsAfter(older, pid) + [] == FlagsAfter(older, pid);
      }
    }
    AlternatingBalance(FlagsAfter(es, pid));
  }
}
