/** Recognising that apps are being started one after another. Times are in microseconds. */
module AppStartup {
  import opened Basics

  const CONTINUOUS_START_TIME_OUT := 15 * 1000 * 1000
  const MAX_NO_REPEAT_APP_COUNT := 4
  const MAX_CONTINUOUS_START_NUM := 5

  datatype Startup = Startup(uid: string, bundle: string, time: int)

  /** An app starts, or the exit timer runs at some moment. */
  datatype Event = Start(start: Startup) | Timer(time: int)

  /** The recogniser's fields; a report is true for START and false for STOP of the scene. */
  datatype Scene = Scene(count: int, last: int, pkgs: seq<string>, uids: set<string>,
                         reported: bool, timerSet: bool, reports: seq<bool>)

  const Idle := Scene(0, 0, [], {}, false, false, [])

  function Clean(s: Scene): Scene {
    Scene(0, s.last, [], {}, false, false, s.reports + if s.reported then [false] else [])
  }

  function Update(s: Scene, e: Startup): Scene {
    var t := s.(last := e.time, count := s.count + 1);
    if s.reported then t else t.(pkgs := s.pkgs + [e.bundle], uids := s.uids + {e.uid})
  }

  predicate Recognised(s: Scene) {
    |s.pkgs| >= MAX_CONTINUOUS_START_NUM && |s.uids| >= MAX_NO_REPEAT_APP_COUNT
  }

  function Record(s: Scene, e: Startup): Scene {
    var base := if e.time - s.last >= CONTINUOUS_START_TIME_OUT then Clean(s) else s;
    var t := Update(base, e);
    t.(timerSet := true, reported := t.reported || Recognised(t),
       reports := t.reports + if Recognised(t) && !t.reported then [true] else [])
  }

  function Step(s: Scene, e: Event): Scene {
    match e
    case Start(start) => Record(s, start)
    case Timer(_) => Clean(s)
  }

  function Run(es: seq<Event>): Scene {
    if |es| == 0 then Idle else Step(Run(es[..|es| - 1]), es[|es| - 1])
  }

  // ----- the history, without timers

  function Starts(es: seq<Event>): seq<Startup> {
    if |es| == 0 then []
    else Starts(es[..|es| - 1]) + if es[|es| - 1].Start? then [es[|es| - 1].start] else []
  }

  /** Every two neighbours are less than the time-out apart. */
  ghost predicate Close(h: seq<Startup>) {
    forall i :: 0 < i < |h| ==> h[i].time - h[i - 1].time < CONTINUOUS_START_TIME_OUT
  }

  function Burst(h: seq<Startup>): (b: seq<Startup>)
    ensures |b| <= |h|
  {
    if |h| == 0 then []
    else if |h| > 1 && h[|h| - 1].time - h[|h| - 2].time < CONTINUOUS_START_TIME_OUT then
      Burst(h[..|h| - 1]) + [h[|h| - 1]]
    else [h[|h| - 1]]
  }

  lemma CloseNext(b: seq<Startup>, e: Startup)
    requires Close(b) && |b| > 0 && e.time - b[|b| - 1].time < CONTINUOUS_START_TIME_OUT
    ensures Close(b + [e])
  {
  }

  lemma SuffixNext(g: seq<Startup>, k: nat, e: Startup)
    requires k <= |g|
    ensures (g + [e])[k..] == g[k..] + [e]
  {
  }

  lemma {:induction false} BurstIsSuffix(h: seq<Startup>)
    ensures Burst(h) == h[|h| - |Burst(h)|..] && Close(Burst(h))
    ensures |h| > 0 ==> |Burst(h)| > 0 && Burst(h)[|Burst(h)| - 1] == h[|h| - 1]
  {
    if |h| > 0 {
      var g, e := h[..|h| - 1], h[|h| - 1];
      BurstIsSuffix(g);
      var b := Burst(g);
      if |h| > 1 && e.time - h[|h| - 2].time < CONTINUOUS_START_TIME_OUT {
        assert h == g + [e];
        SuffixNext(g, |g| - |b|, e);
        CloseNext(b, e);
      }
    }
  }

  lemma CloseWithoutLast(h: seq<Startup>, k: nat)
    requires k + 1 < |h| && Close(h[k..])
    ensures Close(h[..|h| - 1][k..]) && h[|h| - 1].time - h[|h| - 2].time < CONTINUOUS_START_TIME_OUT
  {
    var u, v := h[..|h| - 1][k..], h[k..];
    forall i | 0 < i < |u| ensures u[i].time - u[i - 1].time < CONTINUOUS_START_TIME_OUT {
      assert u[i] == v[i] && u[i - 1] == v[i - 1];
    }
    assert v[|v| - 1] == h[|h| - 1] && v[|v| - 2] == h[|h| - 2];
  }

  /** The burst is the longest close suffix of the history. */
  lemma {:induction false} BurstIsLongestCloseSuffix(h: seq<Startup>, k: nat)
    requires k <= |h|
    ensures Close(h[|h| - |Burst(h)|..])
    ensures Close(h[k..]) ==> |h| - k <= |Burst(h)|
  {
    BurstIsSuffix(h);
    if k + 1 < |h| && Close(h[k..]) {
      CloseWithoutLast(h, k);
      BurstIsLongestCloseSuffix(h[..|h| - 1], k);
    }
  }

  function Uids(b: seq<Startup>): set<string> {
    if |b| == 0 then {} else Uids(b[..|b| - 1]) + {b[|b| - 1].uid}
  }

  function Bundles(b: seq<Startup>): seq<string> {
    if |b| == 0 then [] else Bundles(b[..|b| - 1]) + [b[|b| - 1].bundle]
  }

  predicate Continuous(b: seq<Startup>) {
    |b| >= MAX_CONTINUOUS_START_NUM && |Uids(b)| >= MAX_NO_REPEAT_APP_COUNT
  }

  /** The part of a burst up to its recognition: nothing is recorded after that. */
  function Recorded(b: seq<Startup>): seq<Startup> {
    if |b| == 0 then []
    else
      var r := Recorded(b[..|b| - 1]);
      if Continuous(r) then r else r + [b[|b| - 1]]
  }

  /** Recognition comes as soon as the burst deserves it, and stays. */
  lemma {:induction false} RecordedIsEnough(b: seq<Startup>)
    ensures Continuous(Recorded(b)) <==> Continuous(b)
    ensures !Continuous(Recorded(b)) ==> Recorded(b) == b
    ensures |Recorded(b)| <= |b|
  {
    if |b| > 0 {
      var a := b[..|b| - 1];
      RecordedIsEnough(a);
      if Continuous(Recorded(a)) {
        assert Uids(a) <= Uids(b);
        MoreIsMore(Uids(a), Uids(b));
      } else {
        assert a + [b[|b| - 1]] == b;
      }
    }
  }

  lemma MoreIsMore<T>(a: set<T>, b: set<T>)
    requires a <= b
    ensures |a| <= |b|
  {
    assert b == a + (b - a);
  }

  /** The reports a history of startups calls for. */
  function ReportsFor(h: seq<Startup>): seq<bool> {
    if |h| == 0 then []
    else
      var g := h[..|h| - 1];
      var joins := |Burst(h)| > 1;
      ReportsFor(g)
      + (if !joins && Continuous(Burst(g)) then [false] else [])
      + (if Continuous(Burst(h)) && !(joins && Continuous(Burst(g))) then [true] else [])
  }

  /** The state right after the last startup of a history. */
  function SceneFor(h: seq<Startup>): Scene {
    if |h| == 0 then Idle
    else
      var b := Burst(h);
      Scene(|b|, h[|h| - 1].time, Bundles(Recorded(b)), Uids(Recorded(b)), Continuous(b), true, ReportsFor(h))
  }

  // ----- timers make no difference

  /** Time never goes back, and the timer only runs once it is set and due. */
  ghost predicate Legal(es: seq<Event>) {
    if |es| == 0 then true
    else
      var s, e := Run(es[..|es| - 1]), es[|es| - 1];
      && Legal(es[..|es| - 1])
      && match e
        case Start(start) =>
          && start.time >= s.last
          && (|es| > 1 && es[|es| - 2].Timer? ==> start.time >= es[|es| - 2].time)
        case Timer(time) => s.timerSet && time >= s.last + CONTINUOUS_START_TIME_OUT
  }

  /**
   * After any legal run that ends in a startup the state is a function of the startups alone, timer
   * or no timer; a timer only cleans that state up.
   */
  lemma {:induction false} TimersDoNotMatter(es: seq<Event>)
    requires Legal(es)
    ensures Run(es) == if |es| > 0 && es[|es| - 1].Timer? then Clean(SceneFor(Starts(es))) else SceneFor(Starts(es))
  {
    if |es| > 0 {
      var before, e := es[..|es| - 1], es[|es| - 1];
      TimersDoNotMatter(before);
      var h := Starts(before);
      match e
      case Start(start) => RecordExtends(h, start);
      case Timer(_) =>
        assert !(|before| > 0 && before[|before| - 1].Timer?);
        assert h + [] == h;
    }
  }

  lemma RecordExtends(h: seq<Startup>, e: Startup)
    ensures Record(SceneFor(h), e) == SceneFor(h + [e])
    ensures |h| > 0 ==> e.time - h[|h| - 1].time >= CONTINUOUS_START_TIME_OUT ==>
      Record(Clean(SceneFor(h)), e) == SceneFor(h + [e])
  {
    if |h| > 0 && e.time - h[|h| - 1].time < CONTINUOUS_START_TIME_OUT {
      RecordJoins(h, e);
    } else {
      RecordOpens(SceneFor(h), h, e);
    }
  }

  lemma CleanIsIdempotent(s: Scene)
    ensures Clean(Clean(s)) == Clean(s)
  {
    assert Clean(s).reports + [] == Clean(s).reports;
  }

  lemma BurstAlone(h: seq<Startup>, e: Startup)
    requires |h| == 0 || e.time - h[|h| - 1].time >= CONTINUOUS_START_TIME_OUT
    ensures Burst(h + [e]) == [e]
  {
    var g := h + [e];
    assert g[|g| - 1] == e && (|h| > 0 ==> g[|g| - 2] == h[|h| - 1]);
  }

  lemma BurstOfOne(e: Startup)
    ensures Recorded([e]) == [e] && Uids([e]) == {e.uid} && Bundles([e]) == [e.bundle] && !Continuous([e])
  {
    var none: seq<Startup> := [];
    assert [e][..0] == none && Recorded(none) == none && none + [e] == [e];
    assert Bundles(none) == [] && Uids(none) == {};
  }

  lemma RecordOpens(s: Scene, h: seq<Startup>, e: Startup)
    requires s == SceneFor(h)
    requires |h| == 0 || e.time - h[|h| - 1].time >= CONTINUOUS_START_TIME_OUT
    ensures Record(s, e) == SceneFor(h + [e])
    ensures Record(Clean(s), e) == Record(s, e)
  {
    var g, b := h + [e], [e];
    BurstAlone(h, e);
    BurstOfOne(e);
    assert g[..|g| - 1] == h && [] + [e.bundle] == [e.bundle];
    CleanIsIdempotent(s);
    if |h| == 0 {
      assert Clean(s) == s;
    }
    var t := Update(Clean(s), e);
    assert t.pkgs == [e.bundle] && t.uids == {e.uid};
    assert !Recognised(t) && !Continuous(b);
    assert t.reports + [] == t.reports;
    assert ReportsFor(g) == ReportsFor(h) + (if Continuous(Burst(h)) then [false] else []) + [];
    assert |h| == 0 ==> Burst(h) == [];
  }

  lemma RecordJoins(h: seq<Startup>, e: Startup)
    requires |h| > 0 && e.time - h[|h| - 1].time < CONTINUOUS_START_TIME_OUT
    ensures Record(SceneFor(h), e) == SceneFor(h + [e])
  {
    var b := Burst(h);
    JoinedScene(h, e);
    RecordedNext(b, e);
    if Continuous(b) {
      RecordedIsEnough(b + [e]);
    }
    BundlesLength(Recorded(b));
    BundlesLength(Recorded(b + [e]));
  }

  /** What is called for when a startup joins the burst. */
  lemma JoinedScene(h: seq<Startup>, e: Startup)
    requires |h| > 0 && e.time - h[|h| - 1].time < CONTINUOUS_START_TIME_OUT
    ensures var b := Burst(h);
      |b| > 0 && SceneFor(h + [e]) == Scene(|b| + 1, e.time, Bundles(Recorded(b + [e])), Uids(Recorded(b + [e])),
        Continuous(b + [e]), true,
        ReportsFor(h) + if Continuous(b + [e]) && !Continuous(b) then [true] else [])
  {
    var g, b := h + [e], Burst(h);
    assert g[..|g| - 1] == h && g[|g| - 2] == h[|h| - 1];
    assert Burst(g) == b + [e] && |b| > 0;
    assert ReportsFor(h) + [] == ReportsFor(h);
  }

  /** A burst goes on being recorded up to and including the startup that makes it continuous. */
  lemma RecordedNext(b: seq<Startup>, e: Startup)
    ensures Continuous(b) ==> Recorded(b + [e]) == Recorded(b) && Continuous(b + [e])
    ensures !Continuous(b) ==> Recorded(b) == b && Recorded(b + [e]) == b + [e]
    ensures Bundles(b + [e]) == Bundles(b) + [e.bundle] && Uids(b + [e]) == Uids(b) + {e.uid}
  {
    var c := b + [e];
    assert c[..|c| - 1] == b;
    RecordedIsEnough(b);
    RecordedIsEnough(c);
  }

  lemma {:induction false} BundlesLength(b: seq<Startup>)
    ensures |Bundles(b)| == |b|
  {
    if |b| > 0 { BundlesLength(b[..|b| - 1]); }
  }

  // ----- what a caller sees

  /** The flag after a startup: the longest close suffix has five startups of four different apps. */
  lemma {:induction false} FlagMeansContinuous(es: seq<Event>)
    requires Legal(es) && |es| > 0 && es[|es| - 1].Start?
    ensures Run(es).reported <==> Continuous(Burst(Starts(es)))
  {
    TimersDoNotMatter(es);
  }

  ghost function UidsFrom(h: seq<Startup>, k: nat): set<string> {
    set i | k <= i < |h| :: h[i].uid
  }

  /** From the k-th startup on: under 15 seconds between neighbours, at least five startups, and at least four apps. */
  ghost predicate InSuccession(h: seq<Startup>, k: nat) {
    && k + 5 <= |h|
    && (forall i :: k < i < |h| ==> h[i].time - h[i - 1].time < 15000000)
    && |UidsFrom(h, k)| >= 4
  }

  lemma {:induction false} UidsSpelled(b: seq<Startup>)
    ensures Uids(b) == set i | 0 <= i < |b| :: b[i].uid
  {
    if |b| > 0 {
      var a := b[..|b| - 1];
      UidsSpelled(a);
      assert forall i :: 0 <= i < |a| ==> a[i] == b[i];
      assert Uids(b) == Uids(a) + {b[|b| - 1].uid};
    }
  }

  lemma SuffixUids(h: seq<Startup>, k: nat)
    requires k <= |h|
    ensures Uids(h[k..]) == UidsFrom(h, k)
  {
    var b := h[k..];
    UidsSpelled(b);
    forall i | k <= i < |h| ensures h[i].uid in Uids(b) {
      assert b[i - k].uid == h[i].uid;
    }
  }

  lemma SuccessionIsContinuous(h: seq<Startup>, k: nat)
    requires InSuccession(h, k)
    ensures Continuous(Burst(h))
  {
    SuccessionIsClose(h, k);
    var j := InBurst(h, k);
    MoreUids(h, j, k);
  }

  lemma InBurst(h: seq<Startup>, k: nat) returns (j: nat)
    requires k <= |h| && Close(h[k..])
    ensures j <= k && Burst(h) == h[j..]
  {
    BurstIsSuffix(h);
    BurstIsLongestCloseSuffix(h, k);
    j := |h| - |Burst(h)|;
  }

  lemma MoreUids(h: seq<Startup>, j: nat, k: nat)
    requires j <= k <= |h|
    ensures |Uids(h[j..])| >= |UidsFrom(h, k)|
  {
    SuffixUids(h, j);
    MoreIsMore(UidsFrom(h, k), UidsFrom(h, j));
  }

  lemma SuccessionIsClose(h: seq<Startup>, k: nat)
    requires InSuccession(h, k)
    ensures Close(h[k..])
  {
    var b := h[k..];
    forall i | 0 < i < |b| ensures b[i].time - b[i - 1].time < CONTINUOUS_START_TIME_OUT {
      assert b[i] == h[k + i] && b[i - 1] == h[k + i - 1];
    }
  }

  lemma ContinuousIsSuccession(h: seq<Startup>)
    requires Continuous(Burst(h))
    ensures InSuccession(h, |h| - |Burst(h)|)
  {
    var k := |h| - |Burst(h)|;
    BurstIsSuffix(h);
    SuffixUids(h, k);
    CloseFrom(h, k);
  }

  lemma CloseFrom(h: seq<Startup>, k: nat)
    requires k <= |h| && Close(h[k..])
    ensures forall i :: k < i < |h| ==> h[i].time - h[i - 1].time < 15000000
  {
    var b := h[k..];
    forall i | k < i < |h| ensures h[i].time - h[i - 1].time < 15000000 {
      assert b[i - k] == h[i] && b[i - k - 1] == h[i - 1];
    }
  }

  /** The flag is up exactly after a startup that ends such a succession; the timer always takes it down. */
  lemma FlagMeansSuccession(es: seq<Event>)
    requires Legal(es) && |es| > 0
    ensures Run(es).reported <==> es[|es| - 1].Start? && exists k: nat :: InSuccession(Starts(es), k)
  {
    var h := Starts(es);
    if es[|es| - 1].Start? {
      FlagMeansContinuous(es);
      if k: nat :| InSuccession(h, k) {
        SuccessionIsContinuous(h, k);
      }
      if Continuous(Burst(h)) {
        ContinuousIsSuccession(h);
      }
    }
  }

  /** START and STOP alternate, and the flag is the last of them, over any run of events at all. */
  lemma {:induction false} SceneReportsAlternate(es: seq<Event>)
    ensures Alternates(Run(es).reports) && Run(es).reported == LastOn(Run(es).reports)
  {
    if |es| > 0 {
      var s := Run(es[..|es| - 1]);
      SceneReportsAlternate(es[..|es| - 1]);
      CleanAlternates(s);
      match es[|es| - 1]
      case Start(e) =>
        var base := if e.time - s.last >= CONTINUOUS_START_TIME_OUT then Clean(s) else s;
        AlternatesAppend(base.reports, true);
        assert base.reports + [] == base.reports;
      case Timer(_) =>
    }
  }

  lemma CleanAlternates(s: Scene)
    requires Alternates(s.reports) && s.reported == LastOn(s.reports)
    ensures Alternates(Clean(s).reports) && !LastOn(Clean(s).reports)
  {
    AlternatesAppend(s.reports, false);
    assert s.reports + [] == s.reports;
  }

  // ----- the recogniser

  class AppStartupSceneRec {
    var appStartCount: int
    var lastAppStartTime: int
    var isReportContinuousStartup: bool
    var startPkgs: seq<string>
    var startUidSet: set<string>
    var exitTaskSet: bool        // exitContinuousStartupTask is not null
    ghost var reports: seq<bool>

    ghost function View(): Scene
      reads this
    {
      Scene(appStartCount, lastAppStartTime, startPkgs, startUidSet, isReportContinuousStartup, exitTaskSet, reports)
    }

    constructor ()
      ensures View() == Idle
    {
      appStartCount, lastAppStartTime, isReportContinuousStartup := 0, 0, false;
      startPkgs, startUidSet, exitTaskSet, reports := [], {}, false, [];
    }

    method RecordIsContinuousStartup(uid: string, bundleName: string, curTime: int)
      modifies this
      ensures View() == Step(old(View()), Start(Startup(uid, bundleName, curTime)))
    {
      if exitTaskSet {
        exitTaskSet := false;
      }
      if curTime - lastAppStartTime >= CONTINUOUS_START_TIME_OUT {
        CleanRecordSceneData();
      }
      UpdateAppStartupNum(uid, curTime, bundleName);
      var continuous := IsContinuousStartup();
      assert reports + [] == reports;
      if continuous && !isReportContinuousStartup {
        reports := reports + [true];
        isReportContinuousStartup := true;
      }
      exitTaskSet := true;
    }

    /** Also what the exit timer runs. */
    method CleanRecordSceneData()
      modifies this
      ensures View() == Clean(old(View()))
      ensures appStartCount == 0 && startPkgs == [] && startUidSet == {} && !isReportContinuousStartup && !exitTaskSet
      ensures lastAppStartTime == old(lastAppStartTime)
      ensures reports == old(reports) + if old(isReportContinuousStartup) then [false] else []
    {
      appStartCount := 0;
      startPkgs := [];
      startUidSet := {};
      exitTaskSet := false;
      assert reports + [] == reports;
      if isReportContinuousStartup {
        reports := reports + [false];
        isReportContinuousStartup := false;
      }
    }

    method UpdateAppStartupNum(uid: string, curTime: int, bundleName: string)
      modifies this
      ensures View() == Update(old(View()), Startup(uid, bundleName, curTime))
    {
      lastAppStartTime := curTime;
      appStartCount := appStartCount + 1;
      if isReportContinuousStartup {
        return;
      }
      startPkgs := startPkgs + [bundleName];
      startUidSet := startUidSet + {uid};
    }

    method IsContinuousStartup() returns (r: bool)
      ensures r <==> Recognised(View())
    {
      return |startPkgs| >= MAX_CONTINUOUS_START_NUM && |startUidSet| >= MAX_NO_REPEAT_APP_COUNT;
    }
  }
}
