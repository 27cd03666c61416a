/** The request gate of the service: the limiter's counters, and the accounting of what it refuses. */
module ResSchedService {
  import opened Basics
  import opened RateLimiter

  const FOUR_HOUR_TIME := 4 * 60 * 60 * 1000

  // ----- counting refusals

  /** One request with the three clock readings its check takes. */
  datatype Check = Check(uid: int, reportTime: int, limitTime: int, countTime: int)

  datatype Report = Report(time: int, count: int)

  /** The big-data fields, and the fault events written so far. */
  datatype BigData = BigData(reporting: bool, pending: int, due: int, reports: seq<Report>)

  function AfterReport(b: BigData, now: int): BigData {
    if b.reporting && now >= b.due then BigData(false, 0, b.due, b.reports + [Report(now, b.pending)]) else b
  }

  function AfterRefusal(b: BigData, now: int): BigData {
    BigData(true, b.pending + 1, if b.reporting then b.due else now + FOUR_HOUR_TIME, b.reports)
  }

  function Requests(cs: seq<Check>): (rs: seq<Request>)
    ensures |rs| == |cs| && forall i :: 0 <= i < |cs| ==> rs[i] == Request(cs[i].uid, cs[i].limitTime)
  {
    seq(|cs|, i requires 0 <= i < |cs| => Request(cs[i].uid, cs[i].limitTime))
  }

  /** Whether the last check of a run is refused. */
  ghost predicate LastRefused(cs: seq<Check>)
    requires |cs| > 0
  {
    var rs := Requests(cs);
    Limited(Run(rs[..|rs| - 1]), rs[|rs| - 1])
  }

  ghost function Refused(cs: seq<Check>): nat {
    if |cs| == 0 then 0 else Refused(cs[..|cs| - 1]) + if LastRefused(cs) then 1 else 0
  }

  ghost function BigDataAfter(cs: seq<Check>): BigData {
    if |cs| == 0 then BigData(false, 0, 0, [])
    else
      var c := cs[|cs| - 1];
      var b := AfterReport(BigDataAfter(cs[..|cs| - 1]), c.reportTime);
      if LastRefused(cs) then AfterRefusal(b, c.countTime) else b
  }

  function Reported(rs: seq<Report>): int {
    if |rs| == 0 then 0 else Reported(rs[..|rs| - 1]) + rs[|rs| - 1].count
  }

  /** Every clock reading, in the order taken, is at least the one before. */
  ghost predicate ClockRuns(cs: seq<Check>) {
    && (forall i :: 0 <= i < |cs| ==> 0 <= cs[i].reportTime <= cs[i].limitTime <= cs[i].countTime)
    && (forall i, j :: 0 <= i < j < |cs| ==> cs[i].countTime <= cs[j].reportTime)
  }

  ghost predicate FourHoursApart(rs: seq<Report>) {
    forall i :: 0 < i < |rs| ==> rs[i - 1].time + FOUR_HOUR_TIME <= rs[i].time
  }

  ghost predicate Balanced(b: BigData, refused: int) {
    && Reported(b.reports) + b.pending == refused
    && b.pending >= 0 && (b.reporting <==> b.pending > 0)
    && (forall i :: 0 <= i < |b.reports| ==> b.reports[i].count > 0)
  }

  lemma StepIsBalanced(b: BigData, refused: int, now: int)
    requires Balanced(b, refused)
    ensures Balanced(AfterReport(b, now), refused)
    ensures Balanced(AfterRefusal(b, now), refused + 1)
  {
    var next := b.reports + [Report(now, b.pending)];
    assert next[..|next| - 1] == b.reports;
  }

  /** No refusal is lost or counted twice, and the flag is up exactly while some are still unreported. */
  lemma {:induction false} EveryRefusalIsAccountedFor(cs: seq<Check>)
    ensures Balanced(BigDataAfter(cs), Refused(cs))
  {
    if |cs| > 0 {
      var past, c := cs[..|cs| - 1], cs[|cs| - 1];
      EveryRefusalIsAccountedFor(past);
      StepIsBalanced(BigDataAfter(past), Refused(past), c.reportTime);
      StepIsBalanced(AfterReport(BigDataAfter(past), c.reportTime), Refused(past), c.countTime);
    }
  }

  /** Check i of a run is refused, and is the first one not yet in a report: all refusals before it are. */
  ghost predicate FirstUnreported(cs: seq<Check>, i: nat) {
    && i < |cs| && LastRefused(cs[..i + 1])
    && Refused(cs[..i]) == Reported(BigDataAfter(cs).reports)
  }

  lemma {:induction false} RefusedGrows(cs: seq<Check>, i: nat)
    requires i <= |cs|
    ensures Refused(cs[..i]) <= Refused(cs)
  {
    if i == |cs| {
      assert cs[..i] == cs;
    } else {
      assert cs[..|cs| - 1][..i] == cs[..i];
      RefusedGrows(cs[..|cs| - 1], i);
    }
  }

  lemma RefusedBefore(cs: seq<Check>, i: nat)
    requires i < |cs| && LastRefused(cs[..i + 1])
    ensures Refused(cs[..i]) < Refused(cs)
  {
    RefusedGrows(cs, i + 1);
    assert cs[..i + 1][..i] == cs[..i];
  }

  lemma ReportsOnlyGrow(b: BigData, now: int)
    ensures var next := AfterReport(b, now);
      if b.reporting && now >= b.due
      then next.reports == b.reports + [Report(now, b.pending)]
        && Reported(next.reports) == Reported(b.reports) + b.pending
      else next == b
  {
    assert (b.reports + [Report(now, b.pending)])[..|b.reports|] == b.reports;
  }

  /** Pending refusals are due four hours after the first of them. */
  lemma {:induction false} DueAfterFirstUnreported(cs: seq<Check>, i: nat)
    requires FirstUnreported(cs, i)
    ensures BigDataAfter(cs).reporting && BigDataAfter(cs).due == cs[i].countTime + 14400000
  {
    var past, last := cs[..|cs| - 1], cs[|cs| - 1];
    var b := BigDataAfter(past);
    var r := AfterReport(b, last.reportTime);
    EveryRefusalIsAccountedFor(past);
    ReportsOnlyGrow(b, last.reportTime);
    StepIsBalanced(b, Refused(past), last.reportTime);
    assert BigDataAfter(cs).reports == r.reports;
    if i == |past| {
      assert cs[..i] == past && cs[..i + 1] == cs;
      assert r.pending == 0 && !r.reporting;
    } else {
      assert past[..i] == cs[..i] && past[..i + 1] == cs[..i + 1] && past[i] == cs[i];
      RefusedBefore(past, i);
      assert r == b;
      DueAfterFirstUnreported(past, i);
    }
  }

  /** One report, of this reading and count, and nothing pending but an own refusal, when due; otherwise no report. */
  predicate ReportedWhenDue(b: BigData, next: BigData, now: int, due: int, count: int, own: int) {
    if now >= due then next.reports == b.reports + [Report(now, count)] && next.pending == own
    else next.reports == b.reports && next.pending == count + own
  }

  lemma DueStep(b: BigData, next: BigData, c: Check, due: int, count: int, own: int)
    requires b.reporting && b.due == due && b.pending == count
    requires own == 0 || own == 1
    requires var r := AfterReport(b, c.reportTime); next == if own == 1 then AfterRefusal(r, c.countTime) else r
    ensures ReportedWhenDue(b, next, c.reportTime, due, count, own)
  {
  }

  /**
   * The first check whose report reading comes four hours after the first unreported refusal writes one report, of that
   * reading and of all refusals since the last report, and only its own refusal is pending then; no other check
   * writes any.
   */
  lemma {:induction false} DueReportIsWritten(past: seq<Check>, c: Check, i: nat)
    requires FirstUnreported(past, i)
    ensures var b := BigDataAfter(past);
      ReportedWhenDue(b, BigDataAfter(past + [c]), c.reportTime, past[i].countTime + 14400000,
                      Refused(past) - Reported(b.reports), if LastRefused(past + [c]) then 1 else 0)
  {
    var b, refused := BigDataAfter(past), LastRefused(past + [c]);
    DueAfterFirstUnreported(past, i);
    PendingCount(past);
    BigDataNext(past, c);
    DueStep(b, BigDataAfter(past + [c]), c, past[i].countTime + 14400000,
            Refused(past) - Reported(b.reports), if refused then 1 else 0);
  }

  lemma PendingCount(cs: seq<Check>)
    ensures BigDataAfter(cs).pending == Refused(cs) - Reported(BigDataAfter(cs).reports)
  {
    EveryRefusalIsAccountedFor(cs);
  }

  lemma BigDataNext(past: seq<Check>, c: Check)
    ensures var b := AfterReport(BigDataAfter(past), c.reportTime);
      BigDataAfter(past + [c]) == if LastRefused(past + [c]) then AfterRefusal(b, c.countTime) else b
  {
    OneMoreCheck(past, c);
  }

  /** With all refusals reported there is nothing to report. */
  lemma {:induction false} NothingIsReportedTwice(past: seq<Check>, c: Check)
    requires Refused(past) == Reported(BigDataAfter(past).reports)
    ensures BigDataAfter(past + [c]).reports == BigDataAfter(past).reports
    ensures BigDataAfter(past + [c]).pending == if LastRefused(past + [c]) then 1 else 0
  {
    EveryRefusalIsAccountedFor(past);
    OneMoreCheck(past, c);
  }

  /** Otherwise some refusal is the first unreported one, so that one of the two laws speaks of every check. */
  lemma {:induction false} SomeIsFirstUnreported(cs: seq<Check>) returns (i: nat)
    requires Refused(cs) != Reported(BigDataAfter(cs).reports)
    ensures FirstUnreported(cs, i)
  {
    EveryRefusalIsAccountedFor(cs);
    ReportedIsPositive(BigDataAfter(cs).reports);
    i := RefusalNumber(cs, Reported(BigDataAfter(cs).reports));
  }

  lemma {:induction false} ReportedIsPositive(rs: seq<Report>)
    requires forall i :: 0 <= i < |rs| ==> rs[i].count > 0
    ensures Reported(rs) >= 0
  {
    if |rs| > 0 { ReportedIsPositive(rs[..|rs| - 1]); }
  }

  lemma {:induction false} RefusalNumber(cs: seq<Check>, n: int) returns (i: nat)
    requires 0 <= n < Refused(cs)
    ensures i < |cs| && LastRefused(cs[..i + 1]) && Refused(cs[..i]) == n
  {
    var past := cs[..|cs| - 1];
    if n < Refused(past) {
      i := RefusalNumber(past, n);
      assert past[..i] == cs[..i] && past[..i + 1] == cs[..i + 1];
    } else {
      i := |past|;
      assert cs[..i + 1] == cs;
    }
  }

  /** Two fault events are never less than four hours apart. */
  lemma {:induction false} ReportsAreRare(cs: seq<Check>)
    requires ClockRuns(cs)
    ensures FourHoursApart(BigDataAfter(cs).reports)
    ensures Spaced(BigDataAfter(cs), if |cs| > 0 then cs[|cs| - 1].countTime else 0)
  {
    if |cs| > 0 {
      var past, c := cs[..|cs| - 1], cs[|cs| - 1];
      ReportsAreRare(past);
      var b := AfterReport(BigDataAfter(past), c.reportTime);
      assert |past| > 0 ==> past[|past| - 1] == cs[|past| - 1];
      ReportIsSpaced(BigDataAfter(past), if |past| > 0 then past[|past| - 1].countTime else 0, c.reportTime);
      assert Spaced(b, c.countTime) && Spaced(AfterRefusal(b, c.countTime), c.countTime);
    }
  }

  /** By now the last report is past, and while refusals are pending the next one is due four hours after it. */
  ghost predicate Spaced(b: BigData, now: int) {
    && now >= 0
    && (|b.reports| > 0 ==> b.reports[|b.reports| - 1].time <= now)
    && (|b.reports| > 0 && b.reporting ==> b.reports[|b.reports| - 1].time + FOUR_HOUR_TIME <= b.due)
  }

  lemma ReportIsSpaced(b: BigData, before: int, now: int)
    requires FourHoursApart(b.reports) && Spaced(b, before) && before <= now
    ensures FourHoursApart(AfterReport(b, now).reports) && Spaced(AfterReport(b, now), now)
  {
  }

  // ----- the sum of a counter map

  ghost function Total(m: map<int, int>): int {
    if exists k :: k in m then
      var k :| k in m;
      m[k] + Total(m - {k})
    else 0
  }

  lemma {:induction false} TotalWithout(m: map<int, int>, k: int)
    requires k in m
    ensures Total(m) == m[k] + Total(m - {k})
    decreases |m|
  {
    var j :| j in m && Total(m) == m[j] + Total(m - {j});
    if j != k {
      TotalWithout(m - {j}, k);
      TotalWithout(m - {k}, j);
      assert m - {j} - {k} == m - {k} - {j};
    }
  }

  lemma TotalUpdate(m: map<int, int>, k: int, v: int)
    ensures Total(m[k := v]) == Total(m) + v - if k in m then m[k] else 0
  {
    TotalWithout(m[k := v], k);
    if k in m {
      TotalWithout(m, k);
      assert m[k := v] - {k} == m - {k};
    } else {
      assert m[k := v] - {k} == m;
    }
  }

  /** One counter per uid seen in w, and their sum, which is the size of w. */
  ghost predicate Counters(m: map<int, int>, all: int, w: Window) {
    && (forall u :: u in m <==> Count(w, OfUid(u)) > 0)
    && (forall u :: u in m ==> m[u] == Count(w, OfUid(u)))
    && Total(m) == all == |w|
  }

  lemma CountOneMore(m: map<int, int>, all: int, w: Window, r: Request)
    requires Counters(m, all, w)
    ensures Counters(m[r.uid := if r.uid in m then m[r.uid] + 1 else 1], all + 1, w + [r])
  {
    TotalUpdate(m, r.uid, if r.uid in m then m[r.uid] + 1 else 1);
    forall u ensures Count(w + [r], OfUid(u)) == Count(w, OfUid(u)) + if u == r.uid then 1 else 0 {
      assert (w + [r])[..|w|] == w;
    }
  }

  lemma NoCounters()
    ensures Counters(map[], 0, [])
  {
  }

  /** A fresh window refuses nothing; otherwise a refusal leaves the windows alone. */
  lemma LimitedByCounters(ws: seq<Window>, r: Request)
    ensures Limited(ws, r) ==> Step(ws, r) == ws && CurrentWindow(ws, r.time) != []
  {
  }

  lemma StepExtends(ws: seq<Window>, r: Request)
    requires !Limited(ws, r) && r.time >= 0
    requires |ws| > 0 ==> |ws[|ws| - 1]| > 0
    ensures var next := Step(ws, r);
      |next| > 0 && next[|next| - 1] == CurrentWindow(ws, r.time) + [r]
      && NextCheck(next) == if |ws| == 0 || r.time >= NextCheck(ws) then r.time + LIMIT_REQUEST_TIME else NextCheck(ws)
  {
    assert [] + [r] == [r];
  }

  /** A run of checks and one more. */
  lemma OneMoreCheck(past: seq<Check>, c: Check)
    ensures var r := Request(c.uid, c.limitTime);
      && Run(Requests(past + [c])) == Step(Run(Requests(past)), r)
      && (LastRefused(past + [c]) <==> Limited(Run(Requests(past)), r))
    ensures var b := AfterReport(BigDataAfter(past), c.reportTime);
      BigDataAfter(past + [c]) == if LastRefused(past + [c]) then AfterRefusal(b, c.countTime) else b
  {
    var r := Request(c.uid, c.limitTime);
    var rs := Requests(past + [c]);
    assert (past + [c])[..|past + [c]| - 1] == past;
    assert rs == Requests(past) + [r] && rs[..|rs| - 1] == Requests(past);
    FeedNext([], Requests(past), r);
  }

  class RequestGate {
    var appRequestCountMap: map<int, int>
    var allRequestCount: int
    var nextCheckTime: int
    var isReportBigData: bool
    var bigDataReportCount: int
    var nextReportBigDataTime: int
    ghost var windows: seq<Window>   // what has been let through, by counting window
    ghost var reports: seq<Report>   // the SERVICE_REQUEST_LIMIT events written

    ghost function OpenWindow(): Window
      reads this`windows
    {
      if |windows| == 0 then [] else windows[|windows| - 1]
    }

    /** The counters are those of the open window. */
    ghost predicate Valid()
      reads this
    {
      && Counters(appRequestCountMap, allRequestCount, OpenWindow())
      && nextCheckTime == NextCheck(windows)
      && (|windows| > 0 ==> |OpenWindow()| > 0)
    }

    ghost function Accounts(): BigData
      reads this
    {
      BigData(isReportBigData, bigDataReportCount, nextReportBigDataTime, reports)
    }

    constructor ()
      ensures Valid() && windows == [] && Accounts() == BigData(false, 0, 0, [])
    {
      appRequestCountMap, allRequestCount, nextCheckTime := map[], 0, 0;
      isReportBigData, bigDataReportCount, nextReportBigDataTime := false, 0, 0;
      windows, reports := [], [];
    }

    /** A new window starts with both counters cleared; its first request is not yet counted. */
    method CheckAndUpdateLimitData(now: int)
      modifies this`nextCheckTime, this`appRequestCountMap, this`allRequestCount
      ensures if now >= old(nextCheckTime)
        then nextCheckTime == now + LIMIT_REQUEST_TIME && appRequestCountMap == map[] && allRequestCount == 0
        else unchanged(this)
    {
      if now - nextCheckTime >= 0 {
        nextCheckTime := now + LIMIT_REQUEST_TIME;
        appRequestCountMap := map[];
        allRequestCount := 0;
      }
    }

    method IsLimitRequest(uid: int, now: int) returns (limited: bool)
      requires Valid() && now >= 0
      modifies this`nextCheckTime, this`appRequestCountMap, this`allRequestCount, this`windows
      ensures Valid()
      ensures limited <==> Limited(old(windows), Request(uid, now))
      ensures windows == Step(old(windows), Request(uid, now))
    {
      ghost var r := Request(uid, now);
      ghost var w := CurrentWindow(windows, now);
      LimitedByCounters(windows, r);
      CheckAndUpdateLimitData(now);
      assert Counters(appRequestCountMap, allRequestCount, w) by {
        NoCounters();
      }
      if allRequestCount >= ALL_UID_REQUEST_LIMIT_COUNT {
        return true;
      }
      if uid !in appRequestCountMap {
        Admit(uid, 1, r, w);
        return false;
      }
      if appRequestCountMap[uid] >= SINGLE_UID_REQUEST_LIMIT_COUNT {
        return true;
      }
      Admit(uid, appRequestCountMap[uid] + 1, r, w);
      return false;
    }

    /** Count an admitted request, which joins its window. */
    method Admit(uid: int, count: int, ghost r: Request, ghost w: Window)
      requires r.uid == uid && count == if uid in appRequestCountMap then appRequestCountMap[uid] + 1 else 1
      requires w == CurrentWindow(windows, r.time) && Counters(appRequestCountMap, allRequestCount, w)
      requires !Limited(windows, r) && r.time >= 0
      requires |windows| > 0 ==> |OpenWindow()| > 0
      requires nextCheckTime == if |windows| == 0 || r.time >= NextCheck(windows) then r.time + LIMIT_REQUEST_TIME
        else NextCheck(windows)
      modifies this`appRequestCountMap, this`allRequestCount, this`windows
      ensures Valid() && windows == Step(old(windows), r)
    {
      CountOneMore(appRequestCountMap, allRequestCount, w, r);
      StepExtends(windows, r);
      appRequestCountMap := appRequestCountMap[uid := count];
      allRequestCount := allRequestCount + 1;
      windows := Step(windows, r);
    }

    method ReportBigData(now: int)
      modifies this`isReportBigData, this`bigDataReportCount, this`reports
      ensures Accounts() == AfterReport(old(Accounts()), now)
    {
      if !isReportBigData {
        return;
      }
      if now < nextReportBigDataTime {
        return;
      }
      reports := reports + [Report(now, bigDataReportCount)];
      isReportBigData := false;
      bigDataReportCount := 0;
    }

    method IncreaseBigDataCount(now: int)
      modifies this`isReportBigData, this`bigDataReportCount, this`nextReportBigDataTime
      ensures Accounts() == AfterRefusal(old(Accounts()), now)
    {
      if !isReportBigData {
        isReportBigData := true;
        nextReportBigDataTime := now + FOUR_HOUR_TIME;
      }
      bigDataReportCount := bigDataReportCount + 1;
    }

    /** The gate in front of every remote report; the ghost argument is the run of checks so far. */
    method RemoteRequestCheck(c: Check, ghost past: seq<Check>) returns (refused: bool)
      requires Valid() && c.limitTime >= 0
      requires windows == Run(Requests(past)) && Accounts() == BigDataAfter(past)
      modifies this
      ensures Valid()
      ensures windows == Run(Requests(past + [c])) && Accounts() == BigDataAfter(past + [c])
      ensures refused <==> LastRefused(past + [c])
    {
      OneMoreCheck(past, c);
      ReportBigData(c.reportTime);
      refused := IsLimitRequest(c.uid, c.limitTime);
      if refused {
        IncreaseBigDataCount(c.countTime);
      }
    }
  }
}
