/** The request limiter of the service, specified by the windows of requests it has let through. */
module RateLimiter {
  import opened Basics

  const SINGLE_UID_REQUEST_LIMIT_COUNT := 250
  const ALL_UID_REQUEST_LIMIT_COUNT := 650
  const LIMIT_REQUEST_TIME := 1000

  datatype Request = Request(uid: int, time: int)

  /** The accepted requests of one counting window, oldest first; the first one opened it. */
  type Window = seq<Request>

  function OfUid(uid: int): Request -> bool {
    (r: Request) => r.uid == uid
  }

  /** The moment from which the next request opens a new window. */
  function NextCheck(ws: seq<Window>): int {
    if |ws| == 0 || |ws[|ws| - 1]| == 0 then 0 else ws[|ws| - 1][0].time + LIMIT_REQUEST_TIME
  }

  /** The window a request arriving now is counted in. */
  ghost function CurrentWindow(ws: seq<Window>, now: int): Window {
    if |ws| == 0 || now >= NextCheck(ws) then [] else ws[|ws| - 1]
  }

  /** A request is refused exactly when its window is full, overall or for its uid. */
  ghost predicate Limited(ws: seq<Window>, r: Request) {
    var w := CurrentWindow(ws, r.time);
    |w| >= ALL_UID_REQUEST_LIMIT_COUNT || Count(w, OfUid(r.uid)) >= SINGLE_UID_REQUEST_LIMIT_COUNT
  }

  ghost function Step(ws: seq<Window>, r: Request): seq<Window> {
    if |ws| == 0 || r.time >= NextCheck(ws) then ws + [[r]]
    else if Limited(ws, r) then ws
    else ws[..|ws| - 1] + [ws[|ws| - 1] + [r]]
  }

  /** The windows after a further run of requests. */
  ghost function Feed(ws: seq<Window>, rs: seq<Request>): seq<Window> {
    if |rs| == 0 then ws else Step(Feed(ws, rs[..|rs| - 1]), rs[|rs| - 1])
  }

  ghost function Run(rs: seq<Request>): seq<Window> {
    Feed([], rs)
  }

  /** Every accepted request, in order. */
  function Accepted(ws: seq<Window>): seq<Request> {
    if |ws| == 0 then [] else Accepted(ws[..|ws| - 1]) + ws[|ws| - 1]
  }

  /** The steady clock starts at zero and never goes back. */
  ghost predicate Monotone(rs: seq<Request>) {
    && (forall i :: 0 <= i < |rs| ==> rs[i].time >= 0)
    && (forall i, j :: 0 <= i <= j < |rs| ==> rs[i].time <= rs[j].time)
  }

  // ----- what every run keeps

  ghost predicate GoodWindow(w: Window) {
    && 0 < |w| <= ALL_UID_REQUEST_LIMIT_COUNT
    && (forall u :: Count(w, OfUid(u)) <= SINGLE_UID_REQUEST_LIMIT_COUNT)
    && (forall r :: r in w ==> w[0].time <= r.time < w[0].time + LIMIT_REQUEST_TIME)
  }

  ghost predicate Good(ws: seq<Window>) {
    && (forall i :: 0 <= i < |ws| ==> GoodWindow(ws[i]))
    && (forall i :: 0 < i < |ws| ==> ws[i][0].time >= ws[i - 1][0].time + LIMIT_REQUEST_TIME)
  }

  lemma GoodPrefix(ws: seq<Window>)
    requires Good(ws) && |ws| > 0
    ensures Good(ws[..|ws| - 1])
    ensures |ws| > 1 ==> ws[..|ws| - 1][|ws| - 2][0].time + LIMIT_REQUEST_TIME <= ws[|ws| - 1][0].time
  {
    var older := ws[..|ws| - 1];
    assert forall i :: 0 <= i < |older| ==> older[i] == ws[i];
  }

  lemma GoodExtends(ws: seq<Window>, w: Window)
    requires Good(ws) && GoodWindow(w)
    requires |ws| > 0 ==> ws[|ws| - 1][0].time + LIMIT_REQUEST_TIME <= w[0].time
    ensures Good(ws + [w])
  {
    var longer := ws + [w];
    assert forall i :: 0 <= i < |ws| ==> longer[i] == ws[i];
  }

  /** Windows within their limits, and their openers at least a second apart. */
  lemma {:induction false} RunIsGood(rs: seq<Request>)
    requires Monotone(rs)
    ensures Good(Run(rs))
    ensures |rs| > 0 ==> |Run(rs)| > 0 && Run(rs)[|Run(rs)| - 1][0].time <= rs[|rs| - 1].time
  {
    if |rs| > 0 {
      RunIsGood(rs[..|rs| - 1]);
      StepIsGood(Run(rs[..|rs| - 1]), rs[|rs| - 1]);
    }
  }

  lemma StepIsGood(ws: seq<Window>, r: Request)
    requires Good(ws) && r.time >= 0
    requires |ws| > 0 ==> ws[|ws| - 1][0].time <= r.time
    ensures Good(Step(ws, r))
    ensures |Step(ws, r)| > 0 && Step(ws, r)[|Step(ws, r)| - 1][0].time <= r.time
  {
    if |ws| == 0 || r.time >= NextCheck(ws) {
      assert [] + [r] == [r];
      LongerWindowIsGood([], r);
      GoodExtends(ws, [r]);
    } else if !Limited(ws, r) {
      var last := ws[|ws| - 1];
      LongerWindowIsGood(last, r);
      GoodPrefix(ws);
      GoodExtends(ws[..|ws| - 1], last + [r]);
    }
  }

  lemma LongerWindowIsGood(w: Window, r: Request)
    requires |w| > 0 ==> GoodWindow(w) && w[0].time <= r.time < w[0].time + LIMIT_REQUEST_TIME
    requires |w| < ALL_UID_REQUEST_LIMIT_COUNT && Count(w, OfUid(r.uid)) < SINGLE_UID_REQUEST_LIMIT_COUNT
    ensures GoodWindow(w + [r])
  {
    forall u ensures Count(w + [r], OfUid(u)) <= SINGLE_UID_REQUEST_LIMIT_COUNT {
      assert (w + [r])[..|w|] == w;
      if |w| == 0 { assert Count(w, OfUid(u)) == 0; }
    }
  }

  // ----- the sliding bound

  function Within(t: int): Request -> bool {
    (r: Request) => t <= r.time < t + LIMIT_REQUEST_TIME
  }

  function OfUidWithin(uid: int, t: int): Request -> bool {
    (r: Request) => r.uid == uid && t <= r.time < t + LIMIT_REQUEST_TIME
  }

  /** Windows that were opened a whole second before t have nothing left in [t, t + 1000). */
  lemma {:induction false} OldWindowsAreGone(ws: seq<Window>, t: int)
    requires Good(ws)
    requires |ws| > 0 ==> ws[|ws| - 1][0].time + LIMIT_REQUEST_TIME <= t
    ensures Count(Accepted(ws), Within(t)) == 0
  {
    if |ws| > 0 {
      var last := ws[|ws| - 1];
      OldWindowsAreGone(ws[..|ws| - 1], t);
      CountAppend(Accepted(ws[..|ws| - 1]), last, Within(t));
      CountBounds(last, Within(t));
    }
  }

  /** Any second sees at most 1299 accepted requests, and at most 500 of one uid. */
  lemma {:induction false} SlidingBound(ws: seq<Window>, t: int, uid: int)
    requires Good(ws)
    ensures Count(Accepted(ws), Within(t)) <= 2 * ALL_UID_REQUEST_LIMIT_COUNT - 1
    ensures Count(Accepted(ws), OfUidWithin(uid, t)) <= 2 * SINGLE_UID_REQUEST_LIMIT_COUNT
  {
    if |ws| > 0 {
      var older, last := ws[..|ws| - 1], ws[|ws| - 1];
      CountAppend(Accepted(older), last, Within(t));
      CountAppend(Accepted(older), last, OfUidWithin(uid, t));
      if last[0].time >= t + LIMIT_REQUEST_TIME {
        SlidingBound(older, t, uid);
        CountBounds(last, Within(t));
        CountBounds(last, OfUidWithin(uid, t));
      } else {
        OneWindow(last, t, uid);
        if |older| > 0 {
          OnlyTheLastCounts(older, t, uid);
          OneWindow(older[|older| - 1], t, uid);
        }
      }
    }
  }

  /** When a next window was opened before t + 1000, only the last of those before it reaches into the second. */
  lemma OnlyTheLastCounts(ws: seq<Window>, t: int, uid: int)
    requires Good(ws) && |ws| > 0 && ws[|ws| - 1][0].time < t
    ensures Count(Accepted(ws), Within(t)) == Count(ws[|ws| - 1], Within(t))
    ensures Count(Accepted(ws), OfUidWithin(uid, t)) == Count(ws[|ws| - 1], OfUidWithin(uid, t))
  {
    var older, last := ws[..|ws| - 1], ws[|ws| - 1];
    GoodPrefix(ws);
    CountAppend(Accepted(older), last, Within(t));
    CountAppend(Accepted(older), last, OfUidWithin(uid, t));
    OldWindowsAreGone(older, t);
    CountWeaken(Accepted(older), OfUidWithin(uid, t), Within(t));
  }

  /** One window in one second; a window whose opener is already out of the second misses at least that one. */
  lemma OneWindow(w: Window, t: int, uid: int)
    requires GoodWindow(w)
    ensures Count(w, Within(t)) <= ALL_UID_REQUEST_LIMIT_COUNT - if w[0].time < t then 1 else 0
    ensures Count(w, OfUidWithin(uid, t)) <= SINGLE_UID_REQUEST_LIMIT_COUNT
  {
    CountBounds(w, Within(t));
    CountWeaken(w, OfUidWithin(uid, t), OfUid(uid));
  }

  /** The promise over any run of requests, for any half-open second and any uid. */
  lemma AnySecondIsBounded(rs: seq<Request>, t: int, uid: int)
    requires Monotone(rs)
    ensures Count(Accepted(Run(rs)), Within(t)) <= 1299
    ensures Count(Accepted(Run(rs)), OfUidWithin(uid, t)) <= 500
  {
    RunIsGood(rs);
    SlidingBound(Run(rs), t, uid);
  }

  // ----- no refusal without cause

  /** Accepted less than a second ago. */
  function Recent(now: int): Request -> bool {
    (r: Request) => now - 1000 < r.time <= now
  }

  function OfUidRecent(uid: int, now: int): Request -> bool {
    (r: Request) => r.uid == uid && now - 1000 < r.time <= now
  }

  ghost predicate NotLater(ws: seq<Window>, now: int) {
    forall i :: 0 <= i < |ws| ==> forall r :: r in ws[i] ==> r.time <= now
  }

  lemma StepIsNotLater(ws: seq<Window>, r: Request, now: int)
    requires NotLater(ws, now) && r.time <= now
    ensures NotLater(Step(ws, r), now)
  {
    var next := Step(ws, r);
    forall i, q: Request | 0 <= i < |next| && q in next[i] ensures q.time <= now {
      assert i < |ws| ==> q in ws[i] || q == r;
    }
  }

  lemma {:induction false} AcceptedAreNotLater(rs: seq<Request>, now: int)
    requires forall r :: r in rs ==> r.time <= now
    ensures NotLater(Run(rs), now)
  {
    if |rs| > 0 {
      AcceptedAreNotLater(rs[..|rs| - 1], now);
      StepIsNotLater(Run(rs[..|rs| - 1]), rs[|rs| - 1], now);
    }
  }

  /** A refused request finds 650 others accepted less than a second ago, or 250 of its own uid. */
  lemma RefusalsAreJustified(rs: seq<Request>, r: Request)
    requires Monotone(rs) && r.time >= 0 && forall q :: q in rs ==> q.time <= r.time
    requires Limited(Run(rs), r)
    ensures Count(Accepted(Run(rs)), Recent(r.time)) >= 650
      || Count(Accepted(Run(rs)), OfUidRecent(r.uid, r.time)) >= 250
  {
    var ws := Run(rs);
    RunIsGood(rs);
    AcceptedAreNotLater(rs, r.time);
    var older, w := ws[..|ws| - 1], ws[|ws| - 1];
    assert w == CurrentWindow(ws, r.time) && r.time < w[0].time + LIMIT_REQUEST_TIME;
    CountAppend(Accepted(older), w, Recent(r.time));
    CountAppend(Accepted(older), w, OfUidRecent(r.uid, r.time));
    CountBounds(w, Recent(r.time));
    CountWeaken(w, OfUid(r.uid), OfUidRecent(r.uid, r.time));
  }

  // ----- both bounds are reached

  /** n requests at one moment, from the uids base, base + 1, ... or all from base. */
  function Volley(n: nat, time: int, base: int, spread: bool): seq<Request> {
    if n == 0 then [] else Volley(n - 1, time, base, spread) + [Request(if spread then base + n - 1 else base, time)]
  }

  lemma {:induction false} VolleyShape(n: nat, time: int, base: int, spread: bool)
    ensures |Volley(n, time, base, spread)| == n
    ensures forall r :: r in Volley(n, time, base, spread) ==> r.time == time && base <= r.uid < base + n
    ensures !spread ==> forall r :: r in Volley(n, time, base, spread) ==> r.uid == base
  {
    if n > 0 { VolleyShape(n - 1, time, base, spread); }
  }

  lemma {:induction false} FeedAppend(ws: seq<Window>, a: seq<Request>, b: seq<Request>)
    ensures Feed(ws, a + b) == Feed(Feed(ws, a), b)
  {
    if |b| == 0 {
      assert a + b == a;
    } else {
      FeedAppend(ws, a, b[..|b| - 1]);
      assert (a + b)[..|a + b| - 1] == a + b[..|b| - 1];
    }
  }

  /** A volley that fits the open window, of uids not seen in it, is let through whole. */
  lemma {:induction false} VolleyIsAccepted(older: seq<Window>, w: Window, n: nat, time: int, base: int, spread: bool)
    requires 0 < |w| <= ALL_UID_REQUEST_LIMIT_COUNT - n && time < w[0].time + LIMIT_REQUEST_TIME
    requires forall r :: r in w ==> r.uid < base
    requires !spread ==> n <= SINGLE_UID_REQUEST_LIMIT_COUNT
    ensures Feed(older + [w], Volley(n, time, base, spread)) == older + [w + Volley(n, time, base, spread)]
  {
    if n == 0 {
      assert w + [] == w;
    } else {
      var u := Volley(n - 1, time, base, spread);
      var r := Request(if spread then base + n - 1 else base, time);
      assert Volley(n, time, base, spread) == u + [r];
      VolleyIsAccepted(older, w, n - 1, time, base, spread);
      VolleyShape(n - 1, time, base, spread);
      NextOfVolley(w, u, r, spread);
      AcceptedAfter(older, w, u, r);
    }
  }

  lemma AcceptedAfter(older: seq<Window>, w: Window, u: seq<Request>, r: Request)
    requires 0 < |w| && |w + u| < ALL_UID_REQUEST_LIMIT_COUNT && r.time < w[0].time + LIMIT_REQUEST_TIME
    requires Count(w + u, OfUid(r.uid)) < SINGLE_UID_REQUEST_LIMIT_COUNT
    requires Feed(older + [w], u) == older + [w + u]
    ensures Feed(older + [w], u + [r]) == older + [w + (u + [r])]
  {
    FeedNext(older + [w], u, r);
    AcceptedNext(older, w + u, r);
    assert w + (u + [r]) == (w + u) + [r];
  }

  lemma FeedNext(ws: seq<Window>, rs: seq<Request>, r: Request)
    ensures Feed(ws, rs + [r]) == Step(Feed(ws, rs), r)
  {
    assert (rs + [r])[..|rs + [r]| - 1] == rs;
  }

  lemma AcceptedNext(older: seq<Window>, w: Window, r: Request)
    requires 0 < |w| < ALL_UID_REQUEST_LIMIT_COUNT && r.time < w[0].time + LIMIT_REQUEST_TIME
    requires Count(w, OfUid(r.uid)) < SINGLE_UID_REQUEST_LIMIT_COUNT
    ensures Step(older + [w], r) == older + [w + [r]]
  {
    var ws := older + [w];
    assert ws[..|ws| - 1] == older;
  }

  lemma NextOfVolley(w: Window, u: seq<Request>, r: Request, spread: bool)
    requires forall q :: q in w ==> q.uid != r.uid
    requires if spread then forall q :: q in u ==> q.uid < r.uid else |u| < SINGLE_UID_REQUEST_LIMIT_COUNT
    ensures Count(w + u, OfUid(r.uid)) < SINGLE_UID_REQUEST_LIMIT_COUNT
  {
    CountAppend(w, u, OfUid(r.uid));
    CountBounds(w, OfUid(r.uid));
    CountBounds(u, OfUid(r.uid));
  }

  function Round(time: int, n: nat, at: int, spread: bool): seq<Request> {
    [Request(0, time)] + Volley(n, at, 1, spread)
  }

  /** An opener at 0 and a volley at 999; then, in the next window, an opener and a volley at 1000. */
  function WorstRun(n: nat, spread: bool): seq<Request> {
    Round(0, n, 999, spread) + Round(1000, n, 1000, spread)
  }

  lemma RoundFillsWindow(ws: seq<Window>, time: int, n: nat, at: int, spread: bool)
    requires n < ALL_UID_REQUEST_LIMIT_COUNT && (!spread ==> n <= SINGLE_UID_REQUEST_LIMIT_COUNT)
    requires time >= NextCheck(ws) && at < time + LIMIT_REQUEST_TIME
    ensures Feed(ws, Round(time, n, at, spread)) == ws + [Round(time, n, at, spread)]
  {
    var a := Request(0, time);
    FeedAppend(ws, [a], Volley(n, at, 1, spread));
    assert [a][..0] == [] && Feed(ws, [a]) == Step(ws, a);
    VolleyIsAccepted(ws, [a], n, at, 1, spread);
  }

  lemma RoundCount(time: int, n: nat, at: int, spread: bool, p: Request -> bool)
    requires forall r :: r in Volley(n, at, 1, spread) ==> p(r)
    ensures Count(Round(time, n, at, spread), p) == n + if p(Request(0, time)) then 1 else 0
  {
    VolleyShape(n, at, 1, spread);
    CountAppend([Request(0, time)], Volley(n, at, 1, spread), p);
    CountBounds(Volley(n, at, 1, spread), p);
    CountBounds([Request(0, time)], p);
  }

  /** The worst run, window by window, and how many of its requests satisfy p. */
  lemma WorstRunCount(n: nat, spread: bool, p: Request -> bool)
    requires n < ALL_UID_REQUEST_LIMIT_COUNT && (!spread ==> n <= SINGLE_UID_REQUEST_LIMIT_COUNT)
    requires forall r :: r in Volley(n, 999, 1, spread) || r in Volley(n, 1000, 1, spread) ==> p(r)
    requires !p(Request(0, 0))
    ensures Count(Accepted(Run(WorstRun(n, spread))), p) == 2 * n + if p(Request(0, 1000)) then 1 else 0
  {
    var a, b := Round(0, n, 999, spread), Round(1000, n, 1000, spread);
    VolleyShape(n, 999, 1, spread);
    VolleyShape(n, 1000, 1, spread);
    RoundFillsWindow([], 0, n, 999, spread);
    assert [] + [a] == [a];
    RoundFillsWindow([a], 1000, n, 1000, spread);
    FeedAppend([], a, b);
    assert Run(WorstRun(n, spread)) == [a] + [b];
    AcceptedOfTwo(a, b);
    CountAppend(a, b, p);
    RoundCount(0, n, 999, spread, p);
    RoundCount(1000, n, 1000, spread, p);
  }

  lemma WorstRunIsMonotone(n: nat, spread: bool)
    ensures Monotone(WorstRun(n, spread))
  {
    VolleyShape(n, 999, 1, spread);
    VolleyShape(n, 1000, 1, spread);
    var a, b, rs := Round(0, n, 999, spread), Round(1000, n, 1000, spread), WorstRun(n, spread);
    forall i | 0 <= i < |rs| ensures rs[i].time == if i == 0 then 0 else if i <= n then 999 else 1000 {
      if i == 0 {
      } else if i <= n {
        assert rs[i] == Volley(n, 999, 1, spread)[i - 1];
      } else if i > n + 1 {
        assert rs[i] == Volley(n, 1000, 1, spread)[i - n - 2];
      }
    }
  }

  lemma AcceptedOfTwo(a: Window, b: Window)
    ensures Accepted([a] + [b]) == a + b
  {
    assert ([a] + [b])[..1] == [a] && [a][..0] == [];
    assert Accepted([a]) == [] + a == a;
  }

  /** No smaller bound holds overall: one second can see 1299 accepted requests. */
  lemma OverallBoundIsReached()
    ensures exists rs, t :: Monotone(rs) && Count(Accepted(Run(rs)), Within(t)) == 1299
  {
    VolleyShape(649, 999, 1, true);
    VolleyShape(649, 1000, 1, true);
    WorstRunCount(649, true, Within(999));
    WorstRunIsMonotone(649, true);
    var rs := WorstRun(649, true);
    assert Monotone(rs) && Count(Accepted(Run(rs)), Within(999)) == 1299;
  }

  /** Nor for one uid: one second can see 500 of its requests. */
  lemma UidBoundIsReached()
    ensures exists rs, t, uid :: Monotone(rs) && Count(Accepted(Run(rs)), OfUidWithin(uid, t)) == 500
  {
    VolleyShape(250, 999, 1, false);
    VolleyShape(250, 1000, 1, false);
    WorstRunCount(250, false, OfUidWithin(1, 999));
    WorstRunIsMonotone(250, false);
    var rs := WorstRun(250, false);
    assert Monotone(rs) && Count(Accepted(Run(rs)), OfUidWithin(1, 999)) == 500;
  }
}
