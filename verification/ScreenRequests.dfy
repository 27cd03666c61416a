/** Screen and performance-mode requests, under late screen-off tasks. */
module ScreenRequests {
  import opened Basics

  const SCREEN_OFF := 0
  const SCREEN_ON := 1
  const WAKE_UP_TIMEOUT := 0
  const WAKE_UP_START := 1
  const NORMAL_MODE := 600
  const PERFORMANCE_MODE := 602
  const POWER_MODE_MIN := 600
  const POWER_MODE_MAX := 603

  datatype Command = ScreenOn | ScreenOff | ScreenOnPerf | ScreenOffPerf

  /** One PerfRequestEx call. */
  datatype Request = Request(cmd: Command, on: bool)

  /** The screen status and performance mode, and all requests sent so far. */
  datatype Screen = Screen(status: int, mode: int, sent: seq<Request>)

  /** OffTask is a delayed screen-off task at last getting to run. */
  datatype Event = Status(value: int) | WakeUp(value: int) | Mode(value: int) | OffTask

  const Boot := Screen(SCREEN_ON, NORMAL_MODE, [])

  function SwitchTo(off: Command, on: Command): seq<Request> {
    [Request(off, false), Request(on, true)]
  }

  function TurnOn(s: Screen): Screen {
    s.(sent := s.sent + SwitchTo(ScreenOff, ScreenOn)
       + if s.mode == PERFORMANCE_MODE then SwitchTo(ScreenOffPerf, ScreenOnPerf) else [])
  }

  function TurnOff(s: Screen): Screen {
    if s.status != SCREEN_OFF then s
    else s.(sent := s.sent + SwitchTo(ScreenOn, ScreenOff)
            + if s.mode == PERFORMANCE_MODE then SwitchTo(ScreenOnPerf, ScreenOffPerf) else [])
  }

  /** What a change of mode sends: the performance pair follows the screen, or is given up for the plain pair. */
  function ModeRequests(mode: int, status: int): seq<Request> {
    if mode == PERFORMANCE_MODE then
      if status == SCREEN_ON then SwitchTo(ScreenOffPerf, ScreenOnPerf)
      else if status == SCREEN_OFF then SwitchTo(ScreenOnPerf, ScreenOffPerf)
      else []
    else
      [Request(ScreenOnPerf, false), Request(ScreenOffPerf, false)] +
      if status == SCREEN_ON then SwitchTo(ScreenOff, ScreenOn)
      else if status == SCREEN_OFF then SwitchTo(ScreenOn, ScreenOff)
      else []
  }

  function Step(s: Screen, e: Event): Screen {
    match e
    case Status(value) => s.(status := value)
    case WakeUp(value) =>
      if value == WAKE_UP_START then TurnOn(s) else if value == WAKE_UP_TIMEOUT then TurnOff(s) else s
    case Mode(value) =>
      if POWER_MODE_MIN <= value <= POWER_MODE_MAX then
        s.(mode := value, sent := s.sent + ModeRequests(value, s.status))
      else s
    case OffTask => TurnOff(s)
  }

  function Run(es: seq<Event>): Screen {
    if |es| == 0 then Boot else Step(Run(es[..|es| - 1]), es[|es| - 1])
  }

  /** Whether a command's last request turned it on. */
  predicate On(sent: seq<Request>, c: Command) {
    if |sent| == 0 then false
    else if sent[|sent| - 1].cmd == c then sent[|sent| - 1].on
    else On(sent[..|sent| - 1], c)
  }

  ghost predicate Exclusive(sent: seq<Request>) {
    && !(On(sent, ScreenOn) && On(sent, ScreenOff))
    && !(On(sent, ScreenOnPerf) && On(sent, ScreenOffPerf))
  }

  /** At no moment, not even inside a handler, are both requests of a pair on. */
  ghost predicate AlwaysExclusive(sent: seq<Request>) {
    forall n :: 0 <= n <= |sent| ==> Exclusive(sent[..n])
  }

  predicate IsPerf(c: Command) {
    c.ScreenOnPerf? || c.ScreenOffPerf?
  }

  lemma OnNext(sent: seq<Request>, r: Request)
    ensures forall c :: On(sent + [r], c) == if c == r.cmd then r.on else On(sent, c)
  {
    assert (sent + [r])[..|sent + [r]| - 1] == sent;
  }

  lemma ExclusiveNext(sent: seq<Request>, r: Request)
    requires AlwaysExclusive(sent) && Exclusive(sent + [r])
    ensures AlwaysExclusive(sent + [r])
  {
    var t := sent + [r];
    forall n | 0 <= n <= |t| ensures Exclusive(t[..n]) {
      if n <= |sent| {
        assert t[..n] == sent[..n];
      } else {
        assert t[..n] == t;
      }
    }
  }

  /** Turning one off before the other on never lets both be on. */
  lemma SwitchIsSafe(sent: seq<Request>, off: Command, on: Command)
    requires AlwaysExclusive(sent) && off != on && IsPerf(off) == IsPerf(on)
    ensures AlwaysExclusive(sent + SwitchTo(off, on))
    ensures forall c :: On(sent + SwitchTo(off, on), c) == (c == on || (c != off && On(sent, c)))
  {
    var first := sent + [Request(off, false)];
    assert sent[..|sent|] == sent;
    OnNext(sent, Request(off, false));
    ExclusiveNext(sent, Request(off, false));
    OnNext(first, Request(on, true));
    ExclusiveNext(first, Request(on, true));
    assert first + [Request(on, true)] == sent + SwitchTo(off, on);
  }

  /** What every state keeps; with only proper statuses seen, performance mode also has exactly one request on. */
  ghost predicate Good(s: Screen, proper: bool) {
    && AlwaysExclusive(s.sent)
    && (s.mode != PERFORMANCE_MODE ==> !On(s.sent, ScreenOnPerf) && !On(s.sent, ScreenOffPerf))
    && (proper ==> s.status == SCREEN_ON || s.status == SCREEN_OFF)
    && (proper && s.mode == PERFORMANCE_MODE ==> On(s.sent, ScreenOnPerf) || On(s.sent, ScreenOffPerf))
  }

  lemma PairsAreSafe(s: Screen, off: Command, on: Command, proper: bool, offPerf: Command, onPerf: Command)
    requires Good(s, proper)
    requires {off, on} == {ScreenOn, ScreenOff} && {offPerf, onPerf} == {ScreenOnPerf, ScreenOffPerf}
    ensures Good(s.(sent := s.sent + SwitchTo(off, on)
      + if s.mode == PERFORMANCE_MODE then SwitchTo(offPerf, onPerf) else []), proper)
  {
    SwitchIsSafe(s.sent, off, on);
    if s.mode == PERFORMANCE_MODE {
      SwitchIsSafe(s.sent + SwitchTo(off, on), offPerf, onPerf);
    } else {
      assert s.sent + SwitchTo(off, on) + [] == s.sent + SwitchTo(off, on);
    }
  }

  lemma ModeIsSafe(s: Screen, mode: int, proper: bool)
    requires Good(s, proper)
    ensures Good(s.(mode := mode, sent := s.sent + ModeRequests(mode, s.status)), proper)
  {
    if mode == PERFORMANCE_MODE {
      SwitchIsSafe(s.sent, ScreenOffPerf, ScreenOnPerf);
      SwitchIsSafe(s.sent, ScreenOnPerf, ScreenOffPerf);
      assert s.sent + [] == s.sent;
      assert s.status != SCREEN_ON && s.status != SCREEN_OFF ==> !proper;
    } else {
      var r1, r2 := Request(ScreenOnPerf, false), Request(ScreenOffPerf, false);
      assert s.sent[..|s.sent|] == s.sent;
      OnNext(s.sent, r1);
      ExclusiveNext(s.sent, r1);
      OnNext(s.sent + [r1], r2);
      ExclusiveNext(s.sent + [r1], r2);
      var given := s.sent + [r1] + [r2];
      SwitchIsSafe(given, ScreenOff, ScreenOn);
      SwitchIsSafe(given, ScreenOn, ScreenOff);
      if s.status == SCREEN_ON {
        assert s.sent + ModeRequests(mode, s.status) == given + SwitchTo(ScreenOff, ScreenOn);
      } else if s.status == SCREEN_OFF {
        assert s.sent + ModeRequests(mode, s.status) == given + SwitchTo(ScreenOn, ScreenOff);
      } else {
        assert s.sent + ModeRequests(mode, s.status) == given;
      }
    }
  }

  /**
   * Over any run, however late the screen-off tasks run: neither pair ever has both requests on, no
   * performance request stays on outside performance mode, and inside it exactly one is on as long as
   * only the two proper screen statuses have been reported.
   */
  lemma {:induction false} RequestsStayExclusive(es: seq<Event>)
    ensures var proper := forall e :: e in es && e.Status? ==> e.value == SCREEN_ON || e.value == SCREEN_OFF;
      Good(Run(es), proper)
  {
    if |es| > 0 {
      var before, e := es[..|es| - 1], es[|es| - 1];
      var proper := forall e :: e in es && e.Status? ==> e.value == SCREEN_ON || e.value == SCREEN_OFF;
      RequestsStayExclusive(before);
      assert e in es && forall e :: e in before ==> e in es;
      StepIsGood(Run(before), e, proper);
    }
  }

  lemma StepIsGood(s: Screen, e: Event, proper: bool)
    requires Good(s, proper)
    requires proper && e.Status? ==> e.value == SCREEN_ON || e.value == SCREEN_OFF
    ensures Good(Step(s, e), proper)
  {
    PairsAreSafe(s, ScreenOff, ScreenOn, proper, ScreenOffPerf, ScreenOnPerf);
    PairsAreSafe(s, ScreenOn, ScreenOff, proper, ScreenOnPerf, ScreenOffPerf);
    if e.Mode? {
      ModeIsSafe(s, e.value, proper);
    }
  }

  // ----- what is on

  /** The status reported last; on before any report. */
  function ReportedStatus(es: seq<Event>): int {
    if |es| == 0 then 1
    else match es[|es| - 1]
      case Status(value) => value
      case _ => ReportedStatus(es[..|es| - 1])
  }

  /** The last mode change in range; normal before any. */
  function ReportedMode(es: seq<Event>): int {
    if |es| == 0 then 600
    else match es[|es| - 1]
      case Mode(value) => if 600 <= value <= 603 then value else ReportedMode(es[..|es| - 1])
      case _ => ReportedMode(es[..|es| - 1])
  }

  lemma {:induction false} StateIsWhatWasReported(es: seq<Event>)
    ensures Run(es).status == ReportedStatus(es) && Run(es).mode == ReportedMode(es)
  {
    if |es| > 0 {
      StateIsWhatWasReported(es[..|es| - 1]);
    }
  }

  /** Of two requests of a pair, the first is on and the second off. */
  predicate Shows(sent: seq<Request>, on: Command, off: Command) {
    On(sent, on) && !On(sent, off)
  }

  lemma TwoSwitches(sent: seq<Request>, off: Command, on: Command, offPerf: Command, onPerf: Command)
    requires off != on && offPerf != onPerf && !IsPerf(off) && !IsPerf(on) && IsPerf(offPerf) && IsPerf(onPerf)
    ensures Shows(sent + SwitchTo(off, on), on, off)
    ensures forall c :: IsPerf(c) ==> On(sent + SwitchTo(off, on), c) == On(sent, c)
    ensures Shows(sent + SwitchTo(off, on) + SwitchTo(offPerf, onPerf), on, off)
    ensures Shows(sent + SwitchTo(off, on) + SwitchTo(offPerf, onPerf), onPerf, offPerf)
  {
    SwitchShows(sent, off, on);
    SwitchShows(sent + SwitchTo(off, on), offPerf, onPerf);
  }

  lemma SwitchShows(sent: seq<Request>, off: Command, on: Command)
    requires off != on
    ensures forall c :: On(sent + SwitchTo(off, on), c) == (c == on || (c != off && On(sent, c)))
  {
    OnNext(sent, Request(off, false));
    OnNext(sent + [Request(off, false)], Request(on, true));
    assert sent + [Request(off, false)] + [Request(on, true)] == sent + SwitchTo(off, on);
  }

  /**
   * Over every run: a wake-up shows the screen on, a time-out or a late task with the screen reported off shows it off,
   * each with the performance pair following in performance mode.
   */
  lemma {:induction false} ScreenIsShown(es: seq<Event>, e: Event)
    ensures var sent, status, mode := Run(es + [e]).sent, ReportedStatus(es), ReportedMode(es);
      && (e == WakeUp(1) ==>
        Shows(sent, ScreenOn, ScreenOff) && (mode == 602 ==> Shows(sent, ScreenOnPerf, ScreenOffPerf)))
      && ((e == WakeUp(0) || e == OffTask) && status == 0 ==>
        Shows(sent, ScreenOff, ScreenOn) && (mode == 602 ==> Shows(sent, ScreenOffPerf, ScreenOnPerf)))
      && ((e == WakeUp(0) || e == OffTask) && status != 0 ==> sent == Run(es).sent)
  {
    var s := Run(es);
    assert (es + [e])[..|es + [e]| - 1] == es;
    StateIsWhatWasReported(es);
    TwoSwitches(s.sent, ScreenOff, ScreenOn, ScreenOffPerf, ScreenOnPerf);
    TwoSwitches(s.sent, ScreenOn, ScreenOff, ScreenOnPerf, ScreenOffPerf);
    assert s.sent + SwitchTo(ScreenOff, ScreenOn) + [] == s.sent + SwitchTo(ScreenOff, ScreenOn);
    assert s.sent + SwitchTo(ScreenOn, ScreenOff) + [] == s.sent + SwitchTo(ScreenOn, ScreenOff);
    assert s.sent + (SwitchTo(ScreenOff, ScreenOn) + SwitchTo(ScreenOffPerf, ScreenOnPerf))
      == s.sent + SwitchTo(ScreenOff, ScreenOn) + SwitchTo(ScreenOffPerf, ScreenOnPerf);
    assert s.sent + (SwitchTo(ScreenOn, ScreenOff) + SwitchTo(ScreenOnPerf, ScreenOffPerf))
      == s.sent + SwitchTo(ScreenOn, ScreenOff) + SwitchTo(ScreenOnPerf, ScreenOffPerf);
  }

  /**
   * Over every run, after a change of mode in range: in performance mode the performance pair shows the status; in any
   * other the performance pair is off and the plain pair shows the status. Other events send nothing.
   */
  lemma {:induction false} ModeIsShown(es: seq<Event>, e: Event)
    ensures var sent, status := Run(es + [e]).sent, ReportedStatus(es);
      if e.Mode? && 600 <= e.value <= 603 then
        if e.value == 602 then
          && (status == 1 ==> Shows(sent, ScreenOnPerf, ScreenOffPerf))
          && (status == 0 ==> Shows(sent, ScreenOffPerf, ScreenOnPerf))
        else
          && !On(sent, ScreenOnPerf) && !On(sent, ScreenOffPerf)
          && (status == 1 ==> Shows(sent, ScreenOn, ScreenOff)) && (status == 0 ==> Shows(sent, ScreenOff, ScreenOn))
      else e.OffTask? || e == WakeUp(0) || e == WakeUp(1) || sent == Run(es).sent
  {
    var s := Run(es);
    assert (es + [e])[..|es + [e]| - 1] == es;
    StateIsWhatWasReported(es);
    if e.Mode? && 600 <= e.value <= 603 {
      if e.value == 602 {
        SwitchShows(s.sent, ScreenOffPerf, ScreenOnPerf);
        SwitchShows(s.sent, ScreenOnPerf, ScreenOffPerf);
      } else {
        PlainModeShows(s.sent, s.status);
      }
    }
  }

  lemma PlainModeShows(sent: seq<Request>, status: int)
    ensures var after := sent + ModeRequests(600, status);
      && !On(after, ScreenOnPerf) && !On(after, ScreenOffPerf)
      && (status == 1 ==> Shows(after, ScreenOn, ScreenOff)) && (status == 0 ==> Shows(after, ScreenOff, ScreenOn))
  {
    var r1, r2 := Request(ScreenOnPerf, false), Request(ScreenOffPerf, false);
    OnNext(sent, r1);
    OnNext(sent + [r1], r2);
    var given := sent + [r1] + [r2];
    SwitchShows(given, ScreenOff, ScreenOn);
    SwitchShows(given, ScreenOn, ScreenOff);
    assert sent + [r1, r2] == given && sent + ([r1, r2] + []) == given;
    assert sent + ([r1, r2] + SwitchTo(ScreenOff, ScreenOn)) == given + SwitchTo(ScreenOff, ScreenOn);
    assert sent + ([r1, r2] + SwitchTo(ScreenOn, ScreenOff)) == given + SwitchTo(ScreenOn, ScreenOff);
  }

  class ScreenHandler {
    var screenStatus: int
    var performanceMode: int
    var offTasks: nat              // screen-off tasks submitted and not yet run
    var wakeUpTaskSet: bool        // wakeUpTimeOutTask_ is not null
    ghost var sent: seq<Request>

    ghost function View(): Screen
      reads this
    {
      Screen(screenStatus, performanceMode, sent)
    }

    constructor ()
      ensures View() == Boot && offTasks == 0 && !wakeUpTaskSet
    {
      screenStatus, performanceMode, offTasks, wakeUpTaskSet, sent := SCREEN_ON, NORMAL_MODE, 0, false, [];
    }

    method PerfRequestEx(cmd: Command, on: bool)
      modifies this`sent
      ensures sent == old(sent) + [Request(cmd, on)]
    {
      sent := sent + [Request(cmd, on)];
    }

    method HandleScreenOn()
      modifies this`sent
      ensures View() == TurnOn(old(View()))
    {
      PerfRequestEx(ScreenOff, false);
      PerfRequestEx(ScreenOn, true);
      assert sent == old(sent) + SwitchTo(ScreenOff, ScreenOn) + [];
      if performanceMode == PERFORMANCE_MODE {
        PerfRequestEx(ScreenOffPerf, false);
        PerfRequestEx(ScreenOnPerf, true);
      }
    }

    method HandleScreenOff()
      modifies this`sent
      ensures View() == TurnOff(old(View()))
    {
      if screenStatus == SCREEN_OFF {
        PerfRequestEx(ScreenOn, false);
        PerfRequestEx(ScreenOff, true);
        assert sent == old(sent) + SwitchTo(ScreenOn, ScreenOff) + [];
        if performanceMode == PERFORMANCE_MODE {
          PerfRequestEx(ScreenOnPerf, false);
          PerfRequestEx(ScreenOffPerf, true);
        }
      }
    }

    /** A reported status: going off only submits a task that will look at the status again. */
    method HandleScreenStatusAnalysis(value: int)
      modifies this`screenStatus, this`offTasks, this`wakeUpTaskSet
      ensures View() == Step(old(View()), Status(value))
      ensures offTasks == old(offTasks) + if value == SCREEN_OFF then 1 else 0
      ensures wakeUpTaskSet == (old(wakeUpTaskSet) && value != SCREEN_ON)
    {
      screenStatus := value;
      if screenStatus == SCREEN_ON {
        wakeUpTaskSet := false;
      } else if screenStatus == SCREEN_OFF {
        offTasks := offTasks + 1;
      }
    }

    method RunScreenOffTask()
      requires offTasks > 0
      modifies this`sent, this`offTasks
      ensures View() == Step(old(View()), OffTask) && offTasks == old(offTasks) - 1
    {
      offTasks := offTasks - 1;
      HandleScreenOff();
    }

    method HandleDisplayPowerWakeUp(value: int) returns (handled: bool)
      modifies this`sent, this`wakeUpTaskSet
      ensures View() == Step(old(View()), WakeUp(value))
      ensures handled <==> value == WAKE_UP_START || value == WAKE_UP_TIMEOUT
      ensures wakeUpTaskSet == (old(wakeUpTaskSet) || value == WAKE_UP_START)
    {
      if value == WAKE_UP_START {
        HandleScreenOn();
        wakeUpTaskSet := true;
        return true;
      } else if value == WAKE_UP_TIMEOUT {
        HandleScreenOff();
        return true;
      }
      return false;
    }

    method HandlePerformanceModeChange(value: int) returns (handled: bool)
      modifies this`performanceMode, this`sent
      ensures View() == Step(old(View()), Mode(value))
      ensures handled <==> POWER_MODE_MIN <= value <= POWER_MODE_MAX
    {
      if value < POWER_MODE_MIN || value > POWER_MODE_MAX {
        return false;
      }
      performanceMode := value;
      assert sent + [] == sent;
      if performanceMode == PERFORMANCE_MODE {
        if screenStatus == SCREEN_ON {
          PerfRequestEx(ScreenOffPerf, false);
          PerfRequestEx(ScreenOnPerf, true);
        } else if screenStatus == SCREEN_OFF {
          PerfRequestEx(ScreenOnPerf, false);
          PerfRequestEx(ScreenOffPerf, true);
        }
      } else {
        PerfRequestEx(ScreenOnPerf, false);
        PerfRequestEx(ScreenOffPerf, false);
        if screenStatus == SCREEN_ON {
          PerfRequestEx(ScreenOff, false);
          PerfRequestEx(ScreenOn, true);
        } else if screenStatus == SCREEN_OFF {
          PerfRequestEx(ScreenOn, false);
          PerfRequestEx(ScreenOff, true);
        }
      }
      assert sent == old(sent) + ModeRequests(value, screenStatus);
      return true;
    }
  }
}
