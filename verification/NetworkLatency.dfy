/** Low-latency requests with automatic expiry. Times are in microseconds. */
module NetworkLatency {
  import opened Basics

  const TIMEOUT_MS := 60 * 1000
  const SWITCH_TO_FFRT := 1000
  const TIMEOUT_US := TIMEOUT_MS * SWITCH_TO_FFRT
  const NETWORK_LATENCY_REQUEST_LOW := 0
  const NETWORK_LATENCY_REQUEST_NORMAL := 1

  /** A caller asks for low latency, or withdraws, or the timer of its last request fires. */
  datatype Event = Low(id: string, time: int) | Normal(id: string, time: int) | Fire(id: string, time: int)

  /** When each pending request expires, and the calls made to the switch (true turns low latency on). */
  datatype Net = Net(due: map<string, int>, calls: seq<bool>)

  function Step(n: Net, e: Event): Net {
    match e
    case Low(id, time) => Net(n.due[id := time + TIMEOUT_US], n.calls + if n.due == map[] then [true] else [])
    case _ => Drop(n, e.id)
  }

  /** A request withdrawn or expired; the last one to go turns low latency off. */
  function Drop(n: Net, id: string): Net {
    var left := n.due - {id};
    Net(left, n.calls + if n.due != map[] && left == map[] then [false] else [])
  }

  function Run(es: seq<Event>): Net {
    if |es| == 0 then Net(map[], []) else Step(Run(es[..|es| - 1]), es[|es| - 1])
  }

  /** The last event about a caller, if any. */
  function LastAbout(es: seq<Event>, id: string): Option<Event> {
    if |es| == 0 then None
    else if es[|es| - 1].id == id then Some(es[|es| - 1])
    else LastAbout(es[..|es| - 1], id)
  }

  /** A caller is pending exactly when its last event was a LOW request, and expires 60 s after it. */
  lemma {:induction false} PendingMeansLastWasLow(es: seq<Event>, id: string)
    ensures var last := LastAbout(es, id);
      && (id in Run(es).due <==> last.Some? && last.value.Low?)
      && (id in Run(es).due ==> Run(es).due[id] == last.value.time + 60000000)
  {
    if |es| > 0 {
      PendingMeansLastWasLow(es[..|es| - 1], id);
    }
  }

  lemma {:induction false} LastAboutIsInRun(es: seq<Event>, id: string)
    ensures LastAbout(es, id).Some? ==> LastAbout(es, id).value in es && LastAbout(es, id).value.id == id
  {
    if |es| > 0 {
      LastAboutIsInRun(es[..|es| - 1], id);
    }
  }

  /** Calls to the switch alternate, and it is on exactly while some request is pending. */
  lemma {:induction false} SwitchFollowsRequests(es: seq<Event>)
    ensures Alternates(Run(es).calls)
    ensures LastOn(Run(es).calls) <==> Run(es).due != map[]
  {
    if |es| > 0 {
      var before, now := Run(es[..|es| - 1]), Run(es);
      SwitchFollowsRequests(es[..|es| - 1]);
      AlternatesAppend(before.calls, true);
      AlternatesAppend(before.calls, false);
      assert before.calls + [] == before.calls;
      if es[|es| - 1].Low? {
        assert es[|es| - 1].id in now.due;
      }
    }
  }

  /** No timer is overdue: each one still pending is due now or later. */
  ghost predicate Timely(n: Net, now: int) {
    forall id :: id in n.due ==> n.due[id] >= now
  }

  /** While timers fire on time, the switch is on only if some LOW request is at most 60 s old. */
  lemma OffAMinuteAfterLastLow(es: seq<Event>, now: int)
    requires Timely(Run(es), now)
    requires forall e :: e in es && e.Low? ==> e.time + 60000000 < now
    ensures !LastOn(Run(es).calls)
  {
    SwitchFollowsRequests(es);
    if Run(es).due != map[] {
      var id := Member(Run(es).due.Keys);
      PendingMeansLastWasLow(es, id);
      LastAboutIsInRun(es, id);
    }
  }

  // ----- the controller

  datatype Task = Task(id: string, due: int)

  /** The task queue: delayed tasks by handle. A handle is never given out twice. */
  class Queue {
    var live: map<nat, Task>
    var next: nat

    ghost predicate Valid()
      reads this
    {
      forall h :: h in live ==> h < next
    }

    constructor ()
      ensures Valid() && live == map[]
    {
      live, next := map[], 0;
    }

    method SubmitDelayed(id: string, now: int, delay: int) returns (h: nat)
      requires Valid()
      modifies this
      ensures Valid() && h !in old(live) && live == old(live)[h := Task(id, now + delay)]
      ensures h == old(next) && next == h + 1
    {
      h := next;
      live, next := live[h := Task(id, now + delay)], next + 1;
    }

    /** Cancelling a task that has already run does nothing. */
    method Cancel(h: nat)
      requires Valid()
      modifies this
      ensures Valid() && live == old(live) - {h} && next == old(next)
    {
      live := live - {h};
    }
  }

  /** Each request has one live timer, its own; the other handles in the map are of tasks that have run. */
  ghost predicate OwnTimers(requests: set<string>, handlers: map<string, nat>, live: map<nat, Task>) {
    && (forall id :: id in requests ==> id in handlers && handlers[id] in live)
    && (forall id :: id in handlers && handlers[id] in live ==> live[handlers[id]].id == id)
    && (forall h :: h in live ==> live[h].id in requests && handlers[live[h].id] == h)
  }

  ghost function DueTimes(requests: set<string>, handlers: map<string, nat>, live: map<nat, Task>)
    : (m: map<string, int>)
    requires OwnTimers(requests, handlers, live)
    ensures m.Keys == requests
  {
    map id | id in requests :: live[handlers[id]].due
  }

  /** A fresh timer for a request whose old one, if any, has just been cancelled. */
  lemma Armed(requests: set<string>, handlers: map<string, nat>, live: map<nat, Task>, id: string, h: nat, due: int)
    requires OwnTimers(requests - {id}, handlers, live) && id !in handlers
    requires h !in live && forall i :: i in handlers ==> handlers[i] != h
    ensures OwnTimers(requests + {id}, handlers[id := h], live[h := Task(id, due)])
    ensures DueTimes(requests + {id}, handlers[id := h], live[h := Task(id, due)])
      == DueTimes(requests - {id}, handlers, live)[id := due]
  {
  }

  lemma NoneDue(m: map<string, int>)
    ensures m == map[] <==> m.Keys == {}
  {
  }

  lemma Postponed(m: map<string, int>, id: string, due: int)
    ensures (m - {id})[id := due] == m[id := due]
  {
  }

  lemma Disarmed(requests: set<string>, handlers: map<string, nat>, live: map<nat, Task>, id: string)
    requires OwnTimers(requests, handlers, live)
    ensures var live' := if id in handlers then live - {handlers[id]} else live;
      && OwnTimers(requests - {id}, handlers - {id}, live')
      && DueTimes(requests - {id}, handlers - {id}, live') == DueTimes(requests, handlers, live) - {id}
  {
  }

  lemma Fired(requests: set<string>, handlers: map<string, nat>, live: map<nat, Task>, h: nat)
    requires OwnTimers(requests, handlers, live) && h in live
    ensures var id := live[h].id;
      && OwnTimers(requests - {id}, handlers, live - {h})
      && DueTimes(requests - {id}, handlers, live - {h}) == DueTimes(requests, handlers, live) - {id}
  {
  }

  class NetworkLatencyController {
    const queue: Queue
    var initialized: bool
    var requests: set<string>
    var taskHandlerMap: map<string, nat>
    ghost var calls: seq<bool>         // calls to the latency switcher
    ghost var due: map<string, int>    // when each request expires

    ghost predicate Valid()
      reads this, queue
    {
      && queue.Valid() && (forall id :: id in taskHandlerMap ==> taskHandlerMap[id] < queue.next)
      && OwnTimers(requests, taskHandlerMap, queue.live)
      && due == DueTimes(requests, taskHandlerMap, queue.live)
    }

    ghost function View(): Net
      reads this
    {
      Net(due, calls)
    }

    constructor ()
      ensures Valid() && View() == Net(map[], []) && !initialized
    {
      queue := new Queue();
      initialized, requests, taskHandlerMap, calls, due := false, {}, map[], [], map[];
    }

    method Init()
      requires Valid()
      modifies this`initialized
      ensures Valid() && initialized && View() == old(View())
    {
      initialized := true;
    }

    method HandleRequest(value: int, id: string, now: int)
      requires Valid()
      modifies this, queue
      ensures Valid() && initialized == old(initialized)
      ensures View() ==
        if old(initialized) && value == NETWORK_LATENCY_REQUEST_LOW then Step(old(View()), Low(id, now))
        else if old(initialized) && value == NETWORK_LATENCY_REQUEST_NORMAL then Step(old(View()), Normal(id, now))
        else old(View())
    {
      if !initialized {
        return;
      }
      if value == NETWORK_LATENCY_REQUEST_LOW {
        HandleAddRequest(id, now);
      } else if value == NETWORK_LATENCY_REQUEST_NORMAL {
        HandleDelRequest(id);
      }
    }

    method HandleAddRequest(id: string, now: int)
      requires Valid()
      modifies this`requests, this`taskHandlerMap, this`calls, this`due, queue
      ensures Valid() && View() == Step(old(View()), Low(id, now))
    {
      ghost var first := requests == {};
      assert first <==> due == map[] by { NoneDue(due); }
      ghost var next := Step(View(), Low(id, now));
      assert next == Net(due[id := now + TIMEOUT_US], calls + if first then [true] else []);
      Disarmed(requests, taskHandlerMap, queue.live, id);
      CancelTimer(id);
      Armed(requests, taskHandlerMap, queue.live, id, queue.next, now + TIMEOUT_US);
      Postponed(due, id, now + TIMEOUT_US);
      AddRequest(id);
      StartTimer(id, now);
      due := due[id := now + TIMEOUT_US];
      assert View() == next;
    }

    method StartTimer(id: string, now: int)
      requires queue.Valid()
      modifies this`taskHandlerMap, queue
      ensures queue.Valid() && queue.next == old(queue.next) + 1
      ensures taskHandlerMap == old(taskHandlerMap)[id := old(queue.next)]
      ensures queue.live == old(queue.live)[old(queue.next) := Task(id, now + TIMEOUT_US)]
    {
      var h := queue.SubmitDelayed(id, now, TIMEOUT_MS * SWITCH_TO_FFRT);
      taskHandlerMap := taskHandlerMap[id := h];
    }

    method HandleDelRequest(id: string)
      requires Valid()
      modifies this`requests, this`taskHandlerMap, this`calls, this`due, queue
      ensures Valid() && View() == Drop(old(View()), id)
    {
      Disarmed(requests, taskHandlerMap, queue.live, id);
      CancelTimer(id);
      DelRequest(id);
      due := due - {id};
    }

    /** The timer of a request goes off: its task leaves the queue and drops the request. */
    method AutoDisableTask(h: nat)
      requires Valid() && h in queue.live
      modifies this`requests, this`calls, this`due, queue
      ensures Valid() && View() == Drop(old(View()), old(queue.live[h].id))
    {
      var id := queue.live[h].id;
      Fired(requests, taskHandlerMap, queue.live, h);
      queue.Cancel(h);
      DelRequest(id);
      due := due - {id};
    }

    /** The scan over the handler map that both handlers begin with. */
    method CancelTimer(id: string)
      requires Valid()
      modifies this`taskHandlerMap, queue
      ensures queue.Valid() && taskHandlerMap == old(taskHandlerMap) - {id}
      ensures queue.live
        == if id in old(taskHandlerMap) then old(queue.live) - {old(taskHandlerMap)[id]} else old(queue.live)
      ensures queue.next == old(queue.next)
    {
      var todo := taskHandlerMap.Keys;
      while todo != {}
        invariant todo <= taskHandlerMap.Keys && queue.Valid() && queue.next == old(queue.next)
        invariant id in todo || id !in old(taskHandlerMap) ==>
          taskHandlerMap == old(taskHandlerMap) && queue.live == old(queue.live)
        invariant id in old(taskHandlerMap) && id !in todo ==>
          taskHandlerMap == old(taskHandlerMap) - {id} && queue.live == old(queue.live) - {old(taskHandlerMap)[id]}
      {
        ghost var some := Member(todo);
        var key :| key in todo;
        todo := todo - {key};
        if key == id {
          queue.Cancel(taskHandlerMap[key]);
          taskHandlerMap := taskHandlerMap - {key};
        }
      }
    }

    method AddRequest(id: string)
      modifies this`requests, this`calls
      ensures requests == old(requests) + {id}
      ensures calls == old(calls) + if old(requests) == {} then [true] else []
    {
      var wasEmpty := requests == {};
      requests := requests + {id};
      if wasEmpty {
        calls := calls + [true];
      }
    }

    method DelRequest(id: string)
      modifies this`requests, this`calls
      ensures requests == old(requests) - {id}
      ensures calls == old(calls) + if old(requests) != {} && requests == {} then [false] else []
    {
      var wasEmpty := requests == {};
      requests := requests - {id};
      if !wasEmpty && requests == {} {
        calls := calls + [false];
      }
    }
  }
}
