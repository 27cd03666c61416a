/** Tasks held back until the first-start statement is agreed to, and the polling for that. */
module OobeManager {
  import opened Basics

  const MAX_RETRY_COUNT := 150

  datatype OobeValue = Invalid | IsFalse | IsTrue

  /** One reading of the shared setting: an error, of which one kind asks for a retry, or a number. */
  datatype Read = Failed(invalidOperation: bool) | Got(value: int)

  /**
   * A task is submitted (None is a null one), the setting is read because of a change notice or at
   * start-up, a polling chain is begun, or the next check of a chain runs.
   */
  datatype Event = Submit(task: Option<int>) | Flush(read: Read) | Poll(chain: int) | Check(chain: int, read: Read)

  /** scheduled is the retry count each chain's next check carries; attempts counts the reads a chain has made. */
  datatype Oobe = Oobe(value: OobeValue, pending: seq<int>, executed: seq<int>,
                       scheduled: map<int, int>, attempts: map<int, int>)

  function AfterSubmit(o: Oobe, task: Option<int>): Oobe {
    if task.None? then o
    else if o.value.IsTrue? then o.(executed := o.executed + [task.value])
    else o.(pending := o.pending + [task.value])
  }

  function AfterFlush(o: Oobe, read: Read): Oobe {
    match read
    case Failed(_) => o
    case Got(v) =>
      if v != 0 then o.(value := IsTrue, executed := o.executed + o.pending, pending := [])
      else o.(value := IsFalse)
  }

  /** Whether a check with this retry count still reads the setting. */
  predicate StillTrying(o: Oobe, count: int) {
    o.value.Invalid? && count < MAX_RETRY_COUNT
  }

  function Step(o: Oobe, e: Event): Oobe {
    match e
    case Submit(task) => AfterSubmit(o, task)
    case Flush(read) => AfterFlush(o, read)
    case Poll(c) => if c in o.attempts then o else o.(scheduled := o.scheduled[c := 0], attempts := o.attempts[c := 0])
    case Check(c, read) =>
      if c !in o.scheduled then o
      else if !StillTrying(o, o.scheduled[c]) then o.(scheduled := o.scheduled - {c})
      else
        var read' := AfterFlush(o, read);
        var tried := if c in o.attempts then o.attempts[c] + 1 else 1;
        if read.Failed? && read.invalidOperation then
          read'.(scheduled := o.scheduled[c := o.scheduled[c] + 1], attempts := o.attempts[c := tried])
        else read'.(scheduled := o.scheduled - {c}, attempts := o.attempts[c := tried])
  }

  /** The manager is made with whatever the setting reads then. */
  function Initial(first: Read): Oobe {
    AfterFlush(Oobe(Invalid, [], [], map[], map[]), first)
  }

  function Run(first: Read, es: seq<Event>): Oobe {
    if |es| == 0 then Initial(first) else Step(Run(first, es[..|es| - 1]), es[|es| - 1])
  }

  /** The tasks submitted, null ones apart, in order. */
  function Submitted(es: seq<Event>): seq<int> {
    if |es| == 0 then []
    else
      var e := es[|es| - 1];
      Submitted(es[..|es| - 1]) + if e.Submit? && e.task.Some? then [e.task.value] else []
  }

  predicate SaysTrue(r: Read) {
    r.Got? && r.value != 0
  }

  predicate ReadsTrue(e: Event) {
    (e.Flush? || e.Check?) && SaysTrue(e.read)
  }

  /** The tasks run and waiting are those submitted, and none waits once agreement is known. */
  ghost predicate InOrder(o: Oobe, submitted: seq<int>) {
    o.executed + o.pending == submitted && (o.value.IsTrue? ==> o.pending == [])
  }

  lemma FlushKeepsOrder(o: Oobe, read: Read, submitted: seq<int>)
    requires InOrder(o, submitted)
    ensures InOrder(AfterFlush(o, read), submitted)
  {
    assert o.executed + o.pending + [] == o.executed + o.pending;
  }

  lemma SubmitKeepsOrder(o: Oobe, task: Option<int>, submitted: seq<int>)
    requires InOrder(o, submitted)
    ensures InOrder(AfterSubmit(o, task), submitted + if task.Some? then [task.value] else [])
  {
    assert submitted + [] == submitted;
    if task.Some? {
      if o.value.IsTrue? {
        assert o.executed + [] == o.executed;
        assert o.executed + [task.value] + [] == o.executed + [task.value];
      } else {
        assert o.executed + (o.pending + [task.value]) == o.executed + o.pending + [task.value];
      }
    }
  }

  /** No task is lost, repeated or overtaken, and none waits once agreement is known. */
  lemma {:induction false} TasksRunInOrderOnce(first: Read, es: seq<Event>)
    ensures InOrder(Run(first, es), Submitted(es))
  {
    if |es| > 0 {
      var before, e := es[..|es| - 1], es[|es| - 1];
      var o, submitted := Run(first, before), Submitted(before);
      TasksRunInOrderOnce(first, before);
      assert submitted + [] == submitted;
      match e
      case Submit(task) => SubmitKeepsOrder(o, task, submitted);
      case Flush(read) => FlushKeepsOrder(o, read, submitted);
      case Poll(_) =>
      case Check(_, read) => FlushKeepsOrder(o, read, submitted);
    }
  }

  /**
   * The number last read, if any reading has succeeded yet: a change notice always reads, a check of a chain only
   * while no reading has succeeded and its count is below 150.
   */
  function LastRead(first: Read, es: seq<Event>): Option<int> {
    if |es| == 0 then if first.Got? then Some(first.value) else None
    else
      var before, e := es[..|es| - 1], es[|es| - 1];
      var o, known := Run(first, before), LastRead(first, before);
      match e
      case Flush(Got(v)) => Some(v)
      case Check(c, Got(v)) => if known.None? && c in o.scheduled && o.scheduled[c] < 150 then Some(v) else known
      case _ => known
  }

  /** The value is true, false or unknown as the last successful reading was non-zero, zero or has not come yet. */
  lemma {:induction false} ValueIsLastReading(first: Read, es: seq<Event>)
    ensures var read, value := LastRead(first, es), Run(first, es).value;
      && (value.Invalid? <==> read.None?)
      && (value.IsTrue? <==> read.Some? && read.value != 0)
      && (value.IsFalse? <==> read.Some? && read.value == 0)
  {
    if |es| > 0 {
      ValueIsLastReading(first, es[..|es| - 1]);
    }
  }

  /** While the last reading agrees, every task submitted so far has run; otherwise no event runs any. */
  lemma {:induction false} TasksRunExactlyWhenAgreed(first: Read, es: seq<Event>)
    ensures var read, o := LastRead(first, es), Run(first, es);
      if read.Some? && read.value != 0 then o.executed == Submitted(es) && o.pending == []
      else o.executed == if |es| > 0 then Run(first, es[..|es| - 1]).executed else []
  {
    ValueIsLastReading(first, es);
    TasksRunInOrderOnce(first, es);
    assert Run(first, es).executed + [] == Run(first, es).executed;
    if |es| > 0 {
      ValueIsLastReading(first, es[..|es| - 1]);
    }
  }

  /** No task runs before some reading of the setting said that the statement is agreed to. */
  lemma {:induction false} NothingRunsUnagreed(first: Read, es: seq<Event>)
    requires !SaysTrue(first) && forall e :: e in es ==> !ReadsTrue(e)
    ensures Run(first, es).executed == [] && !Run(first, es).value.IsTrue?
  {
    if |es| > 0 {
      assert es[|es| - 1] in es;
      NothingRunsUnagreed(first, es[..|es| - 1]);
    }
  }

  /** Every chain has read at most 150 times, and its next check carries the number of reads it has made. */
  ghost predicate ChainsBounded(o: Oobe) {
    && (forall c :: c in o.attempts ==> 0 <= o.attempts[c] <= MAX_RETRY_COUNT)
    && (forall c :: c in o.scheduled ==> c in o.attempts && o.scheduled[c] == o.attempts[c])
  }

  lemma StepChainsBounded(o: Oobe, e: Event)
    requires ChainsBounded(o)
    ensures ChainsBounded(Step(o, e))
  {
    var after := Step(o, e);
    if e.Check? && e.chain in o.scheduled {
      assert o.scheduled[e.chain] == o.attempts[e.chain];
    }
    forall c | c in after.attempts ensures 0 <= after.attempts[c] <= MAX_RETRY_COUNT {
      assert c in o.attempts || after.attempts[c] == 0;
    }
  }

  lemma {:induction false} ChainsGiveUp(first: Read, es: seq<Event>)
    ensures ChainsBounded(Run(first, es))
  {
    if |es| > 0 {
      ChainsGiveUp(first, es[..|es| - 1]);
      StepChainsBounded(Run(first, es[..|es| - 1]), es[|es| - 1]);
    }
  }

  /**
   * A check is followed by another of its chain exactly when it read the setting and failed with an invalid operation;
   * it reads the setting while nothing is known and its count is below 150, and no other chain is touched.
   */
  lemma RetriedExactlyOnInvalidOperation(o: Oobe, c: int, read: Read)
    requires c in o.scheduled
    ensures var after := Step(o, Check(c, read));
      && (c in after.scheduled <==> o.value == Invalid && o.scheduled[c] < 150 && read == Failed(true))
      && (c in after.scheduled ==> after.scheduled[c] == o.scheduled[c] + 1)
      && after.scheduled - {c} == o.scheduled - {c} && after.attempts - {c} == o.attempts - {c}
  {
  }

  /** The bound is reached, and then the chain ends: n failing checks of a fresh chain make min(n, 150) reads. */
  lemma {:induction false} FailingChain(o: Oobe, c: int, n: nat)
    requires o.value.Invalid? && c !in o.attempts
    ensures var after := Polled(o, c, n);
      && after.value.Invalid? && c in after.attempts
      && after.attempts[c] == (if n <= MAX_RETRY_COUNT then n else MAX_RETRY_COUNT)
      && (c in after.scheduled <==> n <= MAX_RETRY_COUNT)
      && (n <= MAX_RETRY_COUNT ==> after.scheduled[c] == n)
  {
    if n > 0 {
      FailingChain(o, c, n - 1);
    }
  }

  function Polled(o: Oobe, c: int, n: nat): Oobe {
    if n == 0 then Step(o, Poll(c)) else Step(Polled(o, c, n - 1), Check(c, Failed(true)))
  }

  // ----- the manager

  class OOBEManager {
    var oobeValue: OobeValue
    var oobeTasks: seq<int>
    ghost var executed: seq<int>   // tasks whose ExcutingTask has been called

    ghost predicate Shows(o: Oobe)
      reads this
    {
      o.value == oobeValue && o.pending == oobeTasks && o.executed == executed
    }

    constructor (first: Read)
      ensures Shows(Initial(first))
    {
      oobeTasks, executed := [], [];
      oobeValue := if first.Failed? then Invalid else if first.value != 0 then IsTrue else IsFalse;
    }

    method SubmitTask(task: Option<int>, ghost o: Oobe) returns (accepted: bool)
      requires Shows(o)
      modifies this
      ensures Shows(AfterSubmit(o, task)) && (accepted <==> task.Some?)
    {
      if task.None? {
        return false;
      }
      if oobeValue.IsTrue? {
        executed := executed + [task.value];
        return true;
      }
      oobeTasks := oobeTasks + [task.value];
      return true;
    }

    method FlushOobeValue(read: Read, ghost o: Oobe) returns (result: Read)
      requires Shows(o)
      modifies this
      ensures Shows(AfterFlush(o, read)) && result == read
    {
      if read.Failed? {
        return read;
      }
      if read.value != 0 {
        oobeValue := IsTrue;
        for n := 0 to |oobeTasks|
          invariant oobeValue.IsTrue? && oobeTasks == o.pending
          invariant executed == o.executed + oobeTasks[..n]
        {
          executed := executed + [oobeTasks[n]];
        }
        oobeTasks := [];
      } else {
        oobeValue := IsFalse;
      }
      return read;
    }

    /** The count of the check submitted next, if any. */
    method CheckOobeValue(count: int, read: Read, ghost o: Oobe, ghost c: int) returns (next: Option<int>)
      requires Shows(o) && c in o.scheduled && o.scheduled[c] == count
      modifies this
      ensures Shows(Step(o, Check(c, read)))
      ensures var after := Step(o, Check(c, read)).scheduled;
        next == if c in after then Some(after[c]) else None
    {
      if oobeValue.Invalid? && count < MAX_RETRY_COUNT {
        var result := FlushOobeValue(read, o);
        if result.Failed? && result.invalidOperation {
          return Some(count + 1);
        }
        return None;
      }
      return None;
    }
  }
}
