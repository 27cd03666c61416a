/** How the executor is initialised once, from a configuration that arrives whole or in fragments. */
module ExecutorInit {
  import opened Basics

  const MAX_CONFIG_SIZE := 1024 * 1024

  /** The two string arrays an initialisation payload must carry. */
  datatype Config = Config(readers: seq<string>, switches: seq<string>)

  /** A numbered fragment of the payload's text, or a payload that may or may not hold a configuration. */
  datatype Message = Fragment(index: int, number: int, text: string) | Whole(config: Option<Config>)

  datatype Call = ParseConfigReader(readers: seq<string>) | ParsePluginSwitch(switches: seq<string>)

  /** attempts are the calls of InitPluginMgr, calls what those passed on to the plugin manager. */
  datatype Executor = Executor(isInit: bool, pieces: map<int, string>, count: int,
                               attempts: seq<Option<Config>>, calls: seq<Call>)

  predicate Oversized(texts: seq<string>) {
    exists t :: t in texts && |t| > MAX_CONFIG_SIZE
  }

  function CallsFor(c: Config): seq<Call> {
    if Oversized(c.readers) then []
    else [ParseConfigReader(c.readers)] + if Oversized(c.switches) then [] else [ParsePluginSwitch(c.switches)]
  }

  function Init(x: Executor, config: Option<Config>): Executor {
    var tried := x.(attempts := x.attempts + [config]);
    if config.None? then tried else tried.(isInit := true, calls := x.calls + CallsFor(config.value))
  }

  // ----- joining in index order

  lemma {:induction false} MaxExists(s: set<int>)
    requires s != {}
    ensures exists m :: m in s && forall x :: x in s ==> x <= m
    decreases |s|
  {
    var x := Member(s);
    var rest := s - {x};
    if rest == {} {
      assert s == {x};
      assert x in s && forall y :: y in s ==> y <= x;
    } else {
      MaxExists(rest);
      var m :| m in rest && forall y :: y in rest ==> y <= m;
      var top := if x < m then m else x;
      assert forall y :: y in s ==> y == x || y in rest;
      assert top in s && forall y :: y in s ==> y <= top;
    }
  }

  /** The texts from the smallest index to the largest. */
  ghost function Join(pieces: map<int, string>): string
    decreases |pieces|
  {
    if pieces.Keys == {} then ""
    else
      MaxExists(pieces.Keys);
      var top :| top in pieces.Keys && forall k :: k in pieces.Keys ==> k <= top;
      assert |pieces - {top}| < |pieces| by { assert (pieces - {top}).Keys == pieces.Keys - {top}; }
      Join(pieces - {top}) + pieces[top]
  }

  lemma JoinNext(pieces: map<int, string>, k: int, text: string)
    requires forall j :: j in pieces ==> j < k
    ensures Join(pieces[k := text]) == Join(pieces) + text
  {
    var more := pieces[k := text];
    assert k in more.Keys && forall j :: j in more.Keys ==> j <= k;
    assert more - {k} == pieces;
  }

  // ----- the steps

  function AddPiece(pieces: map<int, string>, index: int, text: string): map<int, string> {
    if index in pieces then pieces else pieces[index := text]
  }

  ghost function Step(parse: string -> Option<Config>, x: Executor, m: Message): Executor {
    if x.isInit then x
    else match m
      case Whole(config) => Init(x, config)
      case Fragment(index, number, text) =>
        var more := x.(pieces := AddPiece(x.pieces, index, text), count := x.count + 1);
        if number == more.count then Init(more, parse(Join(more.pieces))).(pieces := map[], count := 0) else more
  }

  ghost function Run(parse: string -> Option<Config>, x: Executor, ms: seq<Message>): Executor {
    if |ms| == 0 then x else Step(parse, Run(parse, x, ms[..|ms| - 1]), ms[|ms| - 1])
  }

  ghost predicate Waiting(x: Executor) {
    !x.isInit && x.pieces == map[] && x.count == 0
  }

  /** The fragments kept of a run: for each index the first that came. */
  function Kept(fs: seq<Message>): map<int, string>
    requires forall i :: 0 <= i < |fs| ==> fs[i].Fragment?
  {
    if |fs| == 0 then map[] else AddPiece(Kept(fs[..|fs| - 1]), fs[|fs| - 1].index, fs[|fs| - 1].text)
  }

  ghost predicate DistinctIndices(fs: seq<Message>)
    requires forall i :: 0 <= i < |fs| ==> fs[i].Fragment?
  {
    forall i, j :: 0 <= i < j < |fs| ==> fs[i].index != fs[j].index
  }

  ghost predicate NumberedFragments(fs: seq<Message>, n: int) {
    forall i :: 0 <= i < |fs| ==> fs[i].Fragment? && fs[i].number == n
  }

  /** Fragments none of which is as many as it says there are. */
  ghost predicate NoneCompletes(fs: seq<Message>) {
    forall i :: 0 <= i < |fs| ==> fs[i].Fragment? && fs[i].number != i + 1
  }

  /** Before that nothing is initialised. */
  lemma {:induction false} FragmentsAccumulate(parse: string -> Option<Config>, x: Executor, fs: seq<Message>)
    requires Waiting(x) && NoneCompletes(fs)
    ensures Run(parse, x, fs) == x.(pieces := Kept(fs), count := |fs|)
  {
    if |fs| > 0 {
      FragmentsAccumulate(parse, x, fs[..|fs| - 1]);
    }
  }

  /**
   * The first fragment with its own count for a number makes the one attempt, with what was kept joined in index
   * order, and empties the buffer.
   */
  lemma {:induction false} NthFragmentInitialises(parse: string -> Option<Config>, x: Executor, fs: seq<Message>)
    requires Waiting(x) && |fs| > 0 && NoneCompletes(fs[..|fs| - 1])
    requires fs[|fs| - 1].Fragment? && fs[|fs| - 1].number == |fs|
    ensures (forall i :: 0 <= i < |fs| ==> fs[i].Fragment?)
      && Run(parse, x, fs) == Init(x, parse(Join(Kept(fs))))
  {
    var older := fs[..|fs| - 1];
    assert forall i :: 0 <= i < |older| ==> fs[i] == older[i];
    FragmentsAccumulate(parse, x, older);
  }

  predicate HasIndex(fs: seq<Message>, k: int)
    requires forall i :: 0 <= i < |fs| ==> fs[i].Fragment?
  {
    exists i :: 0 <= i < |fs| && fs[i].index == k
  }

  lemma {:induction false} KeptIndices(fs: seq<Message>, k: int)
    requires forall i :: 0 <= i < |fs| ==> fs[i].Fragment?
    ensures k in Kept(fs) <==> HasIndex(fs, k)
  {
    if |fs| > 0 {
      var older := fs[..|fs| - 1];
      KeptIndices(older, k);
      assert forall i :: 0 <= i < |older| ==> older[i] == fs[i];
      if HasIndex(fs, k) && fs[|fs| - 1].index != k {
        var i :| 0 <= i < |fs| && fs[i].index == k;
        assert older[i].index == k;
      }
    }
  }

  /** As many texts are kept as fragments came exactly when no index repeats: a repeated one counts but is not kept. */
  lemma {:induction false} KeptCount(fs: seq<Message>)
    requires forall i :: 0 <= i < |fs| ==> fs[i].Fragment?
    ensures |Kept(fs)| <= |fs|
    ensures |Kept(fs)| == |fs| <==> DistinctIndices(fs)
  {
    if |fs| > 0 {
      var older, f := fs[..|fs| - 1], fs[|fs| - 1];
      KeptCount(older);
      KeptIndices(older, f.index);
      assert forall i :: 0 <= i < |older| ==> older[i] == fs[i];
      assert DistinctIndices(fs) <==> DistinctIndices(older) && !HasIndex(older, f.index) by {
        if DistinctIndices(older) && !HasIndex(older, f.index) {
          forall i, j | 0 <= i < j < |fs| ensures fs[i].index != fs[j].index {
            assert fs[i] == older[i];
            if j < |older| { assert fs[j] == older[j]; }
          }
        }
        if HasIndex(older, f.index) {
          var i :| 0 <= i < |older| && older[i].index == f.index;
          assert fs[i].index == fs[|fs| - 1].index;
        }
      }
    }
  }

  /** Of the fragments with one index the first is kept. */
  lemma {:induction false} FirstTextIsKept(fs: seq<Message>, i: nat)
    requires i < |fs| && (forall j :: 0 <= j < |fs| ==> fs[j].Fragment?)
    requires forall j :: 0 <= j < i ==> fs[j].index != fs[i].index
    ensures fs[i].index in Kept(fs) && Kept(fs)[fs[i].index] == fs[i].text
  {
    var older := fs[..|fs| - 1];
    if i < |older| {
      FirstTextIsKept(older, i);
    } else {
      KeptIndices(older, fs[i].index);
    }
  }

  // ----- what is in the joined text

  /** Positions of fragments by ascending index. */
  ghost predicate Ascends(fs: seq<Message>, order: seq<nat>)
    requires forall i :: 0 <= i < |fs| ==> fs[i].Fragment?
  {
    && (forall a :: 0 <= a < |order| ==> order[a] < |fs|)
    && (forall a, b :: 0 <= a < b < |order| ==> fs[order[a]].index < fs[order[b]].index)
  }

  /** The texts of the fragments at these positions, one after the other. */
  function Texts(fs: seq<Message>, order: seq<nat>): string
    requires forall i :: 0 <= i < |fs| ==> fs[i].Fragment?
    requires forall a :: 0 <= a < |order| ==> order[a] < |fs|
  {
    if order == [] then "" else Texts(fs, order[..|order| - 1]) + fs[order[|order| - 1]].text
  }

  /** The joined text is that of all fragments, each once, by ascending index. */
  ghost predicate NothingLost(fs: seq<Message>)
    requires forall i :: 0 <= i < |fs| ==> fs[i].Fragment?
  {
    exists order: seq<nat> :: Ascends(fs, order) && NamesAll(fs, order) && Join(Kept(fs)) == Texts(fs, order)
  }

  ghost predicate NamesAll(fs: seq<Message>, order: seq<nat>) {
    forall i: nat :: i < |fs| ==> i in order
  }

  /** Some position of the order is of a fragment with this index. */
  ghost predicate Reaches(fs: seq<Message>, order: seq<nat>, k: int)
    requires (forall i :: 0 <= i < |fs| ==> fs[i].Fragment?) && Ascends(fs, order)
  {
    exists a :: 0 <= a < |order| && fs[order[a]].index == k
  }

  lemma OrderNext(fs: seq<Message>, order: seq<nat>, i: nat)
    requires (forall j :: 0 <= j < |fs| ==> fs[j].Fragment?) && Ascends(fs, order) && i < |fs|
    requires forall a :: 0 <= a < |order| ==> fs[order[a]].index < fs[i].index
    ensures Ascends(fs, order + [i]) && Texts(fs, order + [i]) == Texts(fs, order) + fs[i].text
    ensures forall k :: Reaches(fs, order + [i], k) <==> k == fs[i].index || Reaches(fs, order, k)
  {
    var more := order + [i];
    assert more[..|more| - 1] == order;
    assert fs[more[|order|]].index == fs[i].index;
    forall k | Reaches(fs, order, k) ensures Reaches(fs, more, k) {
      var a :| 0 <= a < |order| && fs[order[a]].index == k;
      assert fs[more[a]].index == k;
    }
  }

  predicate Holds(fs: seq<Message>, k: int, text: string)
    requires forall i :: 0 <= i < |fs| ==> fs[i].Fragment?
  {
    exists i :: 0 <= i < |fs| && fs[i].index == k && fs[i].text == text
  }

  /** Pieces held by fragments join to the texts of those fragments by ascending index. */
  lemma {:induction false} JoinOrder(fs: seq<Message>, pieces: map<int, string>) returns (order: seq<nat>)
    requires forall i :: 0 <= i < |fs| ==> fs[i].Fragment?
    requires forall k :: k in pieces ==> Holds(fs, k, pieces[k])
    ensures Ascends(fs, order) && Join(pieces) == Texts(fs, order)
    ensures forall k :: Reaches(fs, order, k) <==> k in pieces
    decreases |pieces.Keys|
  {
    if pieces.Keys == {} {
      return [];
    }
    MaxExists(pieces.Keys);
    var top :| top in pieces.Keys && forall k :: k in pieces.Keys ==> k <= top;
    var fewer := pieces - {top};
    assert fewer.Keys == pieces.Keys - {top};
    var older := JoinOrder(fs, fewer);
    assert Holds(fs, top, pieces[top]);
    var i: nat :| i < |fs| && fs[i].index == top && fs[i].text == pieces[top];
    forall a | 0 <= a < |older| ensures fs[older[a]].index < top {
      assert Reaches(fs, older, fs[older[a]].index);
    }
    OrderNext(fs, older, i);
    JoinNext(fewer, top, pieces[top]);
    PutBack(pieces, top);
    order := older + [i];
  }

  lemma {:induction false} NothingLostExactlyWhenDistinct(fs: seq<Message>)
    requires forall i :: 0 <= i < |fs| ==> fs[i].Fragment?
    ensures NothingLost(fs) <==> DistinctIndices(fs)
    ensures |Kept(fs)| == |fs| <==> DistinctIndices(fs)
  {
    KeptCount(fs);
    if order: seq<nat> :| Ascends(fs, order) && NamesAll(fs, order) && Join(Kept(fs)) == Texts(fs, order) {
      forall i: nat, j: nat | i < j < |fs| ensures fs[i].index != fs[j].index {
        assert i in order && j in order;
        var a :| 0 <= a < |order| && order[a] == i;
        var b :| 0 <= b < |order| && order[b] == j;
        assert a < b || b < a;
      }
    }
    if DistinctIndices(fs) {
      DistinctIsJoinedWhole(fs);
    }
  }

  lemma DistinctIsJoinedWhole(fs: seq<Message>)
    requires (forall i :: 0 <= i < |fs| ==> fs[i].Fragment?) && DistinctIndices(fs)
    ensures NothingLost(fs)
  {
    forall k | k in Kept(fs) ensures Holds(fs, k, Kept(fs)[k]) {
      KeptIndices(fs, k);
      var i :| 0 <= i < |fs| && fs[i].index == k;
      FirstTextIsKept(fs, i);
    }
    var order := JoinOrder(fs, Kept(fs));
    forall i: nat | i < |fs| ensures i in order {
      FirstTextIsKept(fs, i);
      assert Reaches(fs, order, fs[i].index);
      var a :| 0 <= a < |order| && fs[order[a]].index == fs[i].index;
      assert order[a] == i;
    }
    assert NamesAll(fs, order);
  }

  /** The fragments of a text cut into pieces, in some order of arrival. */
  function Arrival(pieces: map<int, string>, order: seq<int>): (fs: seq<Message>)
    requires forall i :: 0 <= i < |order| ==> order[i] in pieces
    ensures |fs| == |order| && NumberedFragments(fs, |order|)
    ensures forall i :: 0 <= i < |order| ==> fs[i] == Fragment(order[i], |order|, pieces[order[i]])
  {
    seq(|order|, i requires 0 <= i < |order| => Fragment(order[i], |order|, pieces[order[i]]))
  }

  lemma ArrivalIsKeptWhole(pieces: map<int, string>, order: seq<int>)
    requires Enumerates(order, pieces.Keys)
    ensures Kept(Arrival(pieces, order)) == pieces
  {
    var fs := Arrival(pieces, order);
    forall k | k in pieces ensures k in Kept(fs) && Kept(fs)[k] == pieces[k] {
      var i :| 0 <= i < |order| && order[i] == k;
      FirstTextIsKept(fs, i);
    }
    forall k | k in Kept(fs) ensures k in pieces {
      KeptIndices(fs, k);
    }
  }

  /** Whatever the order of arrival, the executor is initialised once, from the pieces in index order. */
  lemma {:induction false} ArrivalOrderDoesNotMatter(parse: string -> Option<Config>, x: Executor,
      pieces: map<int, string>, order: seq<int>)
    requires Waiting(x) && pieces.Keys != {} && Enumerates(order, pieces.Keys)
    ensures Run(parse, x, Arrival(pieces, order)) == Init(x, parse(Join(pieces)))
    ensures forall n :: 0 <= n < |order| ==> Run(parse, x, Arrival(pieces, order)[..n]).attempts == x.attempts
  {
    var fs := Arrival(pieces, order);
    assert |order| > 0 by {
      var some := Member(pieces.Keys);
      assert some in order;
    }
    ArrivalIsKeptWhole(pieces, order);
    NthFragmentInitialises(parse, x, fs);
    forall n | 0 <= n < |order| ensures Run(parse, x, fs[..n]).attempts == x.attempts {
      FragmentsAccumulate(parse, x, fs[..n]);
    }
  }

  // ----- the latch

  function Reads(calls: seq<Call>): nat {
    if |calls| == 0 then 0 else Reads(calls[..|calls| - 1]) + if calls[|calls| - 1].ParseConfigReader? then 1 else 0
  }

  /** Over any run of messages at all the plugin manager reads a configuration at most once, and only once latched. */
  lemma {:induction false} ConfiguredAtMostOnce(parse: string -> Option<Config>, ms: seq<Message>)
    ensures var x := Run(parse, Executor(false, map[], 0, [], []), ms);
      Reads(x.calls) <= (if x.isInit then 1 else 0) && (!x.isInit ==> x.calls == [])
  {
    if |ms| > 0 {
      var before := Run(parse, Executor(false, map[], 0, [], []), ms[..|ms| - 1]);
      var now := Run(parse, Executor(false, map[], 0, [], []), ms);
      ConfiguredAtMostOnce(parse, ms[..|ms| - 1]);
      if now.calls != before.calls {
        assert before.calls == [];
        var c :| now.calls == [] + CallsFor(c);
        ReadsOf(c);
        assert now.calls == CallsFor(c);
      }
    }
  }

  ghost predicate SomeTooLong(texts: seq<string>) {
    exists i :: 0 <= i < |texts| && |texts[i]| > 1048576
  }

  /**
   * Initialised exactly when the last attempt had a configuration, the earlier ones having had none; and the plugin
   * manager was then called with that one: for the readers unless one of them is over a million bytes, and then for
   * the switches unless one of them is.
   */
  ghost predicate Configured(x: Executor) {
    var n := |x.attempts|;
    && (forall i :: 0 <= i < n - 1 ==> x.attempts[i] == None)
    && (x.isInit <==> n > 0 && x.attempts[n - 1].Some?)
    && (!x.isInit ==> x.calls == [])
    && (x.isInit ==>
      var c := x.attempts[n - 1].value;
      x.calls == if SomeTooLong(c.readers) then []
        else if SomeTooLong(c.switches) then [ParseConfigReader(c.readers)]
        else [ParseConfigReader(c.readers), ParsePluginSwitch(c.switches)])
  }

  lemma InitConfigures(x: Executor, config: Option<Config>)
    requires Configured(x) && !x.isInit
    ensures Configured(Init(x, config))
  {
    var now := Init(x, config);
    assert |now.attempts| == |x.attempts| + 1 && now.attempts[|x.attempts|] == config;
    if config.Some? {
      CallsSpelled(config.value);
    }
  }

  /** So it is over any run. */
  lemma {:induction false} ConfiguredByTheFirst(parse: string -> Option<Config>, ms: seq<Message>)
    ensures Configured(Run(parse, Executor(false, map[], 0, [], []), ms))
  {
    if |ms| > 0 {
      var before := Run(parse, Executor(false, map[], 0, [], []), ms[..|ms| - 1]);
      ConfiguredByTheFirst(parse, ms[..|ms| - 1]);
      if !before.isInit {
        match ms[|ms| - 1]
        case Whole(config) => InitConfigures(before, config);
        case Fragment(index, number, text) =>
          var more := before.(pieces := AddPiece(before.pieces, index, text), count := before.count + 1);
          InitConfigures(more, parse(Join(more.pieces)));
      }
    }
  }

  lemma CallsSpelled(c: Config)
    ensures [] + CallsFor(c) == if SomeTooLong(c.readers) then []
      else if SomeTooLong(c.switches) then [ParseConfigReader(c.readers)]
      else [ParseConfigReader(c.readers), ParsePluginSwitch(c.switches)]
  {
    OversizedSpelled(c.readers);
    OversizedSpelled(c.switches);
    assert [ParseConfigReader(c.readers)] + [] == [ParseConfigReader(c.readers)];
  }

  lemma OversizedSpelled(texts: seq<string>)
    ensures Oversized(texts) <==> SomeTooLong(texts)
  {
    if t :| t in texts && |t| > MAX_CONFIG_SIZE {
      var i :| 0 <= i < |texts| && texts[i] == t;
      assert |texts[i]| > 1048576;
    }
    if i :| 0 <= i < |texts| && |texts[i]| > 1048576 {
      assert texts[i] in texts;
    }
  }

  /** A whole payload is tried at once while the executor is not initialised, whatever fragments are waiting. */
  lemma WholeIsTriedAtOnce(parse: string -> Option<Config>, x: Executor, ms: seq<Message>, config: Option<Config>)
    ensures var before, now := Run(parse, x, ms), Run(parse, x, ms + [Whole(config)]);
      && now.attempts == before.attempts + (if before.isInit then [] else [config])
      && now.isInit == (before.isInit || config.Some?)
      && now.pieces == before.pieces && now.count == before.count
  {
    assert (ms + [Whole(config)])[..|ms|] == ms;
  }

  lemma ReadsOf(c: Config)
    ensures Reads(CallsFor(c)) <= 1
  {
    var a, b := ParseConfigReader(c.readers), ParsePluginSwitch(c.switches);
    assert [a][..0] == [] && Reads([a]) == 1;
    assert [a] + [b] == [a, b] && [a, b][..1] == [a];
    assert [a] + [] == [a];
  }

  /** Once initialised nothing changes any more. */
  lemma {:induction false} InitialisedForGood(parse: string -> Option<Config>, x: Executor, ms: seq<Message>)
    requires x.isInit
    ensures Run(parse, x, ms) == x
  {
    if |ms| > 0 { InitialisedForGood(parse, x, ms[..|ms| - 1]); }
  }

  // ----- the manager

  class ResSchedExeMgr {
    const parse: string -> Option<Config>
    var isInit: bool
    var ipcNumber: int
    var ipcMessage: map<int, string>
    ghost var attempts: seq<Option<Config>>
    ghost var calls: seq<Call>

    ghost function View(): Executor
      reads this
    {
      Executor(isInit, ipcMessage, ipcNumber, attempts, calls)
    }

    constructor (parse: string -> Option<Config>)
      ensures this.parse == parse && View() == Executor(false, map[], 0, [], [])
    {
      this.parse := parse;
      isInit, ipcNumber, ipcMessage, attempts, calls := false, 0, map[], [], [];
    }

    method InitPluginMgrPretreatment(m: Message)
      modifies this
      ensures View() == Step(parse, old(View()), m)
    {
      if isInit {
        return;
      }
      match m
      case Whole(config) => InitPluginMgr(config);
      case Fragment(index, number, text) =>
        if index !in ipcMessage {
          ipcMessage := ipcMessage[index := text];
        }
        ipcNumber := ipcNumber + 1;
        if number == ipcNumber {
          var message := JoinMessages();
          InitPluginMgr(parse(message));
          ipcNumber := 0;
          ipcMessage := map[];
        }
    }

    /** The loop over the ordered map of fragments. */
    method JoinMessages() returns (message: string)
      ensures message == Join(ipcMessage)
    {
      message := "";
      var todo := ipcMessage.Keys;
      ghost var done: map<int, string> := map[];
      while todo != {}
        invariant todo <= ipcMessage.Keys && done == ipcMessage - todo
        invariant forall j, k :: j in done && k in todo ==> j < k
        invariant message == Join(done)
      {
        LeastExists(todo);
        var index :| index in todo && forall k :: k in todo ==> index <= k;
        JoinNext(done, index, ipcMessage[index]);
        message := message + ipcMessage[index];
        todo, done := todo - {index}, done[index := ipcMessage[index]];
      }
      assert done == ipcMessage;
    }

    method InitPluginMgr(config: Option<Config>)
      modifies this`isInit, this`attempts, this`calls
      ensures View() == Init(old(View()), config)
    {
      attempts := attempts + [config];
      if config.None? {
        return;
      }
      isInit := true;
      var large := AnyOversized(config.value.readers);
      if large {
        assert calls + [] == calls;
        return;
      }
      calls := calls + [ParseConfigReader(config.value.readers)];
      large := AnyOversized(config.value.switches);
      if large {
        return;
      }
      calls := calls + [ParsePluginSwitch(config.value.switches)];
      assert calls == old(calls) + CallsFor(config.value);
    }

    method AnyOversized(texts: seq<string>) returns (large: bool)
      ensures large <==> Oversized(texts)
    {
      for n := 0 to |texts|
        invariant forall i :: 0 <= i < n ==> |texts[i]| <= MAX_CONFIG_SIZE
      {
        if |texts[n]| > MAX_CONFIG_SIZE {
          assert texts[n] in texts;
          return true;
        }
      }
      return false;
    }
  }

  lemma LeastExists(s: set<int>)
    requires s != {}
    ensures exists m :: m in s && forall x :: x in s ==> m <= x
  {
    var mirror := set x | x in s :: -x;
    var some := Member(s);
    assert -some in mirror;
    MaxExists(mirror);
    var top :| top in mirror && forall y :: y in mirror ==> y <= top;
    assert -top in s && forall x :: x in s ==> -x in mirror;
  }
}
