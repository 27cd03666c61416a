/** The flag that says all focused apps are games, kept up to date event by event. */
module FocusGames {
  import opened Basics

  const INVALID_VALUE := -1
  const INVALID_APP_TYPE := 0
  const APP_TYPE_GAME := 2

  /** canAsk: whether the app-type function was found at start-up; without it no type is ever known. */
  datatype Focus = Focus(canAsk: bool, uids: set<int>, types: map<int, int>, flag: bool)

  /**
   * Focus carries what the type function answers for the uid's bundle, should it be asked. ColdStart
   * carries its answer for the starting bundle; Extension only counts for a uid without a type.
   */
  datatype Event =
    | FocusOn(uid: int, answer: int)
    | FocusOff(uid: int)
    | ColdStart(uid: int, answer: int)
    | Extension(uid: int, answer: int)
    | Uninstall(uid: int)

  predicate IsType(t: int) {
    t != INVALID_VALUE && t != INVALID_APP_TYPE
  }

  predicate IsGame(types: map<int, int>, uid: int) {
    uid in types && types[uid] == APP_TYPE_GAME
  }

  /** The full recomputation. */
  predicate AllGames(f: Focus) {
    f.uids != {} && forall u :: u in f.uids ==> IsGame(f.types, u)
  }

  /** The incremental verdict on one more focused app, already in the set. */
  predicate WithOneMore(f: Focus, appType: int) {
    if |f.uids| == 1 then appType == APP_TYPE_GAME else f.flag && appType == APP_TYPE_GAME
  }

  function Step(f: Focus, e: Event): Focus {
    if e.uid == INVALID_VALUE then f
    else match e
      case FocusOff(uid) =>
        var g := f.(uids := f.uids - {uid});
        g.(flag := AllGames(g))
      case FocusOn(uid, answer) =>
        var g := f.(uids := f.uids + {uid});
        if uid in g.types then g.(flag := WithOneMore(g, g.types[uid]))
        else if !g.canAsk then g
        else (if IsType(answer) then g.(types := g.types[uid := answer]) else g).(flag := WithOneMore(g, answer))
      case ColdStart(uid, answer) =>
        if f.canAsk && IsType(answer) then f.(types := f.types[uid := answer]) else f
      case Extension(uid, answer) =>
        if f.canAsk && uid !in f.types && IsType(answer) then f.(types := f.types[uid := answer]) else f
      case Uninstall(uid) => f.(types := f.types - {uid})
  }

  function Run(canAsk: bool, es: seq<Event>): Focus {
    if |es| == 0 then Focus(canAsk, {}, map[], false) else Step(Run(canAsk, es[..|es| - 1]), es[|es| - 1])
  }

  ghost predicate Agrees(f: Focus) {
    && (f.flag <==> AllGames(f))
    && (!f.canAsk ==> f.types == map[])
  }

  /**
   * Whether an event says of its app that it is a game from now on, or no longer is: a game uninstalled, a cold start
   * with a proper type on the other side, or a type that the type function gives at last to an app without one. The
   * only focused app may be focused again without harm.
   */
  predicate Retypes(f: Focus, e: Event) {
    match e
    case Uninstall(uid) => IsGame(f.types, uid)
    case ColdStart(uid, answer) => f.canAsk && IsType(answer) && (answer == APP_TYPE_GAME) != IsGame(f.types, uid)
    case Extension(uid, answer) => f.canAsk && uid !in f.types && answer == APP_TYPE_GAME
    case FocusOn(uid, answer) => f.canAsk && uid !in f.types && answer == APP_TYPE_GAME && f.uids != {uid}
    case FocusOff(_) => false
  }

  /** An event that retypes a focused app while every other focused app is a game. */
  ghost predicate Disturbs(f: Focus, e: Event) {
    Retypes(f, e) && e.uid in f.uids && forall u :: u in f.uids && u != e.uid ==> IsGame(f.types, u)
  }

  lemma SingleOrMore(s: set<int>, u: int)
    requires u in s
    ensures |s| == 1 <==> s == {u}
  {
    var rest := s - {u};
    assert s == rest + {u} && |s| == |rest| + 1;
  }

  /** From agreement, one event keeps it exactly when it is not a disturbance. */
  lemma AgreementBreaksExactlyOnDisturbance(f: Focus, e: Event)
    requires Agrees(f) && (INVALID_VALUE !in f.uids)
    ensures Agrees(Step(f, e)) <==> !Disturbs(f, e)
    ensures INVALID_VALUE !in Step(f, e).uids
  {
    var g := Step(f, e);
    if e.FocusOn? && e.uid != INVALID_VALUE {
      SingleOrMore(g.uids, e.uid);
      FocusingOneMore(f, e);
    } else if !e.FocusOff? && e.uid != INVALID_VALUE {
      assert forall u :: u in f.uids && u != e.uid ==> (IsGame(f.types, u) <==> IsGame(g.types, u));
      if e.uid in f.uids {
        AllGamesBut(f, e.uid);
        AllGamesBut(g, e.uid);
      }
    }
  }

  lemma FocusingOneMore(f: Focus, e: Event)
    requires Agrees(f) && e.FocusOn? && e.uid != INVALID_VALUE
    requires |Step(f, e).uids| == 1 <==> Step(f, e).uids == {e.uid}
    ensures Agrees(Step(f, e)) <==> !Disturbs(f, e)
  {
    var g := Step(f, e);
    assert g.uids == f.uids + {e.uid};
    assert forall u :: u != e.uid ==> IsGame(f.types, u) == IsGame(g.types, u);
    AllGamesBut(g, e.uid);
    if e.uid in f.uids {
      AllGamesBut(f, e.uid);
      assert g.uids == f.uids;
    } else if g.uids != {e.uid} {
      assert f.uids != {};
      assert AllGames(f) <==> forall u :: u in g.uids && u != e.uid ==> IsGame(g.types, u);
      assert AllGames(g) <==> IsGame(g.types, e.uid) && AllGames(f);
      if e.uid in f.types {
        assert g.flag <==> f.flag && IsGame(g.types, e.uid);
      } else if f.canAsk {
        assert g.flag <==> f.flag && IsGame(g.types, e.uid);
      } else {
        var u := Member(f.uids);
        assert !IsGame(f.types, u);
        assert !g.flag && !IsGame(g.types, e.uid);
      }
    } else {
      assert forall u :: u in g.uids ==> u == e.uid;
    }
  }

  lemma AllGamesBut(f: Focus, uid: int)
    requires uid in f.uids
    ensures AllGames(f) <==> IsGame(f.types, uid) && forall u :: u in f.uids && u != uid ==> IsGame(f.types, u)
  {
  }

  /** Over any run without disturbances the flag is the full recomputation. */
  lemma {:induction false} FlagIsRecomputation(canAsk: bool, es: seq<Event>)
    requires forall i :: 0 <= i < |es| ==> !Disturbs(Run(canAsk, es[..i]), es[i])
    ensures Agrees(Run(canAsk, es)) && INVALID_VALUE !in Run(canAsk, es).uids
  {
    if |es| > 0 {
      var before := es[..|es| - 1];
      assert forall i :: 0 <= i < |before| ==> before[..i] == es[..i] && before[i] == es[i];
      FlagIsRecomputation(canAsk, before);
      AgreementBreaksExactlyOnDisturbance(Run(canAsk, before), es[|es| - 1]);
    }
  }

  /** Whatever went wrong before, losing focus recomputes the flag. */
  lemma FocusLossHeals(canAsk: bool, es: seq<Event>)
    requires |es| > 0 && es[|es| - 1].FocusOff? && es[|es| - 1].uid != INVALID_VALUE
    ensures Run(canAsk, es).flag <==> AllGames(Run(canAsk, es))
  {
  }

  /** An app is in focus when the last focus event about it says so. */
  ghost predicate InFocus(es: seq<Event>, uid: int) {
    if |es| == 0 || uid == -1 then false
    else match es[|es| - 1]
      case FocusOn(u, _) => u == uid || InFocus(es[..|es| - 1], uid)
      case FocusOff(u) => u != uid && InFocus(es[..|es| - 1], uid)
      case _ => InFocus(es[..|es| - 1], uid)
  }

  /**
   * The type of an app: that of its last cold start since it was last uninstalled, or else the first one given for it
   * since then; -1 and 0 are no types.
   */
  ghost function TypeKnown(es: seq<Event>, uid: int): Option<int> {
    if |es| == 0 || uid == -1 then None
    else
      var before := TypeKnown(es[..|es| - 1], uid);
      match es[|es| - 1]
      case ColdStart(u, answer) => if u == uid && answer != -1 && answer != 0 then Some(answer) else before
      case Uninstall(u) => if u == uid then None else before
      case Extension(u, answer) =>
        if u == uid && before == None && answer != -1 && answer != 0 then Some(answer) else before
      case FocusOn(u, answer) =>
        if u == uid && before == None && answer != -1 && answer != 0 then Some(answer) else before
      case FocusOff(_) => before
  }

  ghost function TypeOf(f: Focus, uid: int): Option<int> {
    if uid in f.types then Some(f.types[uid]) else None
  }

  lemma {:induction false} CanAskStays(canAsk: bool, es: seq<Event>)
    ensures Run(canAsk, es).canAsk == canAsk
  {
    if |es| > 0 { CanAskStays(canAsk, es[..|es| - 1]); }
  }

  lemma StepFollowsEvent(f: Focus, e: Event, uid: int)
    requires f.canAsk || TypeOf(f, uid) == None
    ensures var g := Step(f, e);
      && (e.uid != uid ==> TypeOf(g, uid) == TypeOf(f, uid) && (uid in g.uids <==> uid in f.uids))
      && (!f.canAsk ==> TypeOf(g, uid) == None)
  {
  }

  /** The focus set and the types are what the events say; without the type function there are no types. */
  lemma {:induction false} FocusAndTypesFollowEvents(canAsk: bool, es: seq<Event>, uid: int)
    requires uid != -1
    ensures var f := Run(canAsk, es);
      (uid in f.uids <==> InFocus(es, uid)) && TypeOf(f, uid) == if canAsk then TypeKnown(es, uid) else None
  {
    if |es| > 0 {
      var before, e := Run(canAsk, es[..|es| - 1]), es[|es| - 1];
      CanAskStays(canAsk, es[..|es| - 1]);
      FocusAndTypesFollowEvents(canAsk, es[..|es| - 1], uid);
      StepFollowsEvent(before, e, uid);
    }
  }

  ghost predicate OnlyGamesInFocus(es: seq<Event>) {
    (exists u :: InFocus(es, u)) && forall u :: InFocus(es, u) ==> TypeKnown(es, u) == Some(2)
  }

  lemma AllGamesSpelled(f: Focus, es: seq<Event>)
    requires -1 !in f.uids
    requires forall u :: u != -1 ==> (u in f.uids <==> InFocus(es, u)) && TypeOf(f, u) == TypeKnown(es, u)
    ensures AllGames(f) <==> OnlyGamesInFocus(es)
  {
    assert !InFocus(es, -1);
    if f.uids != {} {
      var u := Member(f.uids);
      assert InFocus(es, u);
    }
    forall u | u in f.uids ensures IsGame(f.types, u) <==> TypeKnown(es, u) == Some(2) {
      assert TypeOf(f, u) == TypeKnown(es, u);
    }
  }

  /** So over any run without disturbances the flag is up exactly when some app is in focus and all such are games. */
  lemma FlagMeansGames(es: seq<Event>)
    requires forall i :: 0 <= i < |es| ==> !Disturbs(Run(true, es[..i]), es[i])
    ensures Run(true, es).flag <==> OnlyGamesInFocus(es)
  {
    var f := Run(true, es);
    FlagIsRecomputation(true, es);
    forall u | u != -1 ensures (u in f.uids <==> InFocus(es, u)) && TypeOf(f, u) == TypeKnown(es, u) {
      FocusAndTypesFollowEvents(true, es, u);
    }
    AllGamesSpelled(f, es);
  }

  /** A focused game that is uninstalled leaves the flag up. */
  lemma DisturbanceHappens()
    ensures exists es :: !Agrees(Run(true, es))
  {
    var e1, e2 := FocusOn(7, APP_TYPE_GAME), Uninstall(7);
    var one: seq<Event>, two := [e1], [e1, e2];
    assert one[..0] == [] && two[..1] == one;
    assert Run(true, one) == Focus(true, {7}, map[7 := APP_TYPE_GAME], true);
    assert Run(true, two) == Step(Run(true, one), e2);
    assert 7 in Run(true, two).uids && 7 !in Run(true, two).types;
    assert !Agrees(Run(true, two));
  }

  class FocusTracker {
    const canAsk: bool                      // reqAppTypeFunc_ is not null
    var focusAppUids: set<int>
    var uidToAppType: map<int, int>         // the app type part of uidToAppMsgMap_
    var isFocusAppsGameType: bool

    ghost function View(): Focus
      reads this
    {
      Focus(canAsk, focusAppUids, uidToAppType, isFocusAppsGameType)
    }

    constructor (canAsk: bool)
      ensures View() == Run(canAsk, [])
    {
      this.canAsk := canAsk;
      focusAppUids, uidToAppType, isFocusAppsGameType := {}, map[], false;
    }

    /** answer is what the app-type function says for the uid's bundle. */
    method UpdateFocusAppType(uid: int, focusStatus: bool, answer: int) returns (updated: bool)
      modifies this
      ensures View() == Step(old(View()), if focusStatus then FocusOn(uid, answer) else FocusOff(uid))
      ensures updated <==> uid != INVALID_VALUE && (focusStatus ==> canAsk || uid in old(uidToAppType))
    {
      if uid == INVALID_VALUE {
        return false;
      }
      if !focusStatus {
        focusAppUids := focusAppUids - {uid};
        isFocusAppsGameType := IsFocusAppsAllGame();
        return true;
      }
      focusAppUids := focusAppUids + {uid};
      if uid in uidToAppType {
        isFocusAppsGameType := UpdatesFocusAppsType(uidToAppType[uid]);
        return true;
      }
      if !canAsk {
        return false;
      }
      var game := UpdatesFocusAppsType(answer);
      if answer != INVALID_VALUE && answer != INVALID_APP_TYPE {
        uidToAppType := uidToAppType[uid := answer];
      }
      isFocusAppsGameType := game;
      return true;
    }

    method IsFocusAppsAllGame() returns (isAllGame: bool)
      ensures isAllGame <==> AllGames(View())
    {
      if focusAppUids == {} || uidToAppType == map[] {
        assert focusAppUids != {} ==> exists u :: u in focusAppUids && !IsGame(uidToAppType, u) by {
          if focusAppUids != {} {
            var u := Member(focusAppUids);
            assert !IsGame(uidToAppType, u);
          }
        }
        return false;
      }
      isAllGame := true;
      var todo := focusAppUids;
      while todo != {}
        invariant todo <= focusAppUids
        invariant isAllGame && forall u :: u in focusAppUids - todo ==> IsGame(uidToAppType, u)
      {
        ghost var some := Member(todo);
        var uid :| uid in todo;
        todo := todo - {uid};
        if uid !in uidToAppType || uidToAppType[uid] != APP_TYPE_GAME {
          assert !IsGame(uidToAppType, uid);
          isAllGame := false;
          break;
        }
      }
    }

    method UpdatesFocusAppsType(appType: int) returns (r: bool)
      ensures r <==> WithOneMore(View(), appType)
    {
      if |focusAppUids| == 1 {
        return appType == APP_TYPE_GAME;
      }
      return isFocusAppsGameType && appType == APP_TYPE_GAME;
    }

    /** The cold-start form: whatever was known about the uid is replaced. */
    method NoteColdStart(uid: int, answer: int) returns (noted: bool)
      modifies this`uidToAppType
      ensures View() == Step(old(View()), ColdStart(uid, answer))
      ensures noted <==> canAsk && uid != INVALID_VALUE && IsType(answer)
    {
      if canAsk && answer != INVALID_VALUE && answer != INVALID_APP_TYPE && uid != INVALID_VALUE {
        uidToAppType := uidToAppType[uid := answer];
        return true;
      }
      return false;
    }

    /** The extension form: only a uid without a type gets one. */
    method NoteExtension(uid: int, answer: int) returns (known: bool)
      modifies this`uidToAppType
      ensures View() == Step(old(View()), Extension(uid, answer))
      ensures known <==> uid != INVALID_VALUE && (canAsk || uid in old(uidToAppType))
    {
      if uid == INVALID_VALUE {
        return false;
      }
      if uid in uidToAppType {
        return true;
      }
      if !canAsk {
        return false;
      }
      if answer != INVALID_VALUE && answer != INVALID_APP_TYPE {
        uidToAppType := uidToAppType[uid := answer];
      }
      return true;
    }

    method HandleUninstallEvent(uid: int) returns (erased: bool)
      modifies this`uidToAppType
      ensures View() == Step(old(View()), Uninstall(uid)) && (erased <==> uid != INVALID_VALUE)
    {
      if uid == INVALID_VALUE {
        return false;
      }
      uidToAppType := uidToAppType - {uid};
      return true;
    }
  }
}
