/** Checking app signatures against a configuration, with a cache of verdicts and one of uids. */
module SignatureValidator {
  import opened Basics

  const MAX_SIGNATURE_CACHE := 200

  datatype CheckResult =
    | CheckOk | SignatureNoMatch | NoSignatureConfig | ParamInvalid | InternalError | NotInList | NotSupport

  /**
   * What the bundle manager answers: a uid's signature and bundle, where it has them, and the uids a
   * bundle has under the active users, negative where it has none.
   */
  datatype World = World(signature: map<int, string>, bundleOf: map<int, string>, uids: map<string, seq<int>>)

  datatype Validator = Validator(
    config: map<string, string>, verdicts: map<string, (int, bool)>, knownUids: map<string, int>)

  /** An install notice comes with the world as it is from then on; a change is one nobody is told of. */
  datatype Event =
    | Check(uid: int, bundle: string)
    | CheckName(bundle: string)
    | AddConfig(config: map<string, string>)
    | Install(bundle: string, world: World)
    | Change(world: World)

  // ----- without caches

  function FirstUid(uids: seq<int>): int {
    if |uids| == 0 then -1 else if uids[0] >= 0 then uids[0] else FirstUid(uids[1..])
  }

  function UidOf(w: World, bundle: string): int {
    if bundle in w.uids then FirstUid(w.uids[bundle]) else -1
  }

  function Verdict(valid: bool): CheckResult {
    if valid then CheckOk else SignatureNoMatch
  }

  function DirectCheck(config: map<string, string>, w: World, uid: int, bundle: string): CheckResult {
    if bundle !in config then NoSignatureConfig
    else if uid !in w.signature then InternalError
    else Verdict(w.signature[uid] == config[bundle])
  }

  function DirectCheckName(config: map<string, string>, w: World, bundle: string): CheckResult {
    if bundle == "" then ParamInvalid
    else if UidOf(w, bundle) < 0 then InternalError
    else DirectCheck(config, w, UidOf(w, bundle), bundle)
  }

  // ----- with caches

  function Remember(verdicts: map<string, (int, bool)>, bundle: string, uid: int, valid: bool)
    : map<string, (int, bool)>
  {
    (if |verdicts| >= MAX_SIGNATURE_CACHE then map[] else verdicts)[bundle := (uid, valid)]
  }

  predicate Cached(v: Validator, uid: int, bundle: string) {
    bundle in v.verdicts && v.verdicts[bundle].0 == uid
  }

  function CachedCheck(v: Validator, w: World, uid: int, bundle: string): CheckResult {
    if bundle !in v.config then NoSignatureConfig
    else if Cached(v, uid, bundle) then Verdict(v.verdicts[bundle].1)
    else DirectCheck(v.config, w, uid, bundle)
  }

  function AfterCheck(v: Validator, w: World, uid: int, bundle: string): Validator {
    if bundle !in v.config || Cached(v, uid, bundle) then v
    else
      var dropped := v.verdicts - {bundle};
      if uid !in w.signature then v.(verdicts := dropped)
      else v.(verdicts := Remember(dropped, bundle, uid, w.signature[uid] == v.config[bundle]))
  }

  function KnownUid(v: Validator, w: World, bundle: string): int {
    if bundle in v.knownUids && v.knownUids[bundle] >= 0 then v.knownUids[bundle] else UidOf(w, bundle)
  }

  function CachedCheckName(v: Validator, w: World, bundle: string): CheckResult {
    if bundle == "" then ParamInvalid
    else if KnownUid(v, w, bundle) < 0 then InternalError
    else CachedCheck(v, w, KnownUid(v, w, bundle), bundle)
  }

  function AfterCheckName(v: Validator, w: World, bundle: string): Validator {
    if bundle == "" || KnownUid(v, w, bundle) < 0 then v
    else
      var uid := KnownUid(v, w, bundle);
      AfterCheck(v.(knownUids := v.knownUids[bundle := uid]), w, uid, bundle)
  }

  function Step(v: Validator, w: World, e: Event): Validator {
    match e
    case Check(uid, bundle) => AfterCheck(v, w, uid, bundle)
    case CheckName(bundle) => AfterCheckName(v, w, bundle)
    case AddConfig(config) => v.(config := v.config + config, verdicts := v.verdicts - config.Keys)
    case Install(bundle, _) => v.(knownUids := v.knownUids - {bundle}, verdicts := v.verdicts - {bundle})
    case Change(_) => v
  }

  function Moved(w: World, e: Event): World {
    if e.Install? || e.Change? then e.world else w
  }

  function WorldAfter(w: World, es: seq<Event>): World {
    if |es| == 0 then w else Moved(WorldAfter(w, es[..|es| - 1]), es[|es| - 1])
  }

  function Run(w: World, es: seq<Event>): Validator {
    if |es| == 0 then Validator(map[], map[], map[])
    else Step(Run(w, es[..|es| - 1]), WorldAfter(w, es[..|es| - 1]), es[|es| - 1])
  }

  // ----- which world an answer is about

  /** The uid an event has checked for a bundle, if it is a check of that bundle that gets as far. */
  function Checked(v: Validator, w: World, e: Event, bundle: string): Option<int> {
    if e.Check? && e.bundle == bundle then Some(e.uid)
    else if e.CheckName? && e.bundle == bundle && bundle != "" then
      var uid := KnownUid(v, w, bundle);
      if uid >= 0 then Some(uid) else None
    else None
  }

  /** The world in which the verdict cached for a bundle was found: that of the last check the cache did not answer. */
  function FoundIn(w: World, es: seq<Event>, bundle: string): World {
    if |es| == 0 then w
    else
      var before := es[..|es| - 1];
      var v, now := Run(w, before), WorldAfter(w, before);
      var checked := Checked(v, now, es[|es| - 1], bundle);
      if checked.Some? && !Cached(v, checked.value, bundle) then now else FoundIn(w, before, bundle)
  }

  /** The world a check answers about after a run: if its verdict is cached, the one it was found in. */
  function AnswersAbout(w: World, es: seq<Event>, uid: int, bundle: string): World {
    if Cached(Run(w, es), uid, bundle) then FoundIn(w, es, bundle) else WorldAfter(w, es)
  }

  /** A cached verdict is what was found in that world, for a bundle still configured as it was. */
  ghost predicate FoundRight(v: Validator, bundle: string, found: World) {
    bundle in v.verdicts ==>
      var (uid, valid) := v.verdicts[bundle];
      bundle in v.config && uid in found.signature && (valid <==> found.signature[uid] == v.config[bundle])
  }

  lemma CheckFindsRight(v: Validator, w: World, uid: int, b: string, bundle: string, found: World)
    requires FoundRight(v, bundle, found)
    ensures FoundRight(AfterCheck(v, w, uid, b), bundle, if b == bundle && !Cached(v, uid, b) then w else found)
  {
  }

  lemma StepFindsRight(v: Validator, w: World, e: Event, bundle: string, found: World)
    requires FoundRight(v, bundle, found)
    ensures var checked := Checked(v, w, e, bundle);
      FoundRight(Step(v, w, e), bundle, if checked.Some? && !Cached(v, checked.value, bundle) then w else found)
  {
    match e
    case Check(uid, b) => CheckFindsRight(v, w, uid, b, bundle, found);
    case CheckName(b) =>
      if b != "" && KnownUid(v, w, b) >= 0 {
        var uid := KnownUid(v, w, b);
        CheckFindsRight(v.(knownUids := v.knownUids[b := uid]), w, uid, b, bundle, found);
      }
    case _ =>
  }

  lemma {:induction false} CachedIsWhatWasFound(w: World, es: seq<Event>, bundle: string)
    ensures FoundRight(Run(w, es), bundle, FoundIn(w, es, bundle))
  {
    if |es| > 0 {
      var before := es[..|es| - 1];
      CachedIsWhatWasFound(w, before, bundle);
      StepFindsRight(Run(w, before), WorldAfter(w, before), es[|es| - 1], bundle, FoundIn(w, before, bundle));
    }
  }

  /** Over every run: each check answers as a direct one does in the world its verdict was found in. */
  lemma {:induction false} ChecksAnswerAboutTheirWorld(w: World, es: seq<Event>, uid: int, bundle: string)
    ensures var v, about := Run(w, es), AnswersAbout(w, es, uid, bundle);
      CachedCheck(v, WorldAfter(w, es), uid, bundle) == DirectCheck(v.config, about, uid, bundle)
  {
    CachedIsWhatWasFound(w, es, bundle);
  }

  /** Two uids in two worlds look the same to a bundle: its configuration does not tell their signatures apart. */
  predicate Alike(config: map<string, string>, bundle: string, w: World, uid: int, w': World, uid': int) {
    bundle in config ==>
      && (uid in w.signature <==> uid' in w'.signature)
      && (uid in w.signature && uid' in w'.signature ==>
          (w.signature[uid] == config[bundle] <==> w'.signature[uid'] == config[bundle]))
  }

  /**
   * Over every run: a check is right exactly when it is not cached, or its uid still has a signature and that matches
   * the configuration if and only if the one found then did; so always when the signature is still the one found then.
   */
  lemma {:induction false} CheckIsRightExactly(w: World, es: seq<Event>, uid: int, bundle: string)
    ensures var v, now, found := Run(w, es), WorldAfter(w, es), FoundIn(w, es, bundle);
      CachedCheck(v, now, uid, bundle) == DirectCheck(v.config, now, uid, bundle)
      <==> (Cached(v, uid, bundle) ==>
        && bundle in v.config && uid in found.signature && uid in now.signature
        && (now.signature[uid] == v.config[bundle] <==> found.signature[uid] == v.config[bundle]))
    ensures var v, now, found := Run(w, es), WorldAfter(w, es), FoundIn(w, es, bundle);
      uid in found.signature && uid in now.signature && now.signature[uid] == found.signature[uid] ==>
      CachedCheck(v, now, uid, bundle) == DirectCheck(v.config, now, uid, bundle)
  {
    CachedIsWhatWasFound(w, es, bundle);
  }

  /** A check by name goes to the uid remembered for the name, which need not be the name's uid now. */
  lemma {:induction false} NameCheckIsRightExactly(w: World, es: seq<Event>, bundle: string)
    requires bundle != ""
    ensures var v, now := Run(w, es), WorldAfter(w, es);
      var known, uid := KnownUid(v, now, bundle), UidOf(now, bundle);
      var about := AnswersAbout(w, es, known, bundle);
      CachedCheckName(v, now, bundle) == DirectCheckName(v.config, now, bundle)
      <==> if known < 0 then uid < 0
        else if uid < 0 then bundle in v.config && known !in about.signature
        else Alike(v.config, bundle, about, known, now, uid)
  {
    var v, now := Run(w, es), WorldAfter(w, es);
    ChecksAnswerAboutTheirWorld(w, es, KnownUid(v, now, bundle), bundle);
  }

  // ----- when the caches are invisible

  ghost predicate Owns(w: World, uid: int, bundle: string) {
    uid in w.bundleOf && w.bundleOf[uid] == bundle
  }

  ghost predicate SameUid(w: World, w': World, uid: int) {
    && (uid in w.signature <==> uid in w'.signature)
    && (uid in w.signature ==> w.signature[uid] == w'.signature[uid])
    && (uid in w.bundleOf ==> uid in w'.bundleOf && w.bundleOf[uid] == w'.bundleOf[uid])
  }

  /** The uids of a bundle are its own. */
  ghost predicate Consistent(w: World) {
    forall b :: UidOf(w, b) >= 0 ==> Owns(w, UidOf(w, b), b)
  }

  /**
   * Checks pair a uid with its own bundle. The uids of a bundle keep owner and signature until an install notice of
   * it; which of them belong to active users may change at any time, as when users are switched.
   */
  ghost predicate LegalEvent(w: World, e: Event) {
    match e
    case Check(uid, bundle) => Owns(w, uid, bundle)
    case Install(bundle, w') =>
      Consistent(w') && forall uid, b :: Owns(w, uid, b) && b != bundle ==> SameUid(w, w', uid)
    case Change(w') => Consistent(w') && forall uid, b :: Owns(w, uid, b) ==> SameUid(w, w', uid)
    case _ => true
  }

  ghost predicate Legal(w: World, es: seq<Event>) {
    Consistent(w) && forall i :: 0 <= i < |es| ==> LegalEvent(WorldAfter(w, es[..i]), es[i])
  }

  /** Everything cached is what would be found now, and a remembered uid is still the bundle's own. */
  ghost predicate Sound(v: Validator, w: World) {
    && (forall b :: b in v.verdicts ==> SoundVerdict(v.config, w, b, v.verdicts[b].0, v.verdicts[b].1))
    && (forall b :: b in v.knownUids ==> v.knownUids[b] >= 0 && Owns(w, v.knownUids[b], b))
  }

  ghost predicate SoundVerdict(config: map<string, string>, w: World, bundle: string, uid: int, valid: bool) {
    && Owns(w, uid, bundle) && bundle in config && uid in w.signature
    && (valid <==> w.signature[uid] == config[bundle])
  }

  lemma CheckIsSound(v: Validator, w: World, uid: int, bundle: string)
    requires Sound(v, w) && Owns(w, uid, bundle)
    ensures Sound(AfterCheck(v, w, uid, bundle), w)
  {
    var next := AfterCheck(v, w, uid, bundle).verdicts;
    forall b | b in next ensures SoundVerdict(v.config, w, b, next[b].0, next[b].1) {
      if b != bundle {
        assert b in v.verdicts && next[b] == v.verdicts[b];
      }
    }
  }

  lemma ChangeIsSound(v: Validator, w: World, w': World)
    requires Sound(v, w) && LegalEvent(w, Change(w'))
    ensures Sound(v, w')
  {
    forall b | b in v.verdicts ensures SoundVerdict(v.config, w', b, v.verdicts[b].0, v.verdicts[b].1) {
      assert Owns(w, v.verdicts[b].0, b) && SameUid(w, w', v.verdicts[b].0);
    }
    forall b | b in v.knownUids ensures Owns(w', v.knownUids[b], b) {
      assert Owns(w, v.knownUids[b], b) && SameUid(w, w', v.knownUids[b]);
    }
  }

  lemma InstallIsSound(v: Validator, w: World, bundle: string, w': World)
    requires Sound(v, w) && LegalEvent(w, Install(bundle, w'))
    ensures Sound(Step(v, w, Install(bundle, w')), w')
  {
    var next := Step(v, w, Install(bundle, w'));
    forall b | b in next.verdicts ensures SoundVerdict(v.config, w', b, next.verdicts[b].0, next.verdicts[b].1) {
      assert b in v.verdicts && Owns(w, v.verdicts[b].0, b) && SameUid(w, w', v.verdicts[b].0);
    }
    forall b | b in next.knownUids ensures Owns(w', next.knownUids[b], b) {
      assert b in v.knownUids && Owns(w, v.knownUids[b], b) && SameUid(w, w', v.knownUids[b]);
    }
  }

  lemma ConfigIsSound(v: Validator, w: World, config: map<string, string>)
    requires Sound(v, w)
    ensures Sound(Step(v, w, AddConfig(config)), w)
  {
    var next := Step(v, w, AddConfig(config));
    forall b | b in next.verdicts ensures SoundVerdict(next.config, w, b, next.verdicts[b].0, next.verdicts[b].1) {
      assert b in v.verdicts && b !in config;
    }
  }

  lemma StepIsSound(v: Validator, w: World, e: Event)
    requires Sound(v, w) && Consistent(w) && LegalEvent(w, e)
    ensures Sound(Step(v, w, e), Moved(w, e))
  {
    match e
    case Check(uid, bundle) => CheckIsSound(v, w, uid, bundle);
    case CheckName(bundle) =>
      var uid := KnownUid(v, w, bundle);
      if uid >= 0 {
        var named := v.(knownUids := v.knownUids[bundle := uid]);
        assert Owns(w, uid, bundle) && Sound(named, w);
        CheckIsSound(named, w, uid, bundle);
      }
    case AddConfig(config) => ConfigIsSound(v, w, config);
    case Install(bundle, w') => InstallIsSound(v, w, bundle, w');
    case Change(w') => ChangeIsSound(v, w, w');
  }

  /** The caches always hold what a fresh look would find, over every legal run. */
  lemma {:induction false} RunIsSound(w: World, es: seq<Event>)
    requires Legal(w, es)
    ensures Sound(Run(w, es), WorldAfter(w, es)) && Consistent(WorldAfter(w, es))
  {
    if |es| > 0 {
      var before := es[..|es| - 1];
      assert forall i :: 0 <= i < |before| ==> before[..i] == es[..i] && before[i] == es[i];
      RunIsSound(w, before);
      assert LegalEvent(WorldAfter(w, before), es[|es| - 1]);
      StepIsSound(Run(w, before), WorldAfter(w, before), es[|es| - 1]);
    }
  }

  /**
   * After any legal run, user switches included, a check of a uid and its bundle answers what it would without the
   * caches; and so does a check by name, exactly when the uid remembered for the name does as well as the name's
   * uid now.
   */
  lemma {:induction false} ChecksAreUncached(w: World, es: seq<Event>, uid: int, bundle: string)
    requires Legal(w, es)
    ensures var v, now := Run(w, es), WorldAfter(w, es);
      Owns(now, uid, bundle) ==> CachedCheck(v, now, uid, bundle) == DirectCheck(v.config, now, uid, bundle)
    ensures var v, now := Run(w, es), WorldAfter(w, es);
      CachedCheckName(v, now, bundle) == DirectCheckName(v.config, now, bundle) <==> NameStillGood(v, now, bundle)
  {
    RunIsSound(w, es);
  }

  /** What a check of this uid and bundle should say, from the configuration and the world alone. */
  predicate RightAnswer(config: map<string, string>, w: World, uid: int, bundle: string, r: CheckResult) {
    && (r.CheckOk? <==> bundle in config && uid in w.signature && config[bundle] == w.signature[uid])
    && (r.SignatureNoMatch? <==> bundle in config && uid in w.signature && config[bundle] != w.signature[uid])
    && (r.InternalError? <==> bundle in config && uid !in w.signature)
    && (r.NoSignatureConfig? <==> bundle !in config)
  }

  /** Over every legal run: a check of a uid and its bundle gives the right answer, cached or not. */
  lemma {:induction false} ChecksAnswerRight(w: World, es: seq<Event>, uid: int, bundle: string)
    requires Legal(w, es) && Owns(WorldAfter(w, es), uid, bundle)
    ensures var v, now := Run(w, es), WorldAfter(w, es);
      RightAnswer(v.config, now, uid, bundle, CachedCheck(v, now, uid, bundle))
  {
    RunIsSound(w, es);
  }

  /** The configuration is what was added, later entries winning. */
  function Configured(es: seq<Event>, bundle: string): Option<string> {
    if |es| == 0 then None
    else
      var e := es[|es| - 1];
      if e.AddConfig? && bundle in e.config then Some(e.config[bundle]) else Configured(es[..|es| - 1], bundle)
  }

  lemma {:induction false} ConfigIsWhatWasAdded(w: World, es: seq<Event>, bundle: string)
    ensures var config := Run(w, es).config;
      (bundle in config) == Configured(es, bundle).Some?
      && (bundle in config ==> Configured(es, bundle) == Some(config[bundle]))
  {
    if |es| > 0 {
      ConfigIsWhatWasAdded(w, es[..|es| - 1], bundle);
    }
  }

  /** A uid is the active users' first for a bundle: it is among them, and those before it are negative. */
  ghost predicate IsFirst(uids: seq<int>, uid: int) {
    exists i :: 0 <= i < |uids| && uids[i] == uid >= 0 && forall j :: 0 <= j < i ==> uids[j] < 0
  }

  lemma {:induction false} FirstUidIsFirst(uids: seq<int>)
    ensures FirstUid(uids) >= 0 ==> IsFirst(uids, FirstUid(uids))
    ensures FirstUid(uids) < 0 ==> forall i :: 0 <= i < |uids| ==> uids[i] < 0
  {
    if |uids| > 0 && uids[0] < 0 {
      FirstUidIsFirst(uids[1..]);
      assert forall i :: 1 <= i < |uids| ==> uids[i] == uids[1..][i - 1];
      if FirstUid(uids) >= 0 {
        var i :| 0 <= i < |uids[1..]| && uids[1..][i] == FirstUid(uids) && forall j :: 0 <= j < i ==> uids[1..][j] < 0;
        assert uids[i + 1] == FirstUid(uids);
      }
    }
  }

  /**
   * Over every legal run without switches: a check by name is refused for an empty name, fails when no active user has
   * the bundle, and else gives the right answer for the first active user's uid.
   */
  lemma {:induction false} NameChecksAnswerRight(w: World, es: seq<Event>, bundle: string)
    requires Legal(w, es) && NoSwitch(w, es)
    ensures var v, now := Run(w, es), WorldAfter(w, es);
      var r, uids := CachedCheckName(v, now, bundle), if bundle in now.uids then now.uids[bundle] else [];
      && (r.ParamInvalid? <==> bundle == "")
      && (bundle != "" && (forall i :: 0 <= i < |uids| ==> uids[i] < 0) ==> r.InternalError?)
      && (bundle != "" && !(forall i :: 0 <= i < |uids| ==> uids[i] < 0) ==>
        exists uid :: IsFirst(uids, uid) && RightAnswer(v.config, now, uid, bundle, r))
  {
    NameChecksAreUncachedWithoutSwitches(w, es, bundle);
    var now := WorldAfter(w, es);
    var uids := if bundle in now.uids then now.uids[bundle] else [];
    FirstUidIsFirst(uids);
    assert UidOf(now, bundle) == FirstUid(uids) || (UidOf(now, bundle) < 0 && uids == []);
    if bundle != "" && FirstUid(uids) >= 0 {
      var v, uid := Run(w, es), FirstUid(uids);
      assert CachedCheckName(v, now, bundle) == DirectCheck(v.config, now, uid, bundle);
      assert IsFirst(uids, uid) && RightAnswer(v.config, now, uid, bundle, DirectCheck(v.config, now, uid, bundle));
    }
  }

  /** No other uid is remembered for the name, or the bundle's configuration does not tell the two apart. */
  predicate NameStillGood(v: Validator, w: World, bundle: string) {
    bundle != "" && bundle in v.knownUids && v.knownUids[bundle] != UidOf(w, bundle) ==>
      var known, uid := v.knownUids[bundle], UidOf(w, bundle);
      if uid < 0 then bundle in v.config && known !in w.signature
      else Alike(v.config, bundle, w, known, w, uid)
  }

  /** The active users' uid of each bundle stays, but for the bundle of an install notice. */
  ghost predicate KeepsUids(w: World, e: Event) {
    forall b :: (e.Install? && e.bundle == b) || UidOf(Moved(w, e), b) == UidOf(w, b)
  }

  ghost predicate NoSwitch(w: World, es: seq<Event>) {
    forall i :: 0 <= i < |es| ==> KeepsUids(WorldAfter(w, es[..i]), es[i])
  }

  ghost predicate Named(v: Validator, w: World, bundle: string) {
    bundle in v.knownUids ==> v.knownUids[bundle] == UidOf(w, bundle) >= 0
  }

  lemma StepKeepsNamed(v: Validator, w: World, e: Event, bundle: string)
    requires Named(v, w, bundle) && KeepsUids(w, e)
    ensures Named(Step(v, w, e), Moved(w, e), bundle)
  {
  }

  /** Without switches a remembered uid is the name's uid, so checks by name are as good as uncached, too. */
  lemma {:induction false} NameChecksAreUncachedWithoutSwitches(w: World, es: seq<Event>, bundle: string)
    requires Legal(w, es) && NoSwitch(w, es)
    ensures var v, now := Run(w, es), WorldAfter(w, es);
      Named(v, now, bundle) && CachedCheckName(v, now, bundle) == DirectCheckName(v.config, now, bundle)
  {
    if |es| > 0 {
      var before := es[..|es| - 1];
      assert forall i :: 0 <= i < |before| ==> before[..i] == es[..i] && before[i] == es[i];
      NameChecksAreUncachedWithoutSwitches(w, before, bundle);
      StepKeepsNamed(Run(w, before), WorldAfter(w, before), es[|es| - 1], bundle);
    }
    ChecksAreUncached(w, es, 0, bundle);
  }

  lemma CheckIsBounded(v: Validator, w: World, uid: int, bundle: string)
    requires |v.verdicts| <= 200
    ensures |AfterCheck(v, w, uid, bundle).verdicts| <= 200
  {
    SmallerMap(v.verdicts, {bundle});
  }

  /** The verdict cache never outgrows its limit, legal run or not. */
  lemma {:induction false} CacheIsBounded(w: World, es: seq<Event>)
    ensures |Run(w, es).verdicts| <= 200
  {
    if |es| > 0 {
      var v, now := Run(w, es[..|es| - 1]), WorldAfter(w, es[..|es| - 1]);
      CacheIsBounded(w, es[..|es| - 1]);
      match es[|es| - 1]
      case Check(uid, b) => CheckIsBounded(v, now, uid, b);
      case CheckName(b) =>
        var uid := KnownUid(v, now, b);
        CheckIsBounded(v.(knownUids := v.knownUids[b := uid]), now, uid, b);
      case AddConfig(c) => SmallerMap(v.verdicts, c.Keys);
      case Install(b, _) => SmallerMap(v.verdicts, {b});
      case Change(_) =>
    }
  }

  /**
   * A check of a configured bundle, of a uid with a signature, leaves a verdict for that uid; the verdicts of other
   * bundles go only when the cache, without the one replaced, is full with 200.
   */
  lemma CheckLeavesVerdict(v: Validator, w: World, uid: int, bundle: string)
    requires bundle in v.config && uid in w.signature
    ensures var after := AfterCheck(v, w, uid, bundle).verdicts;
      && bundle in after && after[bundle].0 == uid
      && (Cached(v, uid, bundle) || |v.verdicts - {bundle}| < 200 ==> after - {bundle} == v.verdicts - {bundle})
  {
    if !Cached(v, uid, bundle) {
      Replaced(v.verdicts, bundle, (uid, w.signature[uid] == v.config[bundle]));
    }
  }

  lemma Replaced<K, V>(m: map<K, V>, k: K, x: V)
    ensures (m - {k})[k := x] - {k} == m - {k}
  {
  }

  lemma SmallerMap<K, V>(m: map<K, V>, keys: set<K>)
    ensures |m - keys| <= |m|
  {
    assert (m - keys).Keys == m.Keys - keys;
    assert m.Keys == (m.Keys - keys) + (m.Keys * keys);
    assert |m - keys| == |(m - keys).Keys| && |m| == |m.Keys|;
  }

  /**
   * A change nobody is told of leaves all checks right exactly when each cached verdict would come out the same; a
   * signature that appears, or one that is not cached, does no harm.
   */
  lemma ChangeIsHarmlessExactly(v: Validator, w: World, w': World)
    requires Sound(v, w)
    ensures (forall uid, b :: CachedCheck(v, w', uid, b) == DirectCheck(v.config, w', uid, b))
      <==> forall b :: b in v.verdicts ==>
        var uid := v.verdicts[b].0;
        uid in w'.signature && (w'.signature[uid] == v.config[b] <==> w.signature[uid] == v.config[b])
  {
    if forall uid, b :: CachedCheck(v, w', uid, b) == DirectCheck(v.config, w', uid, b) {
      forall b | b in v.verdicts
        ensures var uid := v.verdicts[b].0;
          uid in w'.signature && (w'.signature[uid] == v.config[b] <==> w.signature[uid] == v.config[b])
      {
        var uid := v.verdicts[b].0;
        assert SoundVerdict(v.config, w, b, uid, v.verdicts[b].1);
        assert CachedCheck(v, w', uid, b) == DirectCheck(v.config, w', uid, b);
      }
    }
  }

  lemma ThreeEvents(w: World, a: Event, b: Event, c: Event)
    ensures var v1 := Step(Validator(map[], map[], map[]), w, a);
      var v2 := Step(v1, Moved(w, a), b);
      && Run(w, [a, b, c]) == Step(v2, Moved(Moved(w, a), b), c)
      && WorldAfter(w, [a, b, c]) == Moved(Moved(Moved(w, a), b), c)
      && WorldAfter(w, [a, b, c][..0]) == w && WorldAfter(w, [a, b, c][..1]) == Moved(w, a)
      && WorldAfter(w, [a, b, c][..2]) == Moved(Moved(w, a), b)
  {
    var none: seq<Event>, one, two, three := [], [a], [a, b], [a, b, c];
    assert one[..0] == none && two[..1] == one && three[..2] == two && three[..1] == one && three[..0] == none;
    assert Run(w, one) == Step(Run(w, none), w, a) && WorldAfter(w, one) == Moved(w, a);
    assert Run(w, two) == Step(Run(w, one), Moved(w, a), b) && WorldAfter(w, two) == Moved(Moved(w, a), b);
  }

  /** Configure, check, let the signature change unannounced, and check again: the old answer comes back. */
  lemma SilentChangeIsMissed()
    ensures exists w: World, es: seq<Event>, uid, bundle ::
      && CachedCheck(Run(w, es), WorldAfter(w, es), uid, bundle) == CheckOk
      && DirectCheck(Run(w, es).config, WorldAfter(w, es), uid, bundle) == SignatureNoMatch
  {
    var w := World(map[5 := "s"], map[5 := "b"], map[]);
    var w' := w.(signature := map[5 := "t"]);
    var es := [AddConfig(map["b" := "s"]), Check(5, "b"), Change(w')];
    ThreeEvents(w, es[0], es[1], es[2]);
    var v := Run(w, es);
    assert v.config["b"] == "s" && v.verdicts == map["b" := (5, true)] && WorldAfter(w, es) == w';
    assert "t"[0] != "s"[0];
    assert Consistent(w);
    assert CachedCheck(v, w', 5, "b") == CheckOk && DirectCheck(v.config, w', 5, "b") == SignatureNoMatch;
  }

  /** A bundle with two uids of different signatures, one of which is the active user's. */
  function UserWorld(uid: int): World {
    World(map[5 := "s", 6 := "t"], map[5 := "b", 6 := "b"], map["b" := [uid]])
  }

  lemma UserWorldNames(uid: int)
    requires uid == 5 || uid == 6
    ensures Consistent(UserWorld(uid)) && UidOf(UserWorld(uid), "b") == uid
  {
    assert FirstUid([uid]) == uid;
  }

  function SwitchRun(): seq<Event> {
    [AddConfig(map["b" := "s"]), CheckName("b"), Change(UserWorld(6))]
  }

  lemma SwitchRunIsLegal()
    ensures Legal(UserWorld(5), SwitchRun())
  {
    var es := SwitchRun();
    UserWorldNames(5);
    UserWorldNames(6);
    ThreeEvents(UserWorld(5), es[0], es[1], es[2]);
    assert LegalEvent(UserWorld(5), es[2]);
  }

  lemma SwitchRunCaches()
    ensures Run(UserWorld(5), SwitchRun()) == Validator(map["b" := "s"], map["b" := (5, true)], map["b" := 5])
    ensures WorldAfter(UserWorld(5), SwitchRun()) == UserWorld(6)
  {
    var es, config := SwitchRun(), map["b" := "s"];
    var configured, checked := Validator(config, map[], map[]), Validator(config, map["b" := (5, true)], map["b" := 5]);
    UserWorldNames(5);
    ThreeEvents(UserWorld(5), es[0], es[1], es[2]);
    assert Step(Validator(map[], map[], map[]), UserWorld(5), es[0]) == configured;
    assert Step(configured, UserWorld(5), es[1]) == checked;
  }

  /**
   * Configure, check by name, switch to a user under whom the name has another uid with another signature, and check
   * by name again: every signature and owner is as before, and still the first user's answer comes back.
   */
  lemma SwitchIsMissed()
    ensures exists w: World, es: seq<Event>, bundle ::
      && Legal(w, es)
      && CachedCheckName(Run(w, es), WorldAfter(w, es), bundle) == CheckOk
      && DirectCheckName(Run(w, es).config, WorldAfter(w, es), bundle) == SignatureNoMatch
  {
    var w, es := UserWorld(5), SwitchRun();
    UserWorldNames(6);
    SwitchRunIsLegal();
    SwitchRunCaches();
    assert "t"[0] != "s"[0];
    assert CachedCheckName(Run(w, es), WorldAfter(w, es), "b") == CheckOk;
    assert DirectCheckName(Run(w, es).config, WorldAfter(w, es), "b") == SignatureNoMatch;
  }

  // ----- the validator

  class SignatureValidator {
    var hasBundleMgr: bool
    var signatureConfig: map<string, string>
    var validCache: map<string, (int, bool)>
    var bundleNameToUid: map<string, int>

    ghost function View(): Validator
      reads this
    {
      Validator(signatureConfig, validCache, bundleNameToUid)
    }

    constructor ()
      ensures View() == Validator(map[], map[], map[]) && !hasBundleMgr
    {
      hasBundleMgr, signatureConfig, validCache, bundleNameToUid := false, map[], map[], map[];
    }

    method OnAppInstallChanged(bundle: string)
      modifies this`bundleNameToUid, this`validCache
      ensures forall w, w' :: View() == Step(old(View()), w, Install(bundle, w'))
    {
      bundleNameToUid := bundleNameToUid - {bundle};
      validCache := validCache - {bundle};
    }

    method CheckSignatureByBundleName(bundle: string, w: World) returns (r: CheckResult)
      modifies this`bundleNameToUid, this`validCache
      ensures r == if hasBundleMgr then CachedCheckName(old(View()), w, bundle) else NotSupport
      ensures View() == if hasBundleMgr then Step(old(View()), w, CheckName(bundle)) else old(View())
    {
      if !hasBundleMgr {
        return NotSupport;
      }
      if bundle == "" {
        return ParamInvalid;
      }
      var uid := -1;
      if bundle in bundleNameToUid {
        uid := bundleNameToUid[bundle];
      }
      if uid < 0 {
        uid := FindUid(if bundle in w.uids then w.uids[bundle] else []);
        if uid >= 0 {
          bundleNameToUid := bundleNameToUid[bundle := uid];
        }
      }
      if uid < 0 {
        return InternalError;
      }
      assert bundleNameToUid == old(bundleNameToUid)[bundle := uid];
      r := CheckSignature(uid, bundle, w);
    }

    /** The loop over the active users, stopping at the first that has the bundle. */
    method FindUid(uids: seq<int>) returns (uid: int)
      ensures uid == FirstUid(uids) || (uid < 0 && FirstUid(uids) < 0)
    {
      uid := -1;
      var n := 0;
      while n < |uids|
        invariant 0 <= n <= |uids| && uid < 0
        invariant FirstUid(uids) == FirstUid(uids[n..])
      {
        uid := uids[n];
        if uid >= 0 {
          return;
        }
        assert uids[n..][1..] == uids[n + 1..];
        n := n + 1;
      }
    }

    /** The bundle manager names the uid's bundle, or nothing. */
    method CheckSignatureByUid(uid: int, w: World) returns (r: CheckResult)
      modifies this`validCache
      ensures var bundle := if uid in w.bundleOf then w.bundleOf[uid] else "";
        && r == (if !hasBundleMgr then NotSupport else if bundle == "" then InternalError
                 else CachedCheck(old(View()), w, uid, bundle))
        && View() == if hasBundleMgr && bundle != "" then Step(old(View()), w, Check(uid, bundle)) else old(View())
    {
      if !hasBundleMgr {
        return NotSupport;
      }
      var bundle := if uid in w.bundleOf then w.bundleOf[uid] else "";
      if bundle == "" {
        return InternalError;
      }
      r := CheckSignature(uid, bundle, w);
    }

    method CheckBundleInList(whiteList: seq<string>, bundle: string, w: World) returns (r: CheckResult)
      modifies this`bundleNameToUid, this`validCache
      ensures var listed := bundle != "" && bundle in whiteList;
        && r == (if !listed then NotInList
                 else if hasBundleMgr then CachedCheckName(old(View()), w, bundle) else NotSupport)
        && View() == if listed && hasBundleMgr then Step(old(View()), w, CheckName(bundle)) else old(View())
    {
      if whiteList == [] || bundle == "" {
        return NotInList;
      }
      if bundle in whiteList {
        r := CheckSignatureByBundleName(bundle, w);
      } else {
        return NotInList;
      }
    }

    method CheckSignatureCache(bundle: string, uid: int) returns (valid: Option<bool>)
      modifies this`validCache
      ensures valid == if Cached(old(View()), uid, bundle) then Some(old(validCache)[bundle].1) else None
      ensures validCache == if valid.Some? then old(validCache) else old(validCache) - {bundle}
    {
      if bundle !in validCache {
        return None;
      }
      if validCache[bundle].0 == uid {
        return Some(validCache[bundle].1);
      }
      validCache := validCache - {bundle};
      return None;
    }

    method UpdateSignatureCache(bundle: string, uid: int, valid: bool)
      modifies this`validCache
      ensures validCache == Remember(old(validCache), bundle, uid, valid)
      ensures bundle in validCache && validCache[bundle] == (uid, valid)
      ensures validCache - {bundle} == if |old(validCache)| >= 200 then map[] else old(validCache) - {bundle}
    {
      if |validCache| >= MAX_SIGNATURE_CACHE {
        validCache := map[];
      }
      validCache := validCache[bundle := (uid, valid)];
    }

    method CheckSignature(uid: int, bundle: string, w: World) returns (r: CheckResult)
      modifies this`validCache
      ensures r == if hasBundleMgr then CachedCheck(old(View()), w, uid, bundle) else NotSupport
      ensures r.NotSupport? <==> !hasBundleMgr
      ensures hasBundleMgr && (Cached(old(View()), uid, bundle) ==>
          && bundle in signatureConfig && uid in w.signature
          && (old(validCache)[bundle].1 <==> w.signature[uid] == signatureConfig[bundle])) ==>
        && (r.CheckOk? <==>
          bundle in signatureConfig && uid in w.signature && signatureConfig[bundle] == w.signature[uid])
        && (r.SignatureNoMatch? <==>
          bundle in signatureConfig && uid in w.signature && signatureConfig[bundle] != w.signature[uid])
        && (r.InternalError? <==> bundle in signatureConfig && uid !in w.signature)
        && (r.NoSignatureConfig? <==> bundle !in signatureConfig)
      ensures View() == if hasBundleMgr then AfterCheck(old(View()), w, uid, bundle) else old(View())
    {
      if !hasBundleMgr {
        return NotSupport;
      }
      if bundle !in signatureConfig {
        return NoSignatureConfig;
      }
      var signature := signatureConfig[bundle];
      var cached := CheckSignatureCache(bundle, uid);
      if cached.Some? {
        return if cached.value then CheckOk else SignatureNoMatch;
      }
      if uid !in w.signature {
        return InternalError;
      }
      var isValid := w.signature[uid] == signature;
      UpdateSignatureCache(bundle, uid, isValid);
      return if isValid then CheckOk else SignatureNoMatch;
    }

    method AddSignatureConfig(config: map<string, string>)
      modifies this`signatureConfig, this`validCache
      ensures forall w :: View() == Step(old(View()), w, AddConfig(config))
    {
      var todo := config.Keys;
      NothingVisited(config.Keys);
      while todo != {}
        invariant todo <= config.Keys
        invariant signatureConfig == old(signatureConfig) + Part(config, config.Keys - todo)
        invariant validCache == old(validCache) - (config.Keys - todo)
        decreases |todo|
      {
        ghost var some := Member(todo);
        var key :| key in todo;
        Visited(config.Keys, todo, key);
        OneMoreKey(old(signatureConfig), old(validCache), config, config.Keys - todo, key);
        todo := todo - {key};
        signatureConfig := signatureConfig[key := config[key]];
        validCache := validCache - {key};
      }
      assert Part(config, config.Keys) == config;
    }
  }

  function Part(m: map<string, string>, keys: set<string>): map<string, string> {
    map k | k in m && k in keys :: m[k]
  }

  lemma OneMoreKey<V>(m: map<string, string>, cache: map<string, V>, config: map<string, string>,
      done: set<string>, key: string)
    requires key in config && key !in done
    ensures (m + Part(config, done))[key := config[key]] == m + Part(config, done + {key})
    ensures cache - done - {key} == cache - (done + {key})
  {
  }
}
