/**
 * What a dispatch calls, by name: the class and the action of a round, what a forward changes,
 * and which instance a class has.
 */
module DispatchNames {
  import opened Text
  import opened Container
  import opened Dispatcher

  // ---------------------------------------------------------------- the names

  /** A name that PHP takes for one: neither empty nor the string of the digit zero. */
  predicate Given(name: string) {
    name != "" && name != "0"
  }

  /** The handler's name without the separator it may begin with. */
  ghost predicate Bare(handler: string, bare: string) {
    handler == "\\" + bare || (handler == bare && (bare == "" || bare[0] != '\\'))
  }

  /** A namespace without the separator it may end with. */
  ghost predicate Stem(ns: string, stem: string) {
    ns == stem + "\\" || (ns == stem && (stem == "" || stem[|stem| - 1] != '\\'))
  }

  /** The class of a handler in a namespace: the two joined by one separator, and the suffix. */
  ghost predicate NamesClass(cls: string, ns: string, handler: string, suffix: string) {
    exists bare :: Bare(handler, bare) &&
      if Given(ns) then exists stem :: Stem(ns, stem) && cls == stem + "\\" + bare + suffix
      else cls == bare + suffix
  }

  lemma HandlerClassIs(cfg: Config, ns: string, handler: string)
    ensures NamesClass(HandlerClass(cfg, ns, handler), ns, handler, cfg.handlerSuffix)
  {
    var bare := if handler != "" && handler[0] == '\\' then handler[1..] else handler;
    assert Bare(handler, bare);
    if Given(ns) {
      var stem := if ns[|ns| - 1] == '\\' then ns[..|ns| - 1] else ns;
      assert Stem(ns, stem);
      assert HandlerClass(cfg, ns, handler) == stem + "\\" + bare + cfg.handlerSuffix;
    }
  }

  /** The description determines the class. */
  lemma ClassIsUnique(cls: string, other: string, ns: string, handler: string, suffix: string)
    requires NamesClass(cls, ns, handler, suffix) && NamesClass(other, ns, handler, suffix)
    ensures cls == other
  {
    BareIsUnique(handler);
    StemIsUnique(ns);
  }

  lemma BareIsUnique(handler: string)
    ensures forall a, b :: Bare(handler, a) && Bare(handler, b) ==> a == b
  {
    forall a, b | Bare(handler, a) && Bare(handler, b)
      ensures a == b
    {
      if handler == "\\" + a {
        assert handler[0] == '\\' && handler[1..] == a;
      }
      if handler == "\\" + b {
        assert handler[0] == '\\' && handler[1..] == b;
      }
    }
  }

  lemma StemIsUnique(ns: string)
    ensures forall a, b :: Stem(ns, a) && Stem(ns, b) ==> a == b
  {
    forall a, b | Stem(ns, a) && Stem(ns, b)
      ensures a == b
    {
      if ns == a + "\\" {
        assert ns[|ns| - 1] == '\\' && ns[..|ns| - 1] == a;
      }
      if ns == b + "\\" {
        assert ns[|ns| - 1] == '\\' && ns[..|ns| - 1] == b;
      }
    }
  }

  /** Cut at its last separator, the class is the namespace and the handler with its suffix. */
  lemma ClassIsCutAtItsLastSeparator(cls: string, ns: string, handler: string, suffix: string, at: nat)
    requires NamesClass(cls, ns, handler, suffix) && Given(ns)
    requires '\\' !in suffix && forall bare :: Bare(handler, bare) ==> '\\' !in bare
    requires at < |cls| && cls[at] == '\\' && '\\' !in cls[at + 1..]
    ensures Stem(ns, cls[..at])
    ensures exists bare :: Bare(handler, bare) && cls[at + 1..] == bare + suffix
  {
    var bare, stem :| Bare(handler, bare) && Stem(ns, stem) && cls == stem + "\\" + bare + suffix;
    var rest := bare + suffix;
    assert cls == stem + "\\" + rest && '\\' !in rest;
    assert cls[|stem|] == '\\' && cls[|stem| + 1..] == rest;
    forall k | |stem| < k < |cls|
      ensures cls[k] != '\\'
    {
      assert cls[k] == rest[k - |stem| - 1];
    }
    forall k | at < k < |cls|
      ensures cls[k] != '\\'
    {
      assert cls[k] == cls[at + 1..][k - at - 1];
    }
    assert cls[..|stem|] == stem;
  }

  /** The name a round goes by: what is set, or else the default. */
  predicate GoesBy(name: string, wanted: string, default: string) {
    name == if Given(wanted) then wanted else default
  }

  /** A class for the namespace and the handler that are set, or their defaults. */
  ghost predicate IsClassOf(cfg: Config, s: State, cls: string) {
    exists ns, handler ::
      && GoesBy(ns, s.namespaceName, cfg.defaultNamespace)
      && GoesBy(handler, s.handlerName, cfg.defaultHandler)
      && NamesClass(cls, ns, handler, cfg.handlerSuffix)
  }

  // ------------------------------------------------------- what a round calls

  /** Of the events that were added, those that show a class or an action show these. */
  ghost predicate Shows(before: seq<Event>, after: seq<Event>, cls: string, action: string) {
    && before <= after
    && forall i :: |before| <= i < |after| ==>
         && (after[i].Initialized? ==> after[i].cls == cls)
         && (after[i].Invoked? ==> after[i].cls == cls && after[i].action == action)
  }

  lemma ShowsBoth(a: seq<Event>, b: seq<Event>, c: seq<Event>, cls: string, action: string)
    requires Shows(a, b, cls, action) && Shows(b, c, cls, action)
    ensures Shows(a, c, cls, action)
  {
  }

  lemma QuietShows(script: Script, s: State, f: Flow, cls: string, action: string)
    requires Quiet(script, s, f, false)
    ensures Shows(s.trace, f.st.trace, cls, action)
  {
  }

  lemma InitializeShows(cfg: Config, script: Script, s: State, h: Handler, cls: string, action: string)
    ensures Shows(s.trace, Initialize(cfg, script, s, h, cls).st.trace, cls, action)
  {
    hide Quiet, FireIfManaged, CallInitialize, Shows;
    var before := FireIfManaged(cfg, script, s, BeforeInitialize);
    QuietShows(script, s, before, cls, action);
    if before.Next? {
      CallInitializeShows(script, before.st, h, cls, action);
      var called := CallInitialize(script, before.st, h, cls);
      ShowsBoth(s.trace, before.st.trace, called.st.trace, cls, action);
      if called.Next? || called.Skip? {
        var after := FireIfManaged(cfg, script, called.st, AfterInitialize);
        QuietShows(script, called.st, after, cls, action);
        ShowsBoth(s.trace, called.st.trace, after.st.trace, cls, action);
      }
    }
  }

  lemma CallInitializeShows(script: Script, s: State, h: Handler, cls: string, action: string)
    ensures Shows(s.trace, CallInitialize(script, s, h, cls).st.trace, cls, action)
  {
    hide React, Quiet;
  }

  lemma ApproachShows(cfg: Config, script: Script, s: State, h: Handler, cls: string, action: string)
    ensures Shows(s.trace, Approach(cfg, script, s, h, cls, action).st.trace, cls, action)
  {
    hide Quiet, Announce, Initialize, CheckParams, Shows;
    var announced := Announce(cfg, script, s, h, action);
    QuietShows(script, s, announced, cls, action);
    if announced.Next? {
      var made := if s.di.freshInstance then Initialize(cfg, script, announced.st, h, cls) else Next(announced.st);
      if s.di.freshInstance {
        InitializeShows(cfg, script, announced.st, h, cls, action);
        ShowsBoth(s.trace, announced.st.trace, made.st.trace, cls, action);
      }
      if made.Next? {
        var checked := CheckParams(script, made.st);
        QuietShows(script, made.st, checked, cls, action);
        ShowsBoth(s.trace, made.st.trace, checked.st.trace, cls, action);
      }
    }
  }

  lemma InvokeShows(script: Script, s: State, h: Handler, cls: string, action: string)
    ensures Shows(s.trace, Invoke(script, s, h, cls, action).st.trace, cls, action)
  {
    InvokeIsSeen(script, s, h, cls, action);
  }

  /** The class and the action a round goes for. */
  ghost predicate GoesFor(cfg: Config, s: State, cls: string, action: string) {
    && IsClassOf(cfg, s, cls)
    && exists name :: GoesBy(name, s.actionName, cfg.defaultAction) && action == name + cfg.actionSuffix
  }

  lemma RoundGoesFor(cfg: Config, s: State)
    ensures var start := StartRound(cfg, s);
      GoesFor(cfg, s, HandlerClass(cfg, start.namespaceName, start.handlerName), start.actionName + cfg.actionSuffix)
  {
    var start := StartRound(cfg, s);
    HandlerClassIs(cfg, start.namespaceName, start.handlerName);
    hide HandlerClass, NamesClass;
    assert GoesBy(start.namespaceName, s.namespaceName, cfg.defaultNamespace);
    assert GoesBy(start.handlerName, s.handlerName, cfg.defaultHandler);
    assert GoesBy(start.actionName, s.actionName, cfg.defaultAction);
  }

  /**
   * What a round initializes and invokes: the class named by the namespace and the handler that
   * are set when it starts, or their defaults, and the action that is set, or its default, each
   * with its suffix.  Nothing that happens in the round changes that.
   */
  lemma RoundCallsWhatIsSet(cfg: Config, script: Script, s: State)
    ensures exists cls, action ::
              GoesFor(cfg, s, cls, action) && Shows(s.trace, Round(cfg, script, s).st.trace, cls, action)
  {
    hide Quiet, Prepare, Approach, Invoke, AfterExecute, HandlerClass, Shows, GoesFor;
    RoundGoesFor(cfg, s);
    var start := StartRound(cfg, s);
    var cls := HandlerClass(cfg, start.namespaceName, start.handlerName);
    var action := start.actionName + cfg.actionSuffix;
    var prepared := Prepare(cfg, script, start, cls);
    QuietShows(script, start, prepared, cls, action);
    if prepared.Next? {
      PerformShows(cfg, script, prepared.st, prepared.st.activeHandler.value, cls, action);
      var performed := Perform(cfg, script, prepared.st, prepared.st.activeHandler.value, cls, action);
      ShowsBoth(s.trace, prepared.st.trace, performed.st.trace, cls, action);
      if performed.Next? || performed.Skip? {
        var after := AfterExecute(cfg, script, performed.st, prepared.st.activeHandler.value);
        QuietShows(script, performed.st, after, cls, action);
        ShowsBoth(s.trace, performed.st.trace, after.st.trace, cls, action);
      }
    }
  }

  lemma PerformShows(cfg: Config, script: Script, s: State, h: Handler, cls: string, action: string)
    ensures Shows(s.trace, Perform(cfg, script, s, h, cls, action).st.trace, cls, action)
  {
    hide Quiet, Approach, Invoke, Shows;
    var near := Approach(cfg, script, s, h, cls, action);
    ApproachShows(cfg, script, s, h, cls, action);
    if near.Next? {
      InvokeShows(script, near.st, h, cls, action);
      ShowsBoth(s.trace, near.st.trace, Invoke(script, near.st, h, cls, action).st.trace, cls, action);
    }
  }

  /** What is set after a forward: what it gives, else what was set before. */
  function SetBy(given: Option<string>, before: string): string {
    if given.Some? then given.value else before
  }

  /**
   * A forward decides what the next round calls, leaves the round at hand unfinished, and keeps
   * the names that were set for whoever asks for the previous ones.
   */
  lemma ForwardIsFollowed(cfg: Config, script: Script, s: State, ns: Option<string>, handler: Option<string>,
                          action: Option<string>, params: Option<bool>)
    ensures var t := Apply(s, Forward(ns, handler, action, params));
      && !t.finished && t.forwarded && t.trace == s.trace && t.di == s.di
      && t.paramsAreArray == (if params.Some? then params.value else s.paramsAreArray)
      && (t.previousNamespaceName, t.previousHandlerName, t.previousActionName)
         == (s.namespaceName, s.handlerName, s.actionName)
      && exists cls, act, wanted: State ::
           && wanted.namespaceName == SetBy(ns, s.namespaceName) && wanted.handlerName == SetBy(handler, s.handlerName)
           && wanted.actionName == SetBy(action, s.actionName)
           && GoesFor(cfg, wanted, cls, act) && Shows(s.trace, Round(cfg, script, t).st.trace, cls, act)
  {
    var t := Apply(s, Forward(ns, handler, action, params));
    RoundCallsWhatIsSet(cfg, script, t);
    hide Round, GoesFor, Shows;
    var cls, act :| GoesFor(cfg, t, cls, act) && Shows(t.trace, Round(cfg, script, t).st.trace, cls, act);
    assert t.namespaceName == SetBy(ns, s.namespaceName) && t.handlerName == SetBy(handler, s.handlerName);
    assert t.actionName == SetBy(action, s.actionName);
  }

  /** Names that are set are what the next round calls, and nothing else is affected. */
  lemma NamesAreFollowed(cfg: Config, script: Script, s: State, ns: string, handler: string, action: string)
    ensures var t := ApplyAll(s, [SetNamespaceName(ns), SetHandlerName(handler), SetActionName(action)]);
      && t.finished == s.finished && t.forwarded == s.forwarded && t.paramsAreArray == s.paramsAreArray && t.di == s.di
      && exists cls, act, wanted: State ::
           && wanted.namespaceName == ns && wanted.handlerName == handler && wanted.actionName == action
           && GoesFor(cfg, wanted, cls, act) && Shows(s.trace, Round(cfg, script, t).st.trace, cls, act)
  {
    var a, b, c := SetNamespaceName(ns), SetHandlerName(handler), SetActionName(action);
    ThreeApplied(s, a, b, c);
    var t := Apply(Apply(Apply(s, a), b), c);
    RoundCallsWhatIsSet(cfg, script, t);
    hide Round, GoesFor, Shows;
    var cls, act :| GoesFor(cfg, t, cls, act) && Shows(t.trace, Round(cfg, script, t).st.trace, cls, act);
    assert t.namespaceName == ns && t.handlerName == handler && t.actionName == action;
  }

  lemma ThreeApplied(s: State, a: Op, b: Op, c: Op)
    ensures ApplyAll(s, [a, b, c]) == Apply(Apply(Apply(s, a), b), c)
  {
    OneMoreApplied(s, a, [b, c]);
    OneMoreApplied(Apply(s, a), b, [c]);
    OneMoreApplied(Apply(Apply(s, a), b), c, []);
    hide Apply;
    assert [a] + [b, c] == [a, b, c] && [b] + [c] == [b, c] && [c] + [] == [c];
  }

  lemma OneMoreApplied(s: State, op: Op, ops: seq<Op>)
    ensures ApplyAll(s, [op] + ops) == ApplyAll(Apply(s, op), ops)
  {
    hide Apply;
    assert ([op] + ops)[1..] == ops;
  }

  // ----------------------------------------------------- the handler of a round

  /** These are the letters of the action's name, in lower case. */
  ghost predicate InLowerCase(found: string, action: string) {
    && |found| == |action|
    && forall i :: 0 <= i < |action| ==>
         if 'A' <= action[i] <= 'Z' then found[i] as int == action[i] as int + 32 else found[i] == action[i]
  }

  /** An action is invoked only if the handler of the round has a method of that name. */
  lemma InvokedActionExists(cfg: Config, script: Script, s: State, h: Handler, cls: string, action: string)
    requires Actions(Perform(cfg, script, s, h, cls, action).st.trace) > Actions(s.trace)
    ensures exists m :: m in h.methods && InLowerCase(m, action)
  {
    hide Quiet, Initialize, ThrowDispatchException, FireIfManaged, HandlerBefore, Invoke, Actions, Lower;
    var near := Approach(cfg, script, s, h, cls, action);
    if Lower(action) in h.methods {
      LowerIs(action);
    } else {
      CheckedActionExists(cfg, script, s, h, cls, action);
      QuietInvokesNothing(script, s, near);
    }
  }

  lemma QuietInvokesNothing(script: Script, s: State, f: Flow)
    requires Quiet(script, s, f, s.di.freshInstance)
    ensures Actions(f.st.trace) == Actions(s.trace)
  {
    QuietCounts(s.trace, f.st.trace, "");
  }

  lemma LowerIs(action: string)
    ensures InLowerCase(Lower(action), action)
  {
  }

  lemma CheckedActionExists(cfg: Config, script: Script, s: State, h: Handler, cls: string, action: string)
    requires Lower(action) !in h.methods
    ensures var f := Approach(cfg, script, s, h, cls, action);
      !f.Next? && Perform(cfg, script, s, h, cls, action) == f && Quiet(script, s, f, s.di.freshInstance)
  {
    hide Quiet, Initialize, ThrowDispatchException, FireIfManaged, HandlerBefore, Invoke, Lower;
  }

  /** The handler of a round is the instance that its class has: the one held before, or else the
      one made now, which is held from then on and counts as new. */
  lemma HandlerIsTheInstance(script: Script, s: State, cls: string)
    requires ObtainHandler(script, s, cls).Next?
    ensures var t := ObtainHandler(script, s, cls).st;
      && t.activeHandler.Some?
      && (cls in s.di.shared ==> s.di.shared[cls] == Object(t.activeHandler.value) && !t.di.freshInstance)
      && (cls !in s.di.shared ==>
            && t.di.freshInstance && script(s.calls).resolved == Object(t.activeHandler.value)
            && cls in t.di.shared && t.di.shared[cls] == Object(t.activeHandler.value))
  {
    hide Quiet, React, ThrowDispatchException, Missing;
  }

  /** A class is looked for exactly when the container does not know it. */
  lemma KnownClassIsNotLookedFor(cfg: Config, script: Script, s: State, cls: string)
    requires !cfg.hasEventsManager
    ensures var asked := Prepare(cfg, script, s, cls).st.asked;
      |asked| > |s.asked| && asked[|s.asked|].what == if cls in s.di.names then Making else Loading
  {
    hide React, Quiet, Missing, ObtainHandler, ThrowDispatchException;
    if cls in s.di.names {
      MakingIsAsked(script, s, cls);
    } else {
      LoadingIsAsked(script, s, cls);
    }
  }

  lemma MakingIsAsked(script: Script, s: State, cls: string)
    ensures var asked := ObtainHandler(script, s, cls).st.asked;
      |asked| > |s.asked| && asked[..|s.asked|] == s.asked && asked[|s.asked|].what == Making
  {
    hide React, Quiet, Missing;
  }

  lemma LoadingIsAsked(script: Script, s: State, cls: string)
    requires cls !in s.di.names
    ensures var asked := LoadClass(script, s, cls).st.asked;
      |asked| > |s.asked| && asked[..|s.asked|] == s.asked && asked[|s.asked|].what == Loading
    ensures LoadClass(script, s, cls).Next? ==>
              var t := LoadClass(script, s, cls).st;
              var asked := ObtainHandler(script, t, cls).st.asked;
              |asked| > |s.asked| && asked[|s.asked|].what == Loading
  {
    var f := LoadClass(script, s, cls);
    if f.Next? {
      MakingIsAsked(script, f.st, cls);
      assert ObtainHandler(script, f.st, cls).st.asked[..|f.st.asked|][|s.asked|] == f.st.asked[|s.asked|];
    }
    hide React, Quiet, Missing, ObtainHandler;
  }

  // ------------------------------------------------------- shared instances

  /** While its class is not registered anew as shared, an instance stays the one it is. */
  lemma {:induction false} InstanceStays(s: State, ops: seq<Op>, name: string)
    requires name in s.di.shared
    requires forall i :: 0 <= i < |ops| ==> ops[i] != RegisterService(name, true)
    ensures var t := ApplyAll(s, ops); name in t.di.shared && t.di.shared[name] == s.di.shared[name]
    decreases |ops|
  {
    if ops != [] {
      assert ops[0] != RegisterService(name, true);
      assert forall i :: 0 <= i < |ops[1..]| ==> ops[1..][i] == ops[i + 1];
      StepKeepsInstance(s, ops[0], name);
      hide Apply;
      InstanceStays(Apply(s, ops[0]), ops[1..], name);
    }
  }

  lemma StepKeepsInstance(s: State, op: Op, name: string)
    requires name in s.di.shared && op != RegisterService(name, true)
    ensures var t := Apply(s, op); name in t.di.shared && t.di.shared[name] == s.di.shared[name]
  {
  }

  /** Registering a class anew as shared takes its instance away, and no other; the next request
      for it gets what is made then. */
  lemma RegisteringTakesTheInstance(s: State, name: string, resolved: Instance)
    ensures var t := Apply(s, RegisterService(name, true));
      && name !in t.di.shared && name in t.di.names
      && (forall n :: n != name ==> (n in t.di.shared <==> n in s.di.shared) && (n in t.di.names <==> n in s.di.names))
      && (resolved.Object? ==>
            var u := Apply(t, ShareService(name, resolved));
            name in u.di.shared && u.di.shared[name] == resolved && u.di.freshInstance)
  {
  }

  /** Registering a class so that each request makes a new object, and taking a class out, leave
      every instance alone. */
  lemma OtherChangesKeepInstances(s: State, name: string)
    ensures var t := Apply(s, RegisterService(name, false));
      && t.di.shared == s.di.shared && name in t.di.names
      && forall n :: n != name ==> (n in t.di.names <==> n in s.di.names)
    ensures var t := Apply(s, RemoveService(name));
      && t.di.shared == s.di.shared && name !in t.di.names
      && forall n :: n != name ==> (n in t.di.names <==> n in s.di.names)
  {
  }
}
