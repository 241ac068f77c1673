/** The dispatcher as the object it is: its properties change in place, and its
    methods do to them what the functions of `Dispatcher` say. */
module DispatchLoop {
  import opened Text
  import opened Container
  import opened Dispatcher

  /** How a part of the loop body ends. */
  datatype Signal = ToNext | ToSkip | ToAgain | ToBreak | ToEnd | ToReturn

  function FlowOf(signal: Signal, s: State): Flow {
    match signal
    case ToNext => Next(s)
    case ToSkip => Skip(s)
    case ToAgain => Again(s)
    case ToBreak => Break(s)
    case ToEnd => Goto(s)
    case ToReturn => Return(s)
  }

  /** The trace has grown by events that are no invocations. */
  ghost predicate QuietTrace(before: seq<Event>, after: seq<Event>) {
    before <= after && forall i :: |before| <= i < |after| ==> !after[i].Invoked?
  }

  lemma InitializeIsQuiet(cfg: Config, script: Script, s: State, h: Handler, cls: string)
    ensures QuietTrace(s.trace, Initialize(cfg, script, s, h, cls).st.trace)
  {
    hide Initialize;
  }

  /** At most one action more, and under an events manager still none that is stale. */
  ghost predicate OneActionAndSane(cfg: Config, before: State, after: State) {
    && Actions(after.trace) <= Actions(before.trace) + 1
    && (cfg.hasEventsManager && Sane(before) ==> Sane(after))
  }

  lemma RoundHasOneActionAndIsSane(cfg: Config, script: Script, s: State)
    ensures OneActionAndSane(cfg, s, Round(cfg, script, s).st)
  {
    hide Round, Sane, Actions;
    RoundInvokesOnce(cfg, script, s);
    if cfg.hasEventsManager && Sane(s) {
      RoundIsSane(cfg, script, s);
    }
  }

  class DispatcherObject {
    const cfg: Config
    const di: Di
    var finished: bool
    var forwarded: bool
    var namespaceName: string
    var handlerName: string
    var actionName: string
    var paramsAreArray: bool
    var previousNamespaceName: string
    var previousHandlerName: string
    var previousActionName: string
    var activeHandler: Option<Handler>
    var lastHandler: Option<Handler>
    var lastException: Option<Exn>
    var calls: nat
    var iteration: nat
    var trace: seq<Event>
    var performed: seq<Performed>
    var asked: seq<Asked>

    function Snapshot(): State
      reads this, di
    {
      State(finished, forwarded, namespaceName, handlerName, actionName, paramsAreArray,
            previousNamespaceName, previousHandlerName, previousActionName,
            activeHandler, lastHandler, lastException, di.Snapshot(), calls, iteration, trace, performed,
            asked)
    }

    constructor (cfg: Config, di: Di)
      ensures this.cfg == cfg && this.di == di
      ensures Snapshot() == State(false, false, "", "", "", true, "", "", "", None, None, None, di.Snapshot(),
                                  0, 0, [], [], [])
    {
      this.cfg, this.di := cfg, di;
      finished, forwarded := false, false;
      namespaceName, handlerName, actionName, paramsAreArray := "", "", "", true;
      previousNamespaceName, previousHandlerName, previousActionName := "", "", "";
      activeHandler, lastHandler, lastException := None, None, None;
      calls, iteration, trace, performed, asked := 0, 0, [], [], [];
    }

    method RememberNames()
      modifies this
      ensures Snapshot() == old(Snapshot()).(previousNamespaceName := old(namespaceName),
        previousHandlerName := old(handlerName), previousActionName := old(actionName))
    {
      previousNamespaceName := namespaceName;
      previousHandlerName := handlerName;
      previousActionName := actionName;
    }

    method TakeNames(ns: Option<string>, handler: Option<string>, action: Option<string>)
      modifies this
      ensures Snapshot() == old(Snapshot()).(
        namespaceName := if ns.Some? then ns.value else old(namespaceName),
        handlerName := if handler.Some? then handler.value else old(handlerName),
        actionName := if action.Some? then action.value else old(actionName))
    {
      if ns.Some? {
        namespaceName := ns.value;
      }
      if handler.Some? {
        handlerName := handler.value;
      }
      if action.Some? {
        actionName := action.value;
      }
    }

    method ForwardTo(ns: Option<string>, handler: Option<string>, action: Option<string>, params: Option<bool>)
      modifies this
      ensures Snapshot() == EffectOf(old(Snapshot()), Forward(ns, handler, action, params))
    {
      RememberNames();
      TakeNames(ns, handler, action);
      if params.Some? {
        paramsAreArray := params.value;
      }
      finished := false;
      forwarded := true;
    }

    method Do(op: Op)
      modifies this, di
      ensures Snapshot() == Apply(old(Snapshot()), op)
    {
      performed := performed + [Performed(op, di.sharedInstances.Keys)];
      if op.ShareService? || op.RegisterService? || op.RemoveService? || op.CloneContainer? {
        DoToContainer(op);
      } else {
        DoToDispatcher(op);
      }
    }

    method DoToDispatcher(op: Op)
      requires !op.ShareService? && !op.RegisterService? && !op.RemoveService? && !op.CloneContainer?
      modifies this
      ensures Snapshot() == EffectOf(old(Snapshot()), op)
    {
      match op
      case Forward(ns, handler, action, params) => ForwardTo(ns, handler, action, params);
      case SetFinished(f) => finished := f;
      case SetHandlerName(name) => handlerName := name;
      case SetActionName(name) => actionName := name;
      case SetNamespaceName(name) => namespaceName := name;
      case SetParams(areArray) => paramsAreArray := areArray;
    }

    method DoToContainer(op: Op)
      requires op.ShareService? || op.RegisterService? || op.RemoveService? || op.CloneContainer?
      modifies di
      ensures Snapshot() == EffectOf(old(Snapshot()), op)
    {
      match op
      case ShareService(name, resolved) =>
        var instance := di.GetShared(name, resolved);
      case RegisterService(name, shared) => di.SetService(name, shared);
      case RemoveService(name) => di.RemoveService(name);
      case CloneContainer =>
        var copy := di.Clone();
    }

    /** What a call into user code does, in turn. */
    method PerformAll(ops: seq<Op>)
      modifies this, di
      ensures Snapshot() == ApplyAll(old(Snapshot()), ops)
    {
      var k := 0;
      ghost var start := Snapshot();
      assert ops[0..] == ops;
      while k < |ops|
        invariant k <= |ops|
        invariant ApplyAll(Snapshot(), ops[k..]) == ApplyAll(start, ops)
      {
        assert ops[k..][1..] == ops[k + 1..];
        Do(ops[k]);
        k := k + 1;
      }
    }

    /** A call into user code. */
    method CallUser(script: Script, what: Request) returns (r: Reaction)
      modifies this, di
      ensures r == script(old(calls))
      ensures Snapshot() == React(script, old(Snapshot()), what)
    {
      hide ApplyAll, Accounts;
      r := script(calls);
      calls := calls + 1;
      PerformAll(r.ops);
      asked := asked + [Asked(calls - 1, what, iteration, finished)];
    }

    /** A call that an event makes: what it answered is logged. */
    method CallFiring(script: Script, hook: Hook) returns (r: Reaction)
      modifies this, di
      ensures r == script(old(calls))
      ensures Snapshot() == Log(React(script, old(Snapshot()), Tells(hook)),
                                Fired(old(iteration), hook, r.answer.ReturnsFalse?))
    {
      hide React, Accounts;
      r := CallUser(script, Tells(hook));
      trace := trace + [Fired(iteration, hook, r.answer.ReturnsFalse?)];
    }

    method FireEventCancel(script: Script, hook: Hook) returns (signal: Signal)
      modifies this, di
      ensures FlowOf(signal, Snapshot()) == FireCancel(script, old(Snapshot()), hook)
      ensures signal == ToNext ==> finished && trace == old(trace) + [Fired(old(iteration), hook, false)]
      ensures signal != ToNext ==> signal == ToAgain || signal == ToReturn
    {
      hide React, Accounts, Quiet;
      var r := CallFiring(script, hook);
      if r.answer.Throws? {
        return ToReturn;
      }
      if r.answer.ReturnsFalse? {
        return ToAgain;
      }
      signal := if !finished then ToAgain else ToNext;
    }

    method FireWhenManaged(script: Script, hook: Hook) returns (signal: Signal)
      modifies this, di
      ensures FlowOf(signal, Snapshot()) == FireIfManaged(cfg, script, old(Snapshot()), hook)
    {
      signal := ToNext;
      if cfg.hasEventsManager {
        signal := FireEventCancel(script, hook);
      }
    }

    method FireEvent(script: Script, what: Request) returns (signal: Signal)
      modifies this, di
      ensures FlowOf(signal, Snapshot()) == Fire(script, old(Snapshot()), what)
    {
      var r := CallUser(script, what);
      signal := if r.answer.Throws? then ToReturn else ToNext;
    }

    method Throw(script: Script) returns (signal: Signal)
      modifies this, di
      ensures FlowOf(signal, Snapshot()) == ThrowDispatchException(script, old(Snapshot()))
    {
      var r := CallUser(script, OwnException);
      if r.answer.Throws? {
        return ToReturn;
      }
      if r.answer.ReturnsFalse? && !finished {
        return ToAgain;
      }
      signal := ToBreak;
    }

    method Load(script: Script, cls: string) returns (signal: Signal)
      modifies this, di
      ensures FlowOf(signal, Snapshot()) == LoadClass(script, old(Snapshot()), cls)
    {
      if cls in di.services {
        return ToNext;
      }
      var r := CallUser(script, Loading);
      if r.answer.Throws? {
        return ToReturn;
      }
      if !r.classExists {
        signal := Throw(script);
        return;
      }
      signal := ToNext;
    }

    method Obtain(script: Script, cls: string) returns (signal: Signal)
      modifies this, di
      ensures FlowOf(signal, Snapshot()) == ObtainHandler(script, old(Snapshot()), cls)
      ensures signal == ToNext ==> activeHandler.Some? && trace == old(trace)
      ensures signal == ToNext && di.freshInstance ==> cls !in old(di.sharedInstances) && cls in di.sharedInstances
    {
      var found := cls in di.sharedInstances;
      var instance := if found then di.sharedInstances[cls] else script(calls).resolved;
      var r := CallUser(script, Making);
      if r.answer.Throws? {
        return ToReturn;
      }
      di.FinishShared(cls, found, instance);
      if !instance.Object? {
        signal := Throw(script);
        return;
      }
      activeHandler := Some(instance.handler);
      signal := ToNext;
    }

    method FindAction(script: Script, h: Handler, action: string) returns (signal: Signal)
      modifies this, di
      ensures FlowOf(signal, Snapshot()) == CheckAction(cfg, script, old(Snapshot()), h, action)
    {
      signal := ToNext;
      if Lower(action) !in h.methods {
        signal := FireWhenManaged(script, BeforeNotFoundAction);
        if signal == ToNext {
          signal := Throw(script);
        }
      }
    }

    method AskHandler(script: Script, h: Handler) returns (signal: Signal)
      modifies this, di
      ensures FlowOf(signal, Snapshot()) == HandlerBefore(script, old(Snapshot()), h)
    {
      if "beforeexecuteroute" !in h.methods {
        return ToNext;
      }
      hide React, Accounts, Quiet;
      var r := CallFiring(script, HandlerBeforeExecuteRoute);
      if r.answer.Throws? {
        return ToReturn;
      }
      if !finished {
        return ToAgain;
      }
      signal := if r.answer.ReturnsFalse? then ToBreak else ToNext;
    }

    method CallInitializer(script: Script, h: Handler, cls: string) returns (signal: Signal)
      modifies this, di
      ensures FlowOf(signal, Snapshot()) == CallInitialize(script, old(Snapshot()), h, cls)
    {
      hide React, Accounts, Quiet;
      if "initialize" !in h.methods {
        return ToNext;
      }
      var r := CallUser(script, Initializing);
      trace := trace + [Initialized(iteration, cls)];
      if !r.answer.Throws? {
        return ToNext;
      }
      if !r.answer.exn.Continue? {
        return ToReturn;
      }
      lastException := Some(r.answer.exn);
      signal := ToSkip;
    }

    method InitializeHandler(script: Script, h: Handler, cls: string) returns (signal: Signal)
      modifies this, di
      ensures FlowOf(signal, Snapshot()) == Initialize(cfg, script, old(Snapshot()), h, cls)
      ensures cfg.hasEventsManager && signal == ToNext ==> finished
      ensures QuietTrace(old(trace), trace)
    {
      hide Quiet, Accounts, FireIfManaged, CallInitialize, QuietTrace;
      InitializeIsQuiet(cfg, script, Snapshot(), h, cls);
      signal := FireWhenManaged(script, BeforeInitialize);
      if signal != ToNext {
        return;
      }
      var called := CallInitializer(script, h, cls);
      if called != ToNext && called != ToSkip {
        return called;
      }
      signal := FireWhenManaged(script, AfterInitialize);
      if signal == ToNext && called == ToSkip {
        lastHandler := Some(h);
        signal := ToSkip;
      }
    }

    /** What an action has thrown ends the request, or goes to `_handleException`. */
    method HandleException(script: Script, exn: Exn) returns (signal: Signal)
      modifies this, di
      ensures FlowOf(signal, Snapshot()) == HandleThrown(script, old(Snapshot()), exn)
      ensures trace == old(trace)
    {
      hide React, Accounts;
      if exn.UnwindExit? {
        return ToEnd;
      }
      lastException := Some(exn);
      var handled := CallUser(script, HandlingException);
      if handled.answer.Throws? {
        return ToReturn;
      }
      if !exn.Continue? {
        if handled.answer.ReturnsFalse? {
          if !finished {
            return ToAgain;
          }
        } else {
          return ToEnd;
        }
      }
      signal := ToNext;
    }

    /** The call itself: the log shows whether the dispatcher was finished before it. */
    method CallAction(script: Script, cls: string, action: string) returns (r: Reaction)
      modifies this, di
      ensures r == script(old(calls))
      ensures Snapshot() == Log(React(script, old(Snapshot()), Acting),
                                Invoked(old(iteration), cls, action, old(finished)))
      ensures trace == old(trace) + [Invoked(old(iteration), cls, action, old(finished))]
    {
      hide React, Accounts;
      var wasFinished := finished;
      r := CallUser(script, Acting);
      trace := trace + [Invoked(iteration, cls, action, wasFinished)];
    }

    method InvokeAction(script: Script, h: Handler, cls: string, action: string) returns (signal: Signal)
      modifies this, di
      ensures FlowOf(signal, Snapshot()) == Invoke(script, old(Snapshot()), h, cls, action)
      ensures trace == old(trace) + [Invoked(old(iteration), cls, action, old(finished))]
      ensures signal == ToNext ==> lastHandler == Some(h)
    {
      hide React, Accounts, Quiet, Log, HandleThrown;
      var r := CallAction(script, cls, action);
      signal := ToNext;
      if r.answer.Throws? {
        signal := HandleException(script, r.answer.exn);
      }
      if signal == ToNext {
        lastHandler := Some(h);
      }
    }

    method FireFinalEvents(script: Script) returns (signal: Signal)
      modifies this, di
      ensures FlowOf(signal, Snapshot()) == AfterExecuteEvents(script, old(Snapshot()))
    {
      hide Fire, Quiet;
      signal := FireEvent(script, TellsAfterAction);
      if signal != ToNext {
        return;
      }
      if !finished {
        return ToAgain;
      }
      signal := FireEvent(script, TellsAfterRound);
    }

    method FinishRound(script: Script, h: Handler) returns (signal: Signal)
      modifies this, di
      ensures FlowOf(signal, Snapshot()) == AfterExecute(cfg, script, old(Snapshot()), h)
    {
      hide React, Accounts, Quiet, AfterExecuteEvents;
      if cfg.hasEventsManager {
        signal := FireFinalEvents(script);
        if signal != ToNext {
          return;
        }
      }
      if "afterexecuteroute" in h.methods {
        var r := CallUser(script, HandlerAfter);
        if r.answer.Throws? {
          return ToReturn;
        }
        if r.answer.ReturnsFalse? || !finished {
          return ToAgain;
        }
      }
      signal := ToNext;
    }

    method PrepareRound(script: Script, cls: string) returns (signal: Signal)
      modifies this, di
      ensures FlowOf(signal, Snapshot()) == Prepare(cfg, script, old(Snapshot()), cls)
    {
      hide Quiet, Accounts, Missing, FireIfManaged, LoadClass, ObtainHandler;
      signal := FireWhenManaged(script, BeforeDispatch);
      if signal == ToNext {
        signal := Load(script, cls);
        if signal == ToNext {
          signal := Obtain(script, cls);
        }
      }
    }

    method ApproachAction(script: Script, h: Handler, cls: string, action: string) returns (signal: Signal)
      modifies this, di
      ensures FlowOf(signal, Snapshot()) == Approach(cfg, script, old(Snapshot()), h, cls, action)
    {
      hide Quiet, CheckAction, FireIfManaged, HandlerBefore, Initialize, ThrowDispatchException;
      var wasFresh := di.freshInstance;
      signal := FindAction(script, h, action);
      if signal != ToNext {
        return;
      }
      signal := FireWhenManaged(script, BeforeExecuteRoute);
      if signal != ToNext {
        return;
      }
      signal := AskHandler(script, h);
      if signal != ToNext {
        return;
      }
      if wasFresh {
        signal := InitializeHandler(script, h, cls);
        if signal != ToNext {
          return;
        }
      }
      if !paramsAreArray {
        signal := Throw(script);
      }
    }

    /** Names that are not set take their defaults. */
    method FillNames()
      modifies `namespaceName, `handlerName, `actionName
      ensures namespaceName == OrDefault(old(namespaceName), cfg.defaultNamespace)
      ensures handlerName == OrDefault(old(handlerName), cfg.defaultHandler)
      ensures actionName == OrDefault(old(actionName), cfg.defaultAction)
    {
      if !TruthyName(namespaceName) {
        namespaceName := cfg.defaultNamespace;
      }
      if !TruthyName(handlerName) {
        handlerName := cfg.defaultHandler;
      }
      if !TruthyName(actionName) {
        actionName := cfg.defaultAction;
      }
    }

    method BeginRound()
      modifies this
      ensures Snapshot() == StartRound(cfg, old(Snapshot()))
    {
      hide OrDefault;
      finished := true;
      iteration := iteration + 1;
      FillNames();
    }

    method RunRound(script: Script) returns (signal: Signal)
      modifies this, di
      ensures FlowOf(signal, Snapshot()) == Round(cfg, script, old(Snapshot()))
      ensures OneActionAndSane(cfg, old(Snapshot()), Snapshot())
    {
      hide OneActionAndSane, Quiet, Accounts, Missing;
      RoundHasOneActionAndIsSane(cfg, script, Snapshot());
      hide Prepare, Approach, Invoke, AfterExecute, HandlerClass, StartRound;
      BeginRound();
      var cls, action := HandlerClass(cfg, namespaceName, handlerName), actionName + cfg.actionSuffix;
      signal := PrepareRound(script, cls);
      if signal != ToNext {
        return;
      }
      var h := activeHandler.value;
      signal := ApproachAction(script, h, cls, action);
      if signal == ToNext {
        signal := InvokeAction(script, h, cls, action);
      }
      if signal == ToNext || signal == ToSkip {
        signal := FinishRound(script, h);
      }
    }

    method RunRounds(script: Script) returns (signal: Signal)
      modifies this, di
      ensures FlowOf(signal, Snapshot()) == Rounds(cfg, script, old(Snapshot()), 0)
    {
      hide Round, Quiet, Accounts, OneActionAndSane;
      var numberDispatches := 0;
      signal := ToNext;
      ghost var whole := Rounds(cfg, script, Snapshot(), 0);
      while signal == ToNext || signal == ToAgain
        invariant signal == ToNext || signal == ToAgain ==>
          numberDispatches < MAX_DISPATCHES && Rounds(cfg, script, Snapshot(), numberDispatches) == whole
        invariant !(signal == ToNext || signal == ToAgain) ==> FlowOf(signal, Snapshot()) == whole
        decreases signal == ToNext || signal == ToAgain, MAX_DISPATCHES - numberDispatches
      {
        if finished {
          return ToBreak;
        }
        numberDispatches := numberDispatches + 1;
        if numberDispatches == MAX_DISPATCHES {
          signal := FireEvent(script, TellsTooMany);
          if signal == ToNext {
            return ToBreak;
          }
        } else {
          signal := RunRound(script);
        }
      }
    }

    method RunDispatch(script: Script)
      modifies this, di
      ensures Snapshot() == Dispatch(cfg, script, old(Snapshot()))
    {
      hide Round, Rounds, React, Log, Fire, Quiet, Accounts;
      var r := CallFiring(script, BeforeDispatchLoop);
      if r.answer.Throws? || r.answer.ReturnsFalse? {
        return;
      }
      finished := false;
      var signal := RunRounds(script);
      if signal != ToReturn {
        signal := FireEvent(script, TellsAfterLoop);
      }
    }

    /** What a caller of `dispatch` may rely on, whatever user code does. */
    method DispatchSafely(script: Script)
      modifies this, di
      ensures cfg.hasEventsManager && Sane(old(Snapshot())) ==> NoStaleAction(trace)
      ensures Actions(trace) <= Actions(old(trace)) + 255
      ensures forall name :: Balance(Snapshot(), name) <= Balance(old(Snapshot()), name)
      ensures forall name :: ScriptSpares(script, name) && OnceAndShared(old(Snapshot()), name) ==>
                OnceAndShared(Snapshot(), name)
    {
      hide Dispatch, Balance, OnceAndShared, ScriptSpares;
      ghost var start := Snapshot();
      RunDispatch(script);
      DispatchInvokesAtMost255(cfg, script, start);
      forall name: string
        ensures Balance(Snapshot(), name) <= Balance(start, name)
        ensures ScriptSpares(script, name) && OnceAndShared(start, name) ==> OnceAndShared(Snapshot(), name)
      {
        DispatchIsBalanced(cfg, script, start, name);
        if ScriptSpares(script, name) && OnceAndShared(start, name) {
          DispatchKeepsOnce(cfg, script, start, name);
        }
      }
      if cfg.hasEventsManager && Sane(start) {
        ManagedDispatchHasNoStaleAction(cfg, script, start);
      }
    }
  }
}
