/** The dispatch loop: listeners and handlers are called at fixed points and may
    forward, cancel or throw at each of them. */
module Dispatcher {
  import opened Text
  import opened Container

  datatype Exn = Continue | Ordinary | UnwindExit

  /** What user code may do to the dispatcher and the container while it runs. */
  datatype Op =
    | Forward(namespaceName: Option<string>, handlerName: Option<string>, actionName: Option<string>,
              paramsAreArray: Option<bool>)
    | SetFinished(finished: bool)
    | SetHandlerName(name: string)
    | SetActionName(name: string)
    | SetNamespaceName(name: string)
    | SetParams(areArray: bool)
    | ShareService(name: string, resolved: Instance)
    | RegisterService(name: string, shared: bool)
    | RemoveService(name: string)
    | CloneContainer

  datatype Answer = ReturnsFalse | ReturnsOther | Throws(exn: Exn)

  /** One call into user code: what it does, how it ends, and, where the call
      looks for a class or resolves a service, what is found. */
  datatype Reaction = Reaction(ops: seq<Op>, answer: Answer, classExists: bool, resolved: Instance)

  /** User code, as its reaction to the n-th call made to it. */
  type Script = nat -> Reaction

  datatype Config = Config(
    defaultNamespace: string, defaultHandler: string, defaultAction: string,
    handlerSuffix: string, actionSuffix: string,
    hasEventsManager: bool)

  datatype Hook = BeforeDispatchLoop | BeforeDispatch | BeforeNotFoundAction | BeforeExecuteRoute
                | HandlerBeforeExecuteRoute | BeforeInitialize | AfterInitialize

  datatype Event =
    | Fired(iteration: nat, hook: Hook, cancelled: bool)
    | Initialized(iteration: nat, cls: string)
    | Invoked(iteration: nat, cls: string, action: string, finished: bool)

  datatype State = State(
    finished: bool, forwarded: bool,
    namespaceName: string, handlerName: string, actionName: string, paramsAreArray: bool,
    previousNamespaceName: string, previousHandlerName: string, previousActionName: string,
    activeHandler: Option<Handler>, lastHandler: Option<Handler>, lastException: Option<Exn>,
    di: Services,
    calls: nat, iteration: nat, trace: seq<Event>, performed: seq<Performed>, asked: seq<Asked>)

  /** What a call into user code is for. */
  datatype Request =
    | Tells(hook: Hook)     // a hook, of listeners or of the handler
    | Loading               // the class of the handler
    | Making                // its instance
    | OwnException          // an exception of the dispatcher, offered to listeners
    | Initializing
    | Acting
    | HandlingException     // an exception of the action, offered to `_handleException`
    | TellsAfterAction
    | TellsAfterRound
    | HandlerAfter
    | TellsTooMany
    | TellsAfterLoop

  /** A call into user code, and whether the dispatcher was finished after it. */
  datatype Asked = Asked(call: nat, what: Request, iteration: nat, finished: bool)

  /** An operation of user code, or going on with a clone of the container, and the names that had
      shared instances before it. */
  datatype Performed = Performed(op: Op, held: set<string>) | Replaced(held: set<string>)

  const MAX_DISPATCHES := 256

  // ------------------------------------------------------------- user code

  function Apply(s: State, op: Op): State {
    EffectOf(s, op).(performed := s.performed + [Performed(op, s.di.shared.Keys)])
  }

  function EffectOf(s: State, op: Op): State {
    match op
    case Forward(ns, handler, action, params) =>
      s.(previousNamespaceName := s.namespaceName,
         previousHandlerName := s.handlerName,
         previousActionName := s.actionName,
         namespaceName := if ns.Some? then ns.value else s.namespaceName,
         handlerName := if handler.Some? then handler.value else s.handlerName,
         actionName := if action.Some? then action.value else s.actionName,
         paramsAreArray := if params.Some? then params.value else s.paramsAreArray,
         finished := false,
         forwarded := true)
    case SetFinished(finished) => s.(finished := finished)
    case SetHandlerName(name) => s.(handlerName := name)
    case SetActionName(name) => s.(actionName := name)
    case SetNamespaceName(name) => s.(namespaceName := name)
    case SetParams(areArray) => s.(paramsAreArray := areArray)
    case ShareService(name, resolved) =>
      var found := name in s.di.shared;
      s.(di := Shared(s.di, name, found, if found then s.di.shared[name] else resolved))
    case RegisterService(name, shared) => s.(di := SetRaw(s.di, name, shared))
    case RemoveService(name) => s.(di := Remove(s.di, name))
    case CloneContainer => s  // the clone is emptied, not the container in use
  }

  function ApplyAll(s: State, ops: seq<Op>): (r: State)
    ensures r.trace == s.trace && r.iteration == s.iteration && r.calls == s.calls && r.asked == s.asked
    decreases |ops|
  {
    if ops == [] then s else ApplyAll(Apply(s, ops[0]), ops[1..])
  }

  /** The operation leaves the shared instance under a name alone. */
  predicate Spares(op: Op, name: string) {
    !(op.RegisterService? && op.name == name && op.shared)
  }

  predicate Keeps(p: Performed, name: string) {
    p.Performed? && Spares(p.op, name)
  }

  /** User code never registers the name anew as shared. */
  ghost predicate ScriptSpares(script: Script, name: string) {
    forall n, i :: 0 <= i < |script(n).ops| ==> Spares(script(n).ops[i], name)
  }

  /** How many operations have taken the shared instance of a name away. */
  function Drops(performed: seq<Performed>, name: string): nat {
    if performed == [] then 0
    else
      var last := performed[|performed| - 1];
      Drops(performed[..|performed| - 1], name) + if !Keeps(last, name) && name in last.held then 1 else 0
  }

  function Absent(s: State, name: string): nat {
    if name in s.di.shared then 0 else 1
  }

  /** Whether the instance is missing, less how often it was taken away. */
  function Missing(s: State, name: string): int {
    Absent(s, name) - Drops(s.performed, name)
  }

  /** An instance goes missing only by an operation that takes it away. */
  ghost predicate Accounts(script: Script, s: State, t: State) {
    forall name ::
      && Missing(t, name) <= Missing(s, name)
      && Drops(s.performed, name) <= Drops(t.performed, name)
      && (ScriptSpares(script, name) ==> Drops(t.performed, name) == Drops(s.performed, name))
  }

  ghost predicate AccountsFor(script: Script, s: State, t: State, name: string) {
    && Missing(t, name) <= Missing(s, name)
    && Drops(s.performed, name) <= Drops(t.performed, name)
    && (ScriptSpares(script, name) ==> Drops(t.performed, name) == Drops(s.performed, name))
  }

  lemma DropsOneMore(performed: seq<Performed>, p: Performed, name: string)
    ensures Drops(performed + [p], name)
         == Drops(performed, name) + if !Keeps(p, name) && name in p.held then 1 else 0
  {
    assert (performed + [p])[..|performed|] == performed;
  }

  lemma ApplyAccounts(s: State, op: Op, name: string)
    ensures Missing(Apply(s, op), name) <= Missing(s, name)
    ensures Drops(s.performed, name) <= Drops(Apply(s, op).performed, name)
    ensures Spares(op, name) ==> Drops(Apply(s, op).performed, name) == Drops(s.performed, name)
  {
    hide Drops;
    DropsOneMore(s.performed, Performed(op, s.di.shared.Keys), name);
  }

  lemma {:induction false} ApplyAllAccounts(s: State, ops: seq<Op>, name: string)
    ensures Missing(ApplyAll(s, ops), name) <= Missing(s, name)
    ensures Drops(s.performed, name) <= Drops(ApplyAll(s, ops).performed, name)
    ensures (forall i :: 0 <= i < |ops| ==> Spares(ops[i], name)) ==>
              Drops(ApplyAll(s, ops).performed, name) == Drops(s.performed, name)
    decreases |ops|
  {
    hide Drops, Missing, Apply;
    if ops != [] {
      ApplyAccounts(s, ops[0], name);
      ApplyAllAccounts(Apply(s, ops[0]), ops[1..], name);
    }
  }

  lemma ReactAccounts(script: Script, s: State)
    ensures Accounts(script, s, ApplyAll(s.(calls := s.calls + 1), script(s.calls).ops))
  {
    var started := s.(calls := s.calls + 1);
    var t := ApplyAll(started, script(s.calls).ops);
    forall name: string
      ensures Missing(t, name) <= Missing(s, name) && Drops(s.performed, name) <= Drops(t.performed, name)
      ensures ScriptSpares(script, name) ==> Drops(t.performed, name) == Drops(s.performed, name)
    {
      ApplyAllAccounts(started, script(s.calls).ops, name);
    }
  }

  /** The next call into user code has run. */
  function React(script: Script, s: State, what: Request): (r: State)
    ensures r.trace == s.trace && r.iteration == s.iteration && Accounts(script, s, r)
    ensures r.calls == s.calls + 1
    ensures r.asked == s.asked + [Asked(s.calls, what, s.iteration, r.finished)]
  {
    ReactAccounts(script, s);
    var t := ApplyAll(s.(calls := s.calls + 1), script(s.calls).ops);
    hide ApplyAll, Drops;
    t.(asked := t.asked + [Asked(s.calls, what, s.iteration, t.finished)])
  }

  function Log(s: State, ev: Event): State {
    s.(trace := s.trace + [ev])
  }

  // ----------------------------------------------------- one round of the loop

  /** How a part of the loop body ends. */
  datatype Flow =
    | Next(st: State)    // the following statement
    | Skip(st: State)    // the label behind the action
    | Again(st: State)   // the next round
    | Break(st: State)   // out of the loop
    | Goto(st: State)    // the end label
    | Return(st: State)  // out of the method
  {
    predicate IsFailure() { !Next? }

    function PropagateFailure(): Flow
      requires IsFailure()
    {
      this
    }

    function Extract(): State
      requires !IsFailure()
    {
      st
    }
  }

  /** No action was invoked in a round that somebody had ended, by a forward or
      by cancelling one of its hooks before it. */
  ghost predicate NoStaleAction(trace: seq<Event>) {
    forall i :: 0 <= i < |trace| && trace[i].Invoked? ==> trace[i].finished && NotCancelledBefore(trace, i)
  }

  ghost predicate NotCancelledBefore(trace: seq<Event>, i: nat)
    requires i < |trace|
  {
    forall j :: 0 <= j < i && trace[j].Fired? && trace[j].iteration == trace[i].iteration ==> !trace[j].cancelled
  }

  ghost predicate Sane(s: State) {
    NoStaleAction(s.trace) && forall i :: 0 <= i < |s.trace| ==> s.trace[i].iteration <= s.iteration
  }

  /** Nothing was cancelled in the current round. */
  ghost predicate Clean(s: State) {
    forall i :: 0 <= i < |s.trace| && s.trace[i].Fired? && s.trace[i].iteration == s.iteration ==> !s.trace[i].cancelled
  }

  /** A part of a round that invokes no action: it observes events of its own
      round, and if it lets the round go on none of them was cancelled. */
  ghost predicate Quiet(script: Script, s: State, f: Flow, mayInitialize: bool) {
    && f.st.iteration == s.iteration && Accounts(script, s, f.st)
    && |s.trace| <= |f.st.trace| && f.st.trace[..|s.trace|] == s.trace
    && forall i :: |s.trace| <= i < |f.st.trace| ==>
      && f.st.trace[i].iteration == s.iteration
      && (f.st.trace[i].Fired? || (mayInitialize && f.st.trace[i].Initialized?))
      && (f.st.trace[i].Fired? && (f.Next? || f.Skip?) ==> !f.st.trace[i].cancelled)
  }

  lemma QuietIsSane(script: Script, s: State, f: Flow, mayInitialize: bool)
    requires Quiet(script, s, f, mayInitialize) && Sane(s) && Clean(s)
    ensures Sane(f.st) && (f.Next? || f.Skip? ==> Clean(f.st))
  {
    forall i | 0 <= i < |f.st.trace| && f.st.trace[i].Invoked?
      ensures f.st.trace[i].finished && NotCancelledBefore(f.st.trace, i)
    {
      assert f.st.trace[i] == s.trace[i];
      assert NotCancelledBefore(s.trace, i);
    }
  }

  /** Two such parts, one after the other, are one. */
  lemma QuietJoins(script: Script, s: State, f: Flow, g: Flow, first: bool, second: bool)
    requires Quiet(script, s, f, first) && (f.Next? || f.Skip?) && Quiet(script, f.st, g, second)
    ensures Quiet(script, s, g, first || second)
  {
    var n, m := |s.trace|, |f.st.trace|;
    assert g.st.trace[..n] == g.st.trace[..m][..n];
    forall i | n <= i < |g.st.trace|
      ensures
        && g.st.trace[i].iteration == s.iteration
        && (g.st.trace[i].Fired? || ((first || second) && g.st.trace[i].Initialized?))
        && (g.st.trace[i].Fired? && (g.Next? || g.Skip?) ==> !g.st.trace[i].cancelled)
    {
      if i < m {
        assert g.st.trace[i] == g.st.trace[..m][i] == f.st.trace[i];
      }
    }
  }

  lemma QuietEitherWay(script: Script, s: State, f: Flow, mayInitialize: bool)
    requires Quiet(script, s, f, false)
    ensures Quiet(script, s, f, mayInitialize)
  {
  }

  function Lower(s: string): string {
    seq(|s|, i requires 0 <= i < |s| => Fold(s[i]))
  }

  /** PHP's truth value of a string. */
  predicate TruthyName(s: string) {
    s != "" && s != "0"
  }

  function OrDefault(name: string, default: string): string {
    if TruthyName(name) then name else default
  }

  /** The handler class, without camelization. */
  function HandlerClass(cfg: Config, ns: string, handler: string): string {
    var plain := if handler != "" && handler[0] == '\\' then handler[1..] else handler;
    if !TruthyName(ns) then plain + cfg.handlerSuffix
    else if ns[|ns| - 1] == '\\' then ns + plain + cfg.handlerSuffix
    else ns + "\\" + plain + cfg.handlerSuffix
  }

  /** A cancellable event: a listener that throws ends the dispatch, one that
      returns false or forwards ends the round. */
  function FireCancel(script: Script, s: State, hook: Hook): (f: Flow)
    ensures Quiet(script, s, f, false)
    ensures f.Next? ==> f.st.finished
  {
    var answer := script(s.calls).answer;
    var t := Log(React(script, s, Tells(hook)), Fired(s.iteration, hook, answer.ReturnsFalse?));
    if answer.Throws? then Return(t)
    else if answer.ReturnsFalse? || !t.finished then Again(t)
    else Next(t)
  }

  function FireIfManaged(cfg: Config, script: Script, s: State, hook: Hook): (f: Flow)
    ensures Quiet(script, s, f, false)
    ensures cfg.hasEventsManager && f.Next? ==> f.st.finished
  {
    if cfg.hasEventsManager then FireCancel(script, s, hook) else Next(s)
  }

  /** An event nobody can cancel. */
  function Fire(script: Script, s: State, what: Request): (f: Flow)
    ensures Quiet(script, s, f, false)
  {
    if script(s.calls).answer.Throws? then Return(React(script, s, what)) else Next(React(script, s, what))
  }

  /** `_throwDispatchException` and what its callers do about the answer. */
  function ThrowDispatchException(script: Script, s: State): (f: Flow)
    ensures Quiet(script, s, f, false) && !f.Next? && !f.Skip?
  {
    var t := React(script, s, OwnException);
    if script(s.calls).answer.Throws? then Return(t)
    else if script(s.calls).answer.ReturnsFalse? && !t.finished then Again(t)
    else Break(t)
  }

  /** The class is a known service, or an autoloader finds it. */
  function LoadClass(script: Script, s: State, cls: string): (f: Flow)
    ensures Quiet(script, s, f, false) && !f.Skip?
  {
    if cls in s.di.names then Next(s)
    else
      var t := React(script, s, Loading);
      if script(s.calls).answer.Throws? then Return(t)
      else if script(s.calls).classExists then Next(t)
      else ThrowDispatchException(script, t)
  }

  /** The handler as a shared instance, made known to the events. */
  function ObtainHandler(script: Script, s: State, cls: string): (f: Flow)
    ensures Quiet(script, s, f, false) && !f.Skip?
    ensures f.Next? ==> f.st.activeHandler.Some?
    ensures f.Next? && f.st.di.freshInstance ==> cls !in s.di.shared && cls in f.st.di.shared
    ensures f.Next? && f.st.di.freshInstance ==> Missing(f.st, cls) < Missing(s, cls)
  {
    var found := cls in s.di.shared;
    var instance := if found then s.di.shared[cls] else script(s.calls).resolved;
    var t := React(script, s, Making);
    if script(s.calls).answer.Throws? then Return(t)
    else
      var u := t.(di := Shared(t.di, cls, found, instance));
      if !instance.Object? then ThrowDispatchException(script, u)
      else Next(u.(activeHandler := Some(instance.handler)))
  }

  /** The action method exists, or the round ends. */
  function CheckAction(cfg: Config, script: Script, s: State, h: Handler, action: string): (f: Flow)
    ensures Quiet(script, s, f, false) && !f.Skip?
  {
    if Lower(action) in h.methods then Next(s)
    else
      var s :- FireIfManaged(cfg, script, s, BeforeNotFoundAction);
      ThrowDispatchException(script, s)
  }

  /** The handler's own say before its action. */
  function HandlerBefore(script: Script, s: State, h: Handler): (f: Flow)
    ensures Quiet(script, s, f, false)
    ensures f.Next? && s.finished ==> f.st.finished
  {
    if "beforeexecuteroute" !in h.methods then Next(s)
    else
      var answer := script(s.calls).answer;
      var t := Log(React(script, s, Tells(HandlerBeforeExecuteRoute)),
                   Fired(s.iteration, HandlerBeforeExecuteRoute, answer.ReturnsFalse?));
      if answer.Throws? then Return(t)
      else if !t.finished then Again(t)
      else if answer.ReturnsFalse? then Break(t)
      else Next(t)
  }

  /** The call of `initialize`, where the handler has it: an exception ends the
      dispatch, except one that asks to continue behind the action. */
  function CallInitialize(script: Script, s: State, h: Handler, cls: string): (f: Flow)
    ensures Quiet(script, s, f, true)
  {
    if "initialize" !in h.methods then Next(s)
    else
      var answer := script(s.calls).answer;
      var t := Log(React(script, s, Initializing), Initialized(s.iteration, cls));
      if !answer.Throws? then Next(t)
      else if !answer.exn.Continue? then Return(t)
      else Skip(t.(lastException := Some(answer.exn)))
  }

  /** The round goes on behind the action, with this as the last handler. */
  function SkipWith(script: Script, s: State, f: Flow, h: Handler): (g: Flow)
    requires Quiet(script, s, f, true) && f.Next?
    ensures Quiet(script, s, g, true) && g == Skip(f.st.(lastHandler := Some(h)))
  {
    Skip(f.st.(lastHandler := Some(h)))
  }

  /** A fresh handler is initialized, between two events. */
  function Initialize(cfg: Config, script: Script, s: State, h: Handler, cls: string): (f: Flow)
    ensures Quiet(script, s, f, true)
    ensures cfg.hasEventsManager && f.Next? ==> f.st.finished
  {
    hide Quiet, FireIfManaged, CallInitialize;
    var before := FireIfManaged(cfg, script, s, BeforeInitialize);
    QuietEitherWay(script, s, before, true);
    var ready :- before;
    var called := CallInitialize(script, ready, h, cls);
    QuietJoins(script, s, before, called, false, true);
    if !called.Next? && !called.Skip? then called
    else
      var after := FireIfManaged(cfg, script, called.st, AfterInitialize);
      QuietJoins(script, s, called, after, true, false);
      if called.Skip? && after.Next? then SkipWith(script, s, after, h) else after
  }

  function CheckParams(script: Script, s: State): (f: Flow)
    ensures Quiet(script, s, f, false)
    ensures f.Next? ==> f.st == s
  {
    if s.paramsAreArray then Next(s) else ThrowDispatchException(script, s)
  }

  /** An exception of an action: exits end the request, others go to `_handleException` and are
      thrown on if that does not answer false. */
  function HandleThrown(script: Script, s: State, exn: Exn): (f: Flow)
    ensures f.st.trace == s.trace && f.st.iteration == s.iteration && Accounts(script, s, f.st)
  {
    if exn.UnwindExit? then Goto(s)
    else
      var handled := script(s.calls).answer;
      var t := React(script, s.(lastException := Some(exn)), HandlingException);
      if handled.Throws? then Return(t)
      else if exn.Continue? then Next(t)
      else if !handled.ReturnsFalse? then Goto(t)
      else if !t.finished then Again(t)
      else Next(t)
  }

  /** The action itself. */
  function Invoke(script: Script, s: State, h: Handler, cls: string, action: string): (f: Flow)
  {
    var answer := script(s.calls).answer;
    var t := Log(React(script, s, Acting), Invoked(s.iteration, cls, action, s.finished));
    var ended :- if answer.Throws? then HandleThrown(script, t, answer.exn) else Next(t);
    Next(ended.(lastHandler := Some(h)))
  }

  /** The events behind an action, and the handler's own say. */
  function AfterExecute(cfg: Config, script: Script, s: State, h: Handler): (f: Flow)
    ensures Quiet(script, s, f, false)
  {
    var s :- if cfg.hasEventsManager then AfterExecuteEvents(script, s) else Next(s);
    if "afterexecuteroute" !in h.methods then Next(s)
    else
      var answer := script(s.calls).answer;
      var t := React(script, s, HandlerAfter);
      if answer.Throws? then Return(t)
      else if answer.ReturnsFalse? || !t.finished then Again(t)
      else Next(t)
  }

  function AfterExecuteEvents(script: Script, s: State): (f: Flow)
    ensures Quiet(script, s, f, false)
  {
    var s :- Fire(script, s, TellsAfterAction);
    if !s.finished then Again(s) else Fire(script, s, TellsAfterRound)
  }

  /** Where a round starts: it counts as finished until somebody forwards, and
      names that are not set take their defaults. */
  function StartRound(cfg: Config, s: State): State {
    s.(finished := true,
       iteration := s.iteration + 1,
       namespaceName := OrDefault(s.namespaceName, cfg.defaultNamespace),
       handlerName := OrDefault(s.handlerName, cfg.defaultHandler),
       actionName := OrDefault(s.actionName, cfg.defaultAction))
  }

  function Resolve(script: Script, s: State, cls: string): (f: Flow)
    ensures Quiet(script, s, f, false) && !f.Skip?
    ensures f.Next? ==> f.st.activeHandler.Some?
    ensures f.Next? && f.st.di.freshInstance ==> Missing(f.st, cls) < Missing(s, cls)
  {
    var loaded := LoadClass(script, s, cls);
    assert AccountsFor(script, s, loaded.st, cls);
    hide Quiet, LoadClass, ObtainHandler;
    var ready :- loaded;
    var obtained := ObtainHandler(script, ready, cls);
    QuietJoins(script, s, loaded, obtained, false, false);
    obtained
  }

  /** The round up to the point where its handler is known. */
  function Prepare(cfg: Config, script: Script, s: State, cls: string): (f: Flow)
    ensures Quiet(script, s, f, false) && !f.Skip?
    ensures f.Next? ==> f.st.activeHandler.Some?
    ensures f.Next? && f.st.di.freshInstance ==> Missing(f.st, cls) < Missing(s, cls)
  {
    var fired := FireIfManaged(cfg, script, s, BeforeDispatch);
    assert AccountsFor(script, s, fired.st, cls);
    hide Quiet, FireIfManaged, Resolve;
    var ready :- fired;
    var resolved := Resolve(script, ready, cls);
    QuietJoins(script, s, fired, resolved, false, false);
    resolved
  }

  /** The hooks every round has before its action. */
  function Announce(cfg: Config, script: Script, s: State, h: Handler, action: string): (f: Flow)
    ensures Quiet(script, s, f, false)
    ensures cfg.hasEventsManager && f.Next? ==> f.st.finished
  {
    hide Quiet, CheckAction, FireIfManaged, HandlerBefore;
    var checked := CheckAction(cfg, script, s, h, action);
    var found :- checked;
    var fired := FireIfManaged(cfg, script, found, BeforeExecuteRoute);
    QuietJoins(script, s, checked, fired, false, false);
    var ready :- fired;
    var asked := HandlerBefore(script, ready, h);
    QuietJoins(script, s, fired, asked, false, false);
    asked
  }

  /** A new handler is initialized, and the parameters are looked at. */
  function Settle(cfg: Config, script: Script, s: State, h: Handler, cls: string, isNew: bool): (f: Flow)
    ensures Quiet(script, s, f, isNew)
    ensures f.Next? && (cfg.hasEventsManager || !isNew) && s.finished ==> f.st.finished
  {
    if !isNew then CheckParams(script, s)
    else
      hide Quiet, Initialize;
      var initialized := Initialize(cfg, script, s, h, cls);
      var ready :- initialized;
      var checked := CheckParams(script, ready);
      QuietJoins(script, s, initialized, checked, true, false);
      checked
  }

  /** From there to the point where the action would be called. */
  function Approach(cfg: Config, script: Script, s: State, h: Handler, cls: string, action: string): (f: Flow)
    ensures Quiet(script, s, f, s.di.freshInstance)
    ensures cfg.hasEventsManager && f.Next? ==> f.st.finished
  {
    hide Quiet, Announce, Settle;
    var isNew := s.di.freshInstance;
    var announced := Announce(cfg, script, s, h, action);
    QuietEitherWay(script, s, announced, isNew);
    var ready :- announced;
    var settled := Settle(cfg, script, ready, h, cls, isNew);
    QuietJoins(script, s, announced, settled, false, isNew);
    settled
  }

  function Perform(cfg: Config, script: Script, s: State, h: Handler, cls: string, action: string): Flow {
    var s :- Approach(cfg, script, s, h, cls, action);
    Invoke(script, s, h, cls, action)
  }

  function Round(cfg: Config, script: Script, s: State): Flow {
    var start := StartRound(cfg, s);
    var cls := HandlerClass(cfg, start.namespaceName, start.handlerName);
    var s :- Prepare(cfg, script, start, cls);
    assert s.activeHandler.Some?;
    var h := s.activeHandler.value;
    var performed := Perform(cfg, script, s, h, cls, start.actionName + cfg.actionSuffix);
    if performed.Next? || performed.Skip? then AfterExecute(cfg, script, performed.st, h) else performed
  }

  // ----------------------------------------------------------------- the loop

  /** Rounds until one is finished, at most 255 of them. */
  function Rounds(cfg: Config, script: Script, s: State, number: nat): Flow
    requires number < MAX_DISPATCHES
    decreases MAX_DISPATCHES - number
  {
    if s.finished then Break(s)
    else if number + 1 == MAX_DISPATCHES then
      var f := Fire(script, s, TellsTooMany);
      if f.Next? then Break(f.st) else f
    else
      var f := Round(cfg, script, s);
      if f.Next? || f.Again? then Rounds(cfg, script, f.st, number + 1) else f
  }

  /** The first event of a dispatch has been fired. */
  function Opened(script: Script, s: State): State {
    Log(React(script, s, Tells(BeforeDispatchLoop)),
        Fired(s.iteration, BeforeDispatchLoop, script(s.calls).answer.ReturnsFalse?))
  }

  /** A dispatch, from its first event to its last. */
  function Dispatch(cfg: Config, script: Script, s: State): State {
    var answer := script(s.calls).answer;
    var t := Opened(script, s);
    if answer.Throws? || answer.ReturnsFalse? then t
    else
      var f := Rounds(cfg, script, t.(finished := false), 0);
      if f.Return? then f.st else Fire(script, f.st, TellsAfterLoop).st
  }

  /** A dispatch is its first event, the loop, and its last event. */
  lemma DispatchIs(cfg: Config, script: Script, s: State)
    ensures var t := Opened(script, s);
      Dispatch(cfg, script, s) ==
      if !script(s.calls).answer.ReturnsOther? then t
      else
        var f := Rounds(cfg, script, t.(finished := false), 0);
        if f.Return? then f.st else Fire(script, f.st, TellsAfterLoop).st
  {
    hide Rounds, React, Opened, Fire;
  }

  // ---------------------------------------------------------- no stale action

  lemma InvokeIsSane(script: Script, s: State, h: Handler, cls: string, action: string)
    requires Sane(s) && Clean(s) && s.finished
    ensures Sane(Invoke(script, s, h, cls, action).st) && Invoke(script, s, h, cls, action).st.iteration == s.iteration
  {
    var t := Log(s, Invoked(s.iteration, cls, action, s.finished));
    assert Invoke(script, s, h, cls, action).st.trace == t.trace;
    forall i | 0 <= i < |t.trace| && t.trace[i].Invoked?
      ensures t.trace[i].finished && NotCancelledBefore(t.trace, i)
    {
      if i < |s.trace| {
        assert NotCancelledBefore(s.trace, i);
      }
    }
  }

  lemma AfterExecuteIsSane(cfg: Config, script: Script, s: State, h: Handler)
    requires Sane(s)
    ensures Sane(AfterExecute(cfg, script, s, h).st) && AfterExecute(cfg, script, s, h).st.iteration == s.iteration
  {
    AfterExecuteKeepsTrace(cfg, script, s, h);
    hide AfterExecute;
  }

  lemma AfterExecuteKeepsTrace(cfg: Config, script: Script, s: State, h: Handler)
    ensures var t := AfterExecute(cfg, script, s, h).st; t.trace == s.trace && t.iteration == s.iteration
  {
    hide Quiet, Accounts, ApplyAll;
  }

  lemma PerformIsSane(cfg: Config, script: Script, s: State, h: Handler, cls: string, action: string)
    requires Sane(s) && Clean(s)
    requires var f := Approach(cfg, script, s, h, cls, action); f.Next? ==> f.st.finished
    ensures Sane(Perform(cfg, script, s, h, cls, action).st)
  {
    hide Approach, Invoke;
    var f := Approach(cfg, script, s, h, cls, action);
    QuietIsSane(script, s, f, s.di.freshInstance);
    if f.Next? {
      InvokeIsSane(script, f.st, h, cls, action);
    }
  }

  /** The dispatcher is finished where this round would call its action. */
  ghost predicate FinishedAtAction(cfg: Config, script: Script, s: State) {
    var start := StartRound(cfg, s);
    var cls := HandlerClass(cfg, start.namespaceName, start.handlerName);
    var f := Prepare(cfg, script, start, cls);
    f.Next? ==>
      var g := Approach(cfg, script, f.st, f.st.activeHandler.value, cls, start.actionName + cfg.actionSuffix);
      g.Next? ==> g.st.finished
  }

  lemma RoundIsSane(cfg: Config, script: Script, s: State)
    requires cfg.hasEventsManager && Sane(s)
    ensures Sane(Round(cfg, script, s).st)
  {
    hide Prepare, Approach, Round, Sane;
    FinishedRoundIsSane(cfg, script, s);
  }

  lemma FinishedRoundIsSane(cfg: Config, script: Script, s: State)
    requires Sane(s) && FinishedAtAction(cfg, script, s)
    ensures Sane(Round(cfg, script, s).st)
  {
    hide Prepare, Approach, Perform, AfterExecute, HandlerClass, Quiet;
    var start := StartRound(cfg, s);
    var cls := HandlerClass(cfg, start.namespaceName, start.handlerName);
    var f := Prepare(cfg, script, start, cls);
    assert Sane(start) && Clean(start);
    QuietIsSane(script, start, f, false);
    if f.Next? {
      var h, action := f.st.activeHandler.value, start.actionName + cfg.actionSuffix;
      PerformIsSane(cfg, script, f.st, h, cls, action);
      AfterExecuteIsSane(cfg, script, Perform(cfg, script, f.st, h, cls, action).st, h);
    }
  }

  lemma {:induction false} RoundsAreSane(cfg: Config, script: Script, s: State, number: nat)
    requires cfg.hasEventsManager && number < MAX_DISPATCHES && Sane(s)
    ensures Sane(Rounds(cfg, script, s, number).st)
    decreases MAX_DISPATCHES - number
  {
    hide Round;
    if !s.finished && number + 1 < MAX_DISPATCHES {
      RoundIsSane(cfg, script, s);
      var f := Round(cfg, script, s);
      if f.Next? || f.Again? {
        RoundsAreSane(cfg, script, f.st, number + 1);
      }
    }
  }

  /** With an events manager, whatever listeners and handlers do, an action is
      invoked only while nobody has forwarded, set the dispatcher unfinished or
      cancelled a hook of that round. */
  lemma ManagedDispatchHasNoStaleAction(cfg: Config, script: Script, s: State)
    requires cfg.hasEventsManager && Sane(s)
    ensures Sane(Dispatch(cfg, script, s))
  {
    hide Round, Rounds;
    var answer := script(s.calls).answer;
    var t := Opened(script, s);
    assert Sane(t) by {
      forall i | 0 <= i < |t.trace| && t.trace[i].Invoked?
        ensures t.trace[i].finished && NotCancelledBefore(t.trace, i)
      {
        assert NotCancelledBefore(s.trace, i);
      }
    }
    RoundsAreSane(cfg, script, t.(finished := false), 0);
  }

  // --------------------------------------------- without an events manager

  /** Whatever initializes the handler of a round leaves the dispatcher finished. */
  ghost predicate CalmInitialize(cfg: Config, script: Script, s: State, h: Handler, cls: string, action: string) {
    var announced := Announce(cfg, script, s, h, action);
    announced.Next? && s.di.freshInstance ==>
      var initialized := Initialize(cfg, script, announced.st, h, cls);
      initialized.Next? ==> initialized.st.finished
  }

  /** So does whatever loads its class and makes it. */
  ghost predicate CalmRound(cfg: Config, script: Script, s: State) {
    var start := StartRound(cfg, s);
    var cls := HandlerClass(cfg, start.namespaceName, start.handlerName);
    var f := Prepare(cfg, script, start, cls);
    f.Next? ==>
      && f.st.finished
      && CalmInitialize(cfg, script, f.st, f.st.activeHandler.value, cls, start.actionName + cfg.actionSuffix)
  }

  /** In every round of a dispatch. */
  ghost predicate CalmRounds(cfg: Config, script: Script, s: State, number: nat)
    requires number < MAX_DISPATCHES
    decreases MAX_DISPATCHES - number
  {
    !s.finished && number + 1 < MAX_DISPATCHES ==>
      && CalmRound(cfg, script, s)
      && var f := Round(cfg, script, s);
         (f.Next? || f.Again? ==> CalmRounds(cfg, script, f.st, number + 1))
  }

  ghost predicate CalmDispatch(cfg: Config, script: Script, s: State) {
    var answer := script(s.calls).answer;
    var t := Opened(script, s);
    !answer.Throws? && !answer.ReturnsFalse? ==> CalmRounds(cfg, script, t.(finished := false), 0)
  }

  lemma CalmApproachIsFinished(cfg: Config, script: Script, s: State, h: Handler, cls: string, action: string)
    requires s.finished && CalmInitialize(cfg, script, s, h, cls, action)
    ensures var f := Approach(cfg, script, s, h, cls, action); f.Next? ==> f.st.finished
  {
    hide Quiet, CheckAction, FireIfManaged, HandlerBefore, Initialize, ThrowDispatchException;
    CalmAnnounceIsFinished(cfg, script, s, h, action);
    hide Announce;
  }

  lemma CalmAnnounceIsFinished(cfg: Config, script: Script, s: State, h: Handler, action: string)
    requires s.finished
    ensures var f := Announce(cfg, script, s, h, action); f.Next? ==> f.st.finished
  {
    hide Quiet, HandlerBefore, FireCancel, ThrowDispatchException;
  }

  lemma {:induction false} CalmRoundsAreSane(cfg: Config, script: Script, s: State, number: nat)
    requires number < MAX_DISPATCHES && Sane(s) && CalmRounds(cfg, script, s, number)
    ensures Sane(Rounds(cfg, script, s, number).st)
    decreases MAX_DISPATCHES - number
  {
    hide Round, Sane, FinishedAtAction, CalmRound;
    if !s.finished && number + 1 < MAX_DISPATCHES {
      CalmRoundIsFinished(cfg, script, s);
      FinishedRoundIsSane(cfg, script, s);
      var f := Round(cfg, script, s);
      if f.Next? || f.Again? {
        CalmRoundsAreSane(cfg, script, f.st, number + 1);
      }
    } else if !s.finished {
      FireIsSane(script, s, TellsTooMany);
    }
  }

  lemma FireIsSane(script: Script, s: State, what: Request)
    requires Sane(s)
    ensures Sane(Fire(script, s, what).st)
  {
    assert Fire(script, s, what).st.trace == s.trace;
  }

  lemma CalmRoundIsFinished(cfg: Config, script: Script, s: State)
    requires CalmRound(cfg, script, s)
    ensures FinishedAtAction(cfg, script, s)
  {
    hide Prepare, Approach, HandlerClass, Quiet, CalmInitialize;
    var start := StartRound(cfg, s);
    var cls := HandlerClass(cfg, start.namespaceName, start.handlerName);
    var f := Prepare(cfg, script, start, cls);
    if f.Next? {
      CalmApproachIsFinished(cfg, script, f.st, f.st.activeHandler.value, cls, start.actionName + cfg.actionSuffix);
    }
  }

  /** With or without an events manager: a dispatch in which whatever loads, makes and initializes
      the handlers leaves the dispatcher finished has no stale action. */
  lemma CalmDispatchHasNoStaleAction(cfg: Config, script: Script, s: State)
    requires Sane(s) && CalmDispatch(cfg, script, s)
    ensures Sane(Dispatch(cfg, script, s))
  {
    var answer := script(s.calls).answer;
    var t := Opened(script, s);
    LoggedIsSane(React(script, s, Tells(BeforeDispatchLoop)), s.trace,
                 Fired(s.iteration, BeforeDispatchLoop, answer.ReturnsFalse?));
    hide Round, Rounds, CalmRounds, Fire;
    if !answer.Throws? && !answer.ReturnsFalse? {
      CalmRoundsAreSane(cfg, script, t.(finished := false), 0);
      FireIsSane(script, Rounds(cfg, script, t.(finished := false), 0).st, TellsAfterLoop);
    }
  }

  lemma LoggedIsSane(s: State, before: seq<Event>, ev: Event)
    requires Sane(s) && s.trace == before && ev.Fired? && ev.iteration <= s.iteration
    ensures Sane(Log(s, ev)) && Sane(Log(s, ev).(finished := false))
  {
    forall i | 0 <= i < |before + [ev]| && (before + [ev])[i].Invoked?
      ensures (before + [ev])[i].finished && NotCancelledBefore(before + [ev], i)
    {
      assert NotCancelledBefore(before, i);
    }
  }

  const FORWARD_ONLY := Forward(None, None, None, None)
  const FORWARD_WITH_PARAMS := Forward(None, None, None, Some(true))

  /** Resolution yields `h`, its `initialize` forwards, and the action exits. */
  function ForwardInInitialize(first: nat, h: Handler): Script {
    n =>
      if n == first + 1 then Reaction([], ReturnsOther, true, Object(h))
      else if n == first + 2 then Reaction([FORWARD_WITH_PARAMS], ReturnsOther, true, Object(h))
      else if n == first + 3 then Reaction([], Throws(UnwindExit), true, Object(h))
      else Reaction([], ReturnsOther, true, Object(h))
  }

  /** What a call into user code without operations leaves. */
  function Called(s: State, what: Request): State {
    s.(calls := s.calls + 1, asked := s.asked + [Asked(s.calls, what, s.iteration, s.finished)])
  }

  /** What a call that performs one operation leaves. */
  function CalledWith(s: State, what: Request, op: Op): State {
    var t := Apply(s.(calls := s.calls + 1), op);
    t.(asked := s.asked + [Asked(s.calls, what, s.iteration, t.finished)])
  }

  lemma NothingApplied(script: Script, s: State, what: Request)
    requires script(s.calls).ops == []
    ensures React(script, s, what) == Called(s, what)
  {
    hide Accounts;
  }

  lemma OneApplied(script: Script, s: State, what: Request, op: Op)
    requires script(s.calls).ops == [op]
    ensures React(script, s, what) == CalledWith(s, what, op)
  {
    hide Accounts;
    assert [op][1..] == [];
    assert ApplyAll(s.(calls := s.calls + 1), [op]) == Apply(s.(calls := s.calls + 1), op);
  }

  /** Without an events manager the property fails: `initialize` may forward, and
      the action of the abandoned round is called all the same. */
  lemma UnmanagedDispatchHasStaleAction(cfg: Config, s: State)
    requires !cfg.hasEventsManager && Sane(s)
    requires Lower(StartRound(cfg, s).actionName + cfg.actionSuffix) != "beforeexecuteroute"
    requires var cls := HandlerClass(cfg, StartRound(cfg, s).namespaceName, StartRound(cfg, s).handlerName);
      cls in s.di.names && cls !in s.di.shared
    ensures exists script: Script :: !NoStaleAction(Dispatch(cfg, script, s).trace)
  {
    var action := StartRound(cfg, s).actionName + cfg.actionSuffix;
    var h := Handler(0, {Lower(action), "initialize"});
    assert "beforeexecuteroute" !in h.methods;
    var script := ForwardInInitialize(s.calls, h);
    StaleRound(cfg, script, s, h, action);
    assert !NoStaleAction(Dispatch(cfg, script, s).trace);
  }

  lemma StaleRound(cfg: Config, script: Script, s: State, h: Handler, action: string)
    requires !cfg.hasEventsManager && Sane(s) && action == StartRound(cfg, s).actionName + cfg.actionSuffix
    requires "beforeexecuteroute" !in h.methods && "initialize" in h.methods && Lower(action) in h.methods
    requires script == ForwardInInitialize(s.calls, h)
    requires var cls := HandlerClass(cfg, StartRound(cfg, s).namespaceName, StartRound(cfg, s).handlerName);
      cls in s.di.names && cls !in s.di.shared
    ensures !NoStaleAction(Dispatch(cfg, script, s).trace)
  {
    hide Prepare, Approach, Invoke, AfterExecute, HandlerClass, Quiet;
    NothingApplied(script, s, Tells(BeforeDispatchLoop));
    var t := Opened(script, s).(finished := false);
    var start := StartRound(cfg, t);
    var cls := HandlerClass(cfg, start.namespaceName, start.handlerName);
    StalePrepare(cfg, start, s.calls, h, cls);
    var ready := Prepare(cfg, script, start, cls).st;
    StaleApproach(cfg, ready, s.calls, h, cls, action);
    var initialized := Approach(cfg, script, ready, h, cls, action).st;
    StaleInvoke(initialized, s.calls, h, cls, action);
    var invoked := Invoke(script, initialized, h, cls, action);
    assert Round(cfg, script, t) == invoked;
    hide Round;
    var trace := invoked.st.trace;
    assert trace[|trace| - 1] == Invoked(start.iteration, cls, action, false);
    assert Rounds(cfg, script, t, 0) == invoked;
    assert Dispatch(cfg, script, s).trace == trace;
  }

  lemma StalePrepare(cfg: Config, s: State, first: nat, h: Handler, cls: string)
    requires !cfg.hasEventsManager && s.calls == first + 1 && cls in s.di.names && cls !in s.di.shared
    ensures Prepare(cfg, ForwardInInitialize(first, h), s, cls)
         == Next(Called(s, Making).(di := Shared(s.di, cls, false, Object(h)), activeHandler := Some(h)))
  {
    hide Quiet, React;
    NothingApplied(ForwardInInitialize(first, h), s, Making);
  }

  lemma StaleApproach(cfg: Config, s: State, first: nat, h: Handler, cls: string, action: string)
    requires !cfg.hasEventsManager && s.calls == first + 2 && s.di.freshInstance
    requires "beforeexecuteroute" !in h.methods && "initialize" in h.methods && Lower(action) in h.methods
    ensures Approach(cfg, ForwardInInitialize(first, h), s, h, cls, action)
         == Next(Log(CalledWith(s, Initializing, FORWARD_WITH_PARAMS), Initialized(s.iteration, cls)))
  {
    hide Quiet, Accounts, React;
    OneApplied(ForwardInInitialize(first, h), s, Initializing, FORWARD_WITH_PARAMS);
  }

  lemma StaleInvoke(s: State, first: nat, h: Handler, cls: string, action: string)
    requires s.calls == first + 3
    ensures Invoke(ForwardInInitialize(first, h), s, h, cls, action)
         == Goto(Log(Called(s, Acting), Invoked(s.iteration, cls, action, s.finished)))
  {
    hide React, Accounts;
    NothingApplied(ForwardInInitialize(first, h), s, Acting);
  }

  ghost predicate NeverStale(cfg: Config) {
    forall script: Script, s: State :: Sane(s) ==> NoStaleAction(Dispatch(cfg, script, s).trace)
  }

  /** A dispatcher about to dispatch the default handler, known to the container. */
  function AtDefaults(cfg: Config): State {
    State(true, false, "", "", "index", true, "", "", "", None, None, None,
          Services({HandlerClass(cfg, OrDefault("", cfg.defaultNamespace), OrDefault("", cfg.defaultHandler))},
                   map[], false),
          0, 0, [], [], [])
  }

  /** No stale action, for all listeners and handlers, exactly with an events
      manager: the check behind `initialize` is part of its event. */
  lemma NeverStaleIffManaged(cfg: Config)
    ensures NeverStale(cfg) <==> cfg.hasEventsManager
  {
    hide Dispatch;
    if cfg.hasEventsManager {
      forall script: Script, s: State | Sane(s)
        ensures NoStaleAction(Dispatch(cfg, script, s).trace)
      {
        ManagedDispatchHasNoStaleAction(cfg, script, s);
      }
    } else {
      var s := AtDefaults(cfg);
      assert Lower("index" + cfg.actionSuffix)[0] == 'i';
      UnmanagedDispatchHasStaleAction(cfg, s);
    }
  }

  // ------------------------------------------------------------- termination

  /** How many actions a trace shows. */
  function Actions(trace: seq<Event>): nat {
    if trace == [] then 0
    else Actions(trace[..|trace| - 1]) + if trace[|trace| - 1].Invoked? then 1 else 0
  }

  /** How often a class was initialized. */
  function Initializations(trace: seq<Event>, cls: string): nat {
    if trace == [] then 0
    else
      var last := trace[|trace| - 1];
      Initializations(trace[..|trace| - 1], cls) + if last.Initialized? && last.cls == cls then 1 else 0
  }

  lemma {:induction false} QuietCounts(s: seq<Event>, t: seq<Event>, cls: string)
    requires |s| <= |t| && t[..|s|] == s
    requires forall i :: |s| <= i < |t| ==> !t[i].Invoked?
    ensures Actions(t) == Actions(s)
    ensures (forall i :: |s| <= i < |t| ==> t[i].Fired?) ==> Initializations(t, cls) == Initializations(s, cls)
    decreases |t|
  {
    if |s| < |t| {
      assert t[..|t| - 1][..|s|] == s;
      QuietCounts(s, t[..|t| - 1], cls);
    } else {
      assert s == t;
    }
  }

  lemma RoundInvokesOnce(cfg: Config, script: Script, s: State)
    ensures Actions(Round(cfg, script, s).st.trace) <= Actions(s.trace) + 1
  {
    hide Prepare, Perform, AfterExecute;
    var start := StartRound(cfg, s);
    var cls := HandlerClass(cfg, start.namespaceName, start.handlerName);
    var f := Prepare(cfg, script, start, cls);
    QuietCounts(s.trace, f.st.trace, "");
    if f.Next? {
      var h, action := f.st.activeHandler.value, start.actionName + cfg.actionSuffix;
      PerformInvokesOnce(cfg, script, f.st, h, cls, action);
      var performed := Perform(cfg, script, f.st, h, cls, action);
      QuietCounts(performed.st.trace, AfterExecute(cfg, script, performed.st, h).st.trace, "");
    }
  }

  lemma InvokeIsSeen(script: Script, s: State, h: Handler, cls: string, action: string)
    ensures var t := Invoke(script, s, h, cls, action).st;
      t.trace == s.trace + [Invoked(s.iteration, cls, action, s.finished)] && Accounts(script, s, t)
  {
  }

  lemma PerformInvokesOnce(cfg: Config, script: Script, s: State, h: Handler, cls: string, action: string)
    ensures Actions(Perform(cfg, script, s, h, cls, action).st.trace) <= Actions(s.trace) + 1
  {
    hide Approach, Invoke;
    var f := Approach(cfg, script, s, h, cls, action);
    QuietCounts(s.trace, f.st.trace, "");
    if f.Next? {
      InvokeIsSeen(script, f.st, h, cls, action);
      CountInvoked(f.st.trace, Invoked(f.st.iteration, cls, action, f.st.finished));
    }
  }

  lemma {:induction false} RoundsInvokeAtMost(cfg: Config, script: Script, s: State, number: nat)
    requires number < MAX_DISPATCHES
    ensures Actions(Rounds(cfg, script, s, number).st.trace) <= Actions(s.trace) + (MAX_DISPATCHES - 1 - number)
    decreases MAX_DISPATCHES - number
  {
    hide Round;
    if !s.finished && number + 1 < MAX_DISPATCHES {
      RoundInvokesOnce(cfg, script, s);
      var f := Round(cfg, script, s);
      if f.Next? || f.Again? {
        RoundsInvokeAtMost(cfg, script, f.st, number + 1);
      }
    }
  }

  /** However often listeners and handlers forward, one dispatch ends, with at
      most 255 actions. */
  lemma DispatchInvokesAtMost255(cfg: Config, script: Script, s: State)
    ensures Actions(Dispatch(cfg, script, s).trace) <= Actions(s.trace) + 255
  {
    hide Round, Rounds;
    var t := Opened(script, s);
    QuietCounts(s.trace, t.trace, "");
    RoundsInvokeAtMost(cfg, script, t.(finished := false), 0);
  }

  // --------------------------------------------------------- the bound is met

  /** With a known handler each round makes five calls into user code; in this
      script the fourth, the action, forwards. */
  function ForwardingScript(first: nat): Script {
    n => Reaction(if n >= first && (n - first) % 5 == 3 then [FORWARD_ONLY] else [], ReturnsOther, true, Scalar(false))
  }

  /** A round of that script is about to start. */
  ghost predicate AboutToForward(cfg: Config, s: State, first: nat, h: Handler) {
    var start := StartRound(cfg, s);
    var cls := HandlerClass(cfg, start.namespaceName, start.handlerName);
    && !s.finished && s.paramsAreArray && s.calls >= first && (s.calls - first) % 5 == 0
    && cls in s.di.names && cls in s.di.shared && s.di.shared[cls] == Object(h)
    && h.methods == {Lower(start.actionName + cfg.actionSuffix)}
    && "beforeexecuteroute" !in h.methods
  }

  lemma ForwardingFires(cfg: Config, s: State, first: nat)
    requires cfg.hasEventsManager && s.finished && s.calls >= first && (s.calls - first) % 5 == 0
    ensures FireIfManaged(cfg, ForwardingScript(first), s, BeforeDispatch) ==
            Next(Log(Called(s, Tells(BeforeDispatch)), Fired(s.iteration, BeforeDispatch, false)))
  {
    hide Quiet, Accounts, Lower, React;
    NothingApplied(ForwardingScript(first), s, Tells(BeforeDispatch));
  }

  lemma ForwardingPrepare(cfg: Config, s: State, first: nat, h: Handler)
    requires cfg.hasEventsManager && AboutToForward(cfg, s, first, h)
    ensures var start := StartRound(cfg, s);
      var fired := Log(Called(start, Tells(BeforeDispatch)), Fired(start.iteration, BeforeDispatch, false));
      Prepare(cfg, ForwardingScript(first), start, HandlerClass(cfg, start.namespaceName, start.handlerName)) ==
      Next(Called(fired, Making).(di := fired.di.(freshInstance := false), activeHandler := Some(h)))
  {
    hide Quiet, Accounts, Lower, FireIfManaged, React;
    var start := StartRound(cfg, s);
    ForwardingFires(cfg, start, first);
    NothingApplied(ForwardingScript(first),
                   Log(Called(start, Tells(BeforeDispatch)), Fired(start.iteration, BeforeDispatch, false)), Making);
  }

  lemma ForwardingApproach(cfg: Config, s: State, first: nat, h: Handler, cls: string, action: string)
    requires cfg.hasEventsManager && s.finished && s.paramsAreArray && !s.di.freshInstance
    requires s.calls >= first && (s.calls - first) % 5 == 2
    requires h.methods == {Lower(action)} && "beforeexecuteroute" !in h.methods
    ensures Approach(cfg, ForwardingScript(first), s, h, cls, action) ==
            Next(Log(Called(s, Tells(BeforeExecuteRoute)), Fired(s.iteration, BeforeExecuteRoute, false)))
  {
    hide React, Quiet, Accounts;
    NothingApplied(ForwardingScript(first), s, Tells(BeforeExecuteRoute));
  }

  lemma ForwardingInvoke(cfg: Config, s: State, first: nat, h: Handler, cls: string, action: string)
    requires s.calls >= first && (s.calls - first) % 5 == 3
    ensures Invoke(ForwardingScript(first), s, h, cls, action) ==
      Next(Log(CalledWith(s, Acting, FORWARD_ONLY), Invoked(s.iteration, cls, action, s.finished))
           .(lastHandler := Some(h)))
  {
    hide Accounts, React;
    OneApplied(ForwardingScript(first), s, Acting, FORWARD_ONLY);
  }

  lemma ForwardingAfter(cfg: Config, s: State, first: nat, h: Handler)
    requires cfg.hasEventsManager && !s.finished && s.calls >= first && (s.calls - first) % 5 == 4
    ensures AfterExecute(cfg, ForwardingScript(first), s, h) == Again(Called(s, TellsAfterAction))
  {
    hide Quiet, Accounts, React;
    NothingApplied(ForwardingScript(first), s, TellsAfterAction);
  }

  /** What such a round leaves. */
  function ForwardingDone(cfg: Config, s: State, h: Handler): State {
    var start := StartRound(cfg, s);
    var cls := HandlerClass(cfg, start.namespaceName, start.handlerName);
    var fired := Log(Called(start, Tells(BeforeDispatch)), Fired(start.iteration, BeforeDispatch, false));
    var ready := Called(fired, Making).(di := fired.di.(freshInstance := false), activeHandler := Some(h));
    var near := Log(Called(ready, Tells(BeforeExecuteRoute)), Fired(ready.iteration, BeforeExecuteRoute, false));
    var action := start.actionName + cfg.actionSuffix;
    var invoked := Log(CalledWith(near, Acting, FORWARD_ONLY), Invoked(near.iteration, cls, action, near.finished));
    Called(invoked.(lastHandler := Some(h)), TellsAfterAction)
  }

  lemma ForwardingRoundIs(cfg: Config, s: State, first: nat, h: Handler)
    requires cfg.hasEventsManager && AboutToForward(cfg, s, first, h)
    ensures Round(cfg, ForwardingScript(first), s) == Again(ForwardingDone(cfg, s, h))
  {
    hide Prepare, Approach, Invoke, AfterExecute, HandlerClass, Quiet;
    var script, start := ForwardingScript(first), StartRound(cfg, s);
    var cls := HandlerClass(cfg, start.namespaceName, start.handlerName);
    var action := start.actionName + cfg.actionSuffix;
    ForwardingPrepare(cfg, s, first, h);
    var ready := Prepare(cfg, script, start, cls).st;
    ForwardingApproach(cfg, ready, first, h, cls, action);
    var near := Approach(cfg, script, ready, h, cls, action).st;
    ForwardingInvoke(cfg, near, first, h, cls, action);
    var invoked := Invoke(script, near, h, cls, action).st;
    ForwardingAfter(cfg, invoked, first, h);
  }

  lemma {:induction false} CountOther(trace: seq<Event>, ev: Event)
    requires !ev.Invoked?
    ensures Actions(trace + [ev]) == Actions(trace)
  {
    assert (trace + [ev])[..|trace|] == trace;
  }

  lemma ForwardingActs(cfg: Config, s: State, h: Handler)
    ensures Actions(ForwardingDone(cfg, s, h).trace) == Actions(s.trace) + 1
  {
    var start := StartRound(cfg, s);
    var fired := Fired(start.iteration, BeforeDispatch, false);
    var again := Fired(start.iteration, BeforeExecuteRoute, false);
    var cls := HandlerClass(cfg, start.namespaceName, start.handlerName);
    var invoked := Invoked(start.iteration, cls, start.actionName + cfg.actionSuffix, true);
    assert ForwardingDone(cfg, s, h).trace == s.trace + [fired] + [again] + [invoked];
    hide *;
    CountOther(s.trace, fired);
    CountOther(s.trace + [fired], again);
    CountInvoked(s.trace + [fired] + [again], invoked);
  }

  lemma ForwardingAgain(cfg: Config, s: State, first: nat, h: Handler)
    requires AboutToForward(cfg, s, first, h)
    ensures AboutToForward(cfg, ForwardingDone(cfg, s, h), first, h)
  {
    hide HandlerClass, Lower;
    var start, done := StartRound(cfg, s), ForwardingDone(cfg, s, h);
    assert done.calls == s.calls + 5;
    assert done.namespaceName == start.namespaceName && done.handlerName == start.handlerName
        && done.actionName == start.actionName;
    NamesStay(cfg, s, done);
  }

  /** Names that a round has completed are complete for the next. */
  lemma NamesStay(cfg: Config, s: State, t: State)
    requires t.namespaceName == StartRound(cfg, s).namespaceName
    requires t.handlerName == StartRound(cfg, s).handlerName
    requires t.actionName == StartRound(cfg, s).actionName
    ensures StartRound(cfg, t).namespaceName == t.namespaceName
    ensures StartRound(cfg, t).handlerName == t.handlerName
    ensures StartRound(cfg, t).actionName == t.actionName
  {
  }

  lemma ForwardingRound(cfg: Config, s: State, first: nat, h: Handler)
    requires cfg.hasEventsManager && AboutToForward(cfg, s, first, h)
    ensures var f := Round(cfg, ForwardingScript(first), s);
      f.Again? && AboutToForward(cfg, f.st, first, h) && Actions(f.st.trace) == Actions(s.trace) + 1
  {
    hide *;
    ForwardingRoundIs(cfg, s, first, h);
    ForwardingActs(cfg, s, h);
    ForwardingAgain(cfg, s, first, h);
  }

  lemma CountInvoked(trace: seq<Event>, ev: Event)
    requires ev.Invoked?
    ensures Actions(trace + [ev]) == Actions(trace) + 1
  {
    assert (trace + [ev])[..|trace|] == trace;
  }

  lemma {:induction false} ForwardingRounds(cfg: Config, s: State, first: nat, h: Handler, number: nat)
    requires cfg.hasEventsManager && AboutToForward(cfg, s, first, h) && number < MAX_DISPATCHES
    ensures Actions(Rounds(cfg, ForwardingScript(first), s, number).st.trace)
         == Actions(s.trace) + (MAX_DISPATCHES - 1 - number)
    decreases MAX_DISPATCHES - number
  {
    hide Round;
    if number + 1 < MAX_DISPATCHES {
      ForwardingRound(cfg, s, first, h);
      ForwardingRounds(cfg, Round(cfg, ForwardingScript(first), s).st, first, h, number + 1);
    }
  }

  /** An action that always forwards is called 255 times in one dispatch. */
  lemma BoundIsMet(cfg: Config, s: State, h: Handler)
    requires cfg.hasEventsManager && s.trace == []
    requires AboutToForward(cfg, s.(calls := s.calls + 1, finished := false), s.calls + 1, h)
    ensures Actions(Dispatch(cfg, ForwardingScript(s.calls + 1), s).trace) == 255
  {
    hide Round, Rounds;
    var script := ForwardingScript(s.calls + 1);
    NothingApplied(script, s, Tells(BeforeDispatchLoop));
    var t := Opened(script, s).(finished := false);
    assert AboutToForward(cfg, t, s.calls + 1, h);
    QuietCounts([], t.trace, "");
    ForwardingRounds(cfg, t, s.calls + 1, h, 0);
  }

  // --------------------------------------------------- initialize at most once

  /** How often a class was initialized, and whether it can be once more, less how often its
      instance was taken away. */
  function Balance(s: State, name: string): int {
    Initializations(s.trace, name) + Missing(s, name)
  }

  /** The balance has grown by no more than `extra`. */
  ghost predicate Balanced(script: Script, s: State, t: State, name: string, extra: nat) {
    && Balance(t, name) <= Balance(s, name) + extra
    && (ScriptSpares(script, name) ==> Drops(t.performed, name) == Drops(s.performed, name))
  }

  lemma QuietIsBalanced(script: Script, s: State, f: Flow, name: string)
    requires Quiet(script, s, f, false)
    ensures Balanced(script, s, f.st, name, 0)
  {
    assert AccountsFor(script, s, f.st, name);
    QuietCounts(s.trace, f.st.trace, name);
  }

  /** One initialization more, for the class that is initialized. */
  function ExtraFor(cls: string, name: string): nat {
    if cls == name then 1 else 0
  }

  lemma CallInitializeIsBalanced(script: Script, s: State, h: Handler, cls: string, name: string)
    ensures Balanced(script, s, CallInitialize(script, s, h, cls).st, name, ExtraFor(cls, name))
  {
    var f := CallInitialize(script, s, h, cls);
    assert AccountsFor(script, s, f.st, name);
    assert f.st.trace == s.trace || f.st.trace == s.trace + [Initialized(s.iteration, cls)];
    hide CallInitialize, Quiet, Accounts, Missing, Drops, Initializations, ScriptSpares;
    CountLast(s.trace, Initialized(s.iteration, cls), name);
  }

  lemma InitializeIsBalanced(cfg: Config, script: Script, s: State, h: Handler, cls: string, name: string)
    ensures Balanced(script, s, Initialize(cfg, script, s, h, cls).st, name, ExtraFor(cls, name))
  {
    hide FireIfManaged, FireCancel, CallInitialize, Quiet, Drops, Initializations;
    var before := FireIfManaged(cfg, script, s, BeforeInitialize);
    QuietIsBalanced(script, s, before, name);
    if before.Next? {
      var f := CallInitialize(script, before.st, h, cls);
      CallInitializeIsBalanced(script, before.st, h, cls, name);
      if f.Next? || f.Skip? {
        QuietIsBalanced(script, f.st, FireIfManaged(cfg, script, f.st, AfterInitialize), name);
      }
    }
  }

  /** `initialize` is called only for a fresh instance. */
  lemma ApproachIsBalanced(cfg: Config, script: Script, s: State, h: Handler, cls: string, action: string, name: string)
    ensures Balanced(script, s, Approach(cfg, script, s, h, cls, action).st, name,
                     if s.di.freshInstance then ExtraFor(cls, name) else 0)
  {
    hide Announce, Initialize, CheckParams, Quiet, Balance, Drops;
    var announced := Announce(cfg, script, s, h, action);
    QuietIsBalanced(script, s, announced, name);
    if announced.Next? {
      var initialized :=
        if s.di.freshInstance then Initialize(cfg, script, announced.st, h, cls) else Next(announced.st);
      if s.di.freshInstance {
        InitializeIsBalanced(cfg, script, announced.st, h, cls, name);
      }
      if initialized.Next? {
        QuietIsBalanced(script, initialized.st, CheckParams(script, initialized.st), name);
      }
    }
  }

  lemma InvokeIsBalanced(script: Script, s: State, h: Handler, cls: string, action: string, name: string)
    ensures Balanced(script, s, Invoke(script, s, h, cls, action).st, name, 0)
  {
    InvokeIsSeen(script, s, h, cls, action);
    assert AccountsFor(script, s, Invoke(script, s, h, cls, action).st, name);
    CountLast(s.trace, Invoked(s.iteration, cls, action, s.finished), name);
  }

  lemma PerformIsBalanced(cfg: Config, script: Script, s: State, h: Handler, cls: string, action: string, name: string)
    ensures Balanced(script, s, Perform(cfg, script, s, h, cls, action).st, name,
                     if s.di.freshInstance then ExtraFor(cls, name) else 0)
  {
    hide Approach, Invoke, Quiet, Balance, Drops;
    var f := Approach(cfg, script, s, h, cls, action);
    ApproachIsBalanced(cfg, script, s, h, cls, action, name);
    if f.Next? {
      InvokeIsBalanced(script, f.st, h, cls, action, name);
    }
  }

  /** A fresh instance pays for its initialization: it was missing before and is not now. */
  lemma PrepareIsBalanced(cfg: Config, script: Script, s: State, cls: string, name: string)
    ensures Balanced(script, s, Prepare(cfg, script, s, cls).st, name, 0)
    ensures Prepare(cfg, script, s, cls).Next? && Prepare(cfg, script, s, cls).st.di.freshInstance ==>
              Balance(Prepare(cfg, script, s, cls).st, name) + ExtraFor(cls, name) <= Balance(s, name)
  {
    hide Prepare, Missing;
    var f := Prepare(cfg, script, s, cls);
    QuietIsBalanced(script, s, f, name);
    QuietCounts(s.trace, f.st.trace, name);
  }

  lemma RoundIsBalanced(cfg: Config, script: Script, s: State, name: string)
    ensures Balanced(script, s, Round(cfg, script, s).st, name, 0)
  {
    hide Prepare, Perform, AfterExecute, HandlerClass, Quiet, Drops, Initializations;
    var start := StartRound(cfg, s);
    assert Balance(start, name) == Balance(s, name);
    var cls := HandlerClass(cfg, start.namespaceName, start.handlerName);
    var f := Prepare(cfg, script, start, cls);
    PrepareIsBalanced(cfg, script, start, cls, name);
    if f.Next? {
      var h, action := f.st.activeHandler.value, start.actionName + cfg.actionSuffix;
      PerformIsBalanced(cfg, script, f.st, h, cls, action, name);
      var performed := Perform(cfg, script, f.st, h, cls, action);
      QuietIsBalanced(script, performed.st, AfterExecute(cfg, script, performed.st, h), name);
      hide Balance, StartRound;
    }
  }

  lemma {:induction false} RoundsAreBalanced(cfg: Config, script: Script, s: State, number: nat, name: string)
    requires number < MAX_DISPATCHES
    ensures Balanced(script, s, Rounds(cfg, script, s, number).st, name, 0)
    decreases MAX_DISPATCHES - number
  {
    hide Round, Fire, Quiet, Balance, Drops;
    if !s.finished && number + 1 < MAX_DISPATCHES {
      RoundIsBalanced(cfg, script, s, name);
      var f := Round(cfg, script, s);
      if f.Next? || f.Again? {
        RoundsAreBalanced(cfg, script, f.st, number + 1, name);
      }
    } else if !s.finished {
      QuietIsBalanced(script, s, Fire(script, s, TellsTooMany), name);
    }
  }

  lemma DispatchIsBalanced(cfg: Config, script: Script, s: State, name: string)
    ensures Balanced(script, s, Dispatch(cfg, script, s), name, 0)
  {
    hide Round, Rounds, Fire, Quiet, Drops, Initializations;
    var t := Opened(script, s);
    assert AccountsFor(script, s, React(script, s, Tells(BeforeDispatchLoop)), name);
    CountLast(s.trace, Fired(s.iteration, BeforeDispatchLoop, script(s.calls).answer.ReturnsFalse?), name);
    var started := t.(finished := false);
    assert Balance(started, name) == Balance(t, name);
    RoundsAreBalanced(cfg, script, started, 0, name);
    var f := Rounds(cfg, script, started, 0);
    QuietIsBalanced(script, f.st, Fire(script, f.st, TellsAfterLoop), name);
  }

  /** A class was initialized at most once, and then it has a shared instance. */
  ghost predicate OnceAndShared(s: State, cls: string) {
    Initializations(s.trace, cls) <= 1 && (Initializations(s.trace, cls) == 1 ==> cls in s.di.shared)
  }

  lemma BalancedKeepsOnce(script: Script, s: State, t: State, name: string)
    requires Balanced(script, s, t, name, 0) && ScriptSpares(script, name) && OnceAndShared(s, name)
    ensures OnceAndShared(t, name)
  {
  }

  lemma RoundKeepsOnce(cfg: Config, script: Script, s: State, name: string)
    requires ScriptSpares(script, name) && OnceAndShared(s, name)
    ensures OnceAndShared(Round(cfg, script, s).st, name)
  {
    hide Round, Balanced, ScriptSpares, OnceAndShared;
    RoundIsBalanced(cfg, script, s, name);
    BalancedKeepsOnce(script, s, Round(cfg, script, s).st, name);
  }

  lemma DispatchKeepsOnce(cfg: Config, script: Script, s: State, name: string)
    requires ScriptSpares(script, name) && OnceAndShared(s, name)
    ensures OnceAndShared(Dispatch(cfg, script, s), name)
  {
    hide Dispatch, Balanced, ScriptSpares, OnceAndShared;
    DispatchIsBalanced(cfg, script, s, name);
    BalancedKeepsOnce(script, s, Dispatch(cfg, script, s), name);
  }

  /** What happens to one dispatcher and one container in a request. */
  datatype Stage = Dispatches(cfg: Config, script: Script) | Does(op: Op) | ContinuesWithClone

  /** The dispatcher is given a clone of its container for the dispatches to come. */
  function WithClone(s: State): State {
    s.(di := Cloned(s.di), performed := s.performed + [Replaced(s.di.shared.Keys)])
  }

  function AfterStage(s: State, stage: Stage): State {
    match stage
    case Dispatches(cfg, script) => Dispatch(cfg, script, s)
    case Does(op) => Apply(s, op)
    case ContinuesWithClone => WithClone(s)
  }

  function Session(s: State, stages: seq<Stage>): State
    decreases |stages|
  {
    if stages == [] then s else Session(AfterStage(s, stages[0]), stages[1..])
  }

  ghost predicate SessionSpares(stages: seq<Stage>, name: string) {
    forall i :: 0 <= i < |stages| ==>
      match stages[i]
      case Dispatches(_, script) => ScriptSpares(script, name)
      case Does(op) => Spares(op, name)
      case ContinuesWithClone => false
  }

  lemma StageIsBalanced(s: State, stage: Stage, name: string)
    ensures Balance(AfterStage(s, stage), name) <= Balance(s, name)
    ensures SessionSpares([stage], name) ==>
              Drops(AfterStage(s, stage).performed, name) == Drops(s.performed, name)
  {
    hide Dispatch, EffectOf, Drops, Initializations, ScriptSpares;
    assert SessionSpares([stage], name) ==> [stage][0] == stage;
    match stage {
      case Dispatches(cfg, script) => DispatchIsBalanced(cfg, script, s, name);
      case Does(op) =>
        ApplyAccounts(s, op, name);
        ApplyKeepsTrace(s, op);
      case ContinuesWithClone => DropsOneMore(s.performed, Replaced(s.di.shared.Keys), name);
    }
  }

  lemma ApplyKeepsTrace(s: State, op: Op)
    ensures Apply(s, op).trace == s.trace
  {
  }

  lemma {:induction false} SessionIsBalanced(s: State, stages: seq<Stage>, name: string)
    ensures Balance(Session(s, stages), name) <= Balance(s, name)
    ensures SessionSpares(stages, name) ==>
              Drops(Session(s, stages).performed, name) == Drops(s.performed, name)
    decreases |stages|
  {
    hide AfterStage, Balance, Drops;
    if stages != [] {
      StageIsBalanced(s, stages[0], name);
      SessionIsBalanced(AfterStage(s, stages[0]), stages[1..], name);
    }
  }

  /** Over any sequence of dispatches and operations, whatever user code does, a class is
      initialized no more often than its shared instance was taken away, and once more. */
  lemma InitializationsAreBounded(s: State, stages: seq<Stage>, name: string)
    requires s.trace == [] && s.performed == [] && name !in s.di.shared
    ensures var t := Session(s, stages);
      Initializations(t.trace, name) <= Drops(t.performed, name) + if name in t.di.shared then 1 else 0
  {
    SessionIsBalanced(s, stages, name);
  }

  /** Over any sequence of dispatches and forwards on one container, a handler
      class that is not registered anew as shared is initialized at most once. */
  lemma InitializedAtMostOnce(s: State, stages: seq<Stage>, name: string)
    requires SessionSpares(stages, name) && OnceAndShared(s, name)
    ensures Initializations(Session(s, stages).trace, name) <= 1
  {
    hide Session, SessionSpares, Drops, Initializations;
    SessionIsBalanced(s, stages, name);
  }

  /** Every resolution yields `h`, and user code does nothing else. */
  function IdleScript(h: Handler): Script {
    n => Reaction([], ReturnsOther, true, Object(h))
  }

  /** A plain dispatch of a class the container has no instance of. */
  ghost predicate AboutToInitialize(cfg: Config, s: State, h: Handler, cls: string) {
    var start := StartRound(cfg, s);
    && cls == HandlerClass(cfg, start.namespaceName, start.handlerName)
    && s.paramsAreArray && cls in s.di.names && cls !in s.di.shared
    && Lower(start.actionName + cfg.actionSuffix) in h.methods && "initialize" in h.methods
    && "beforeexecuteroute" !in h.methods && "afterexecuteroute" !in h.methods
  }

  lemma IdlePrepare(cfg: Config, s: State, h: Handler, cls: string)
    requires !cfg.hasEventsManager && AboutToInitialize(cfg, s, h, cls)
    ensures Prepare(cfg, IdleScript(h), StartRound(cfg, s), cls) ==
      Next(Called(StartRound(cfg, s), Making).(di := Shared(s.di, cls, false, Object(h)), activeHandler := Some(h)))
  {
    hide Quiet, Accounts;
    NothingApplied(IdleScript(h), StartRound(cfg, s), Making);
  }

  lemma IdlePerform(cfg: Config, s: State, h: Handler, cls: string, action: string)
    requires !cfg.hasEventsManager && s.paramsAreArray && s.di.freshInstance
    requires Lower(action) in h.methods && "initialize" in h.methods && "beforeexecuteroute" !in h.methods
    ensures Perform(cfg, IdleScript(h), s, h, cls, action) ==
      Next(Log(Called(Log(Called(s, Initializing), Initialized(s.iteration, cls)), Acting),
               Invoked(s.iteration, cls, action, s.finished)).(lastHandler := Some(h)))
  {
    hide Quiet, Accounts;
    NothingApplied(IdleScript(h), s, Initializing);
    NothingApplied(IdleScript(h), Log(Called(s, Initializing), Initialized(s.iteration, cls)), Acting);
  }

  /** What such a round leaves. */
  function IdleDone(cfg: Config, s: State, h: Handler, cls: string): State {
    var start := StartRound(cfg, s);
    var ready := Called(start, Making).(di := Shared(s.di, cls, false, Object(h)), activeHandler := Some(h));
    Log(Called(Log(Called(ready, Initializing), Initialized(start.iteration, cls)), Acting),
        Invoked(start.iteration, cls, start.actionName + cfg.actionSuffix, true)).(lastHandler := Some(h))
  }

  lemma IdleRound(cfg: Config, s: State, h: Handler, cls: string)
    requires !cfg.hasEventsManager && AboutToInitialize(cfg, s, h, cls)
    ensures Round(cfg, IdleScript(h), s) == Next(IdleDone(cfg, s, h, cls))
  {
    hide Prepare, Perform, HandlerClass;
    var start := StartRound(cfg, s);
    IdlePrepare(cfg, s, h, cls);
    var ready := Prepare(cfg, IdleScript(h), start, cls).st;
    IdlePerform(cfg, ready, h, cls, start.actionName + cfg.actionSuffix);
  }

  lemma {:induction false} CountLast(t: seq<Event>, ev: Event, cls: string)
    ensures Initializations(t + [ev], cls)
         == Initializations(t, cls) + if ev.Initialized? && ev.cls == cls then 1 else 0
  {
    assert (t + [ev])[..|t|] == t;
  }

  /** The first event of such a dispatch has been fired. */
  function IdleStarted(s: State): State {
    Log(Called(s, Tells(BeforeDispatchLoop)), Fired(s.iteration, BeforeDispatchLoop, false)).(finished := false)
  }

  lemma IdleDispatchIs(cfg: Config, s: State, h: Handler, cls: string)
    requires !cfg.hasEventsManager && AboutToInitialize(cfg, s, h, cls)
    ensures Dispatch(cfg, IdleScript(h), s) == Called(IdleDone(cfg, IdleStarted(s), h, cls), TellsAfterLoop)
  {
    hide Round, HandlerClass, Accounts, Quiet;
    var script, t := IdleScript(h), IdleStarted(s);
    NothingApplied(IdleScript(h), s, Tells(BeforeDispatchLoop));
    IdleRound(cfg, t, h, cls);
    var done := IdleDone(cfg, t, h, cls);
    assert Rounds(cfg, script, done, 1) == Break(done);
    assert Rounds(cfg, script, t, 0) == Break(done);
    NothingApplied(IdleScript(h), done, TellsAfterLoop);
  }

  lemma IdleInitializes(cfg: Config, s: State, h: Handler, cls: string)
    ensures Initializations(IdleDone(cfg, IdleStarted(s), h, cls).trace, cls) == Initializations(s.trace, cls) + 1
  {
    var start := StartRound(cfg, IdleStarted(s));
    var fired, initialized := Fired(s.iteration, BeforeDispatchLoop, false), Initialized(start.iteration, cls);
    var invoked := Invoked(start.iteration, cls, start.actionName + cfg.actionSuffix, true);
    assert IdleDone(cfg, IdleStarted(s), h, cls).trace == s.trace + [fired] + [initialized] + [invoked];
    hide *;
    CountLast(s.trace, fired, cls);
    CountLast(s.trace + [fired], initialized, cls);
    CountLast(s.trace + [fired] + [initialized], invoked, cls);
  }

  /** A stage that takes the instance of a class away. */
  predicate IsDrop(stage: Stage, cls: string) {
    stage == Does(RegisterService(cls, true)) || stage == ContinuesWithClone
  }

  /** Once the instance is taken away, the next dispatch initializes again. */
  lemma IdleAgain(cfg: Config, s: State, h: Handler, cls: string, drop: Stage)
    requires AboutToInitialize(cfg, s, h, cls) && IsDrop(drop, cls)
    ensures AboutToInitialize(
              cfg, AfterStage(Called(IdleDone(cfg, IdleStarted(s), h, cls), TellsAfterLoop), drop), h, cls)
  {
    hide HandlerClass, Lower, Dispatch;
    var done := IdleDone(cfg, IdleStarted(s), h, cls);
    NamesStay(cfg, s, AfterStage(Called(done, TellsAfterLoop), drop));
  }

  lemma DropIsCounted(s: State, drop: Stage, cls: string)
    requires IsDrop(drop, cls) && cls in s.di.shared
    ensures AfterStage(s, drop).trace == s.trace
    ensures Drops(AfterStage(s, drop).performed, cls) == Drops(s.performed, cls) + 1
  {
    hide Drops, Dispatch;
    DropsOneMore(s.performed, Performed(RegisterService(cls, true), s.di.shared.Keys), cls);
    DropsOneMore(s.performed, Replaced(s.di.shared.Keys), cls);
  }

  lemma IdleDispatch(cfg: Config, s: State, h: Handler, cls: string, drop: Stage)
    requires !cfg.hasEventsManager && AboutToInitialize(cfg, s, h, cls) && IsDrop(drop, cls)
    ensures var t := Dispatch(cfg, IdleScript(h), s);
      && Initializations(t.trace, cls) == Initializations(s.trace, cls) + 1
      && cls in t.di.shared && t.performed == s.performed
      && AboutToInitialize(cfg, AfterStage(t, drop), h, cls)
  {
    hide Dispatch, AboutToInitialize, AfterStage, Initializations;
    IdleDispatchIs(cfg, s, h, cls);
    IdleInitializes(cfg, s, h, cls);
    IdleAgain(cfg, s, h, cls, drop);
  }

  /** A dispatch, and n times a drop with another dispatch behind it. */
  function Alternating(cfg: Config, h: Handler, drop: Stage, n: nat): seq<Stage> {
    if n == 0 then [Dispatches(cfg, IdleScript(h))]
    else [Dispatches(cfg, IdleScript(h)), drop] + Alternating(cfg, h, drop, n - 1)
  }

  lemma SessionOfTwo(s: State, a: Stage, b: Stage, rest: seq<Stage>)
    ensures Session(s, [a, b] + rest) == Session(AfterStage(AfterStage(s, a), b), rest)
  {
    hide AfterStage;
    assert ([a, b] + rest)[1..] == [b] + rest && ([b] + rest)[1..] == rest;
  }

  lemma SessionOfOne(s: State, a: Stage)
    ensures Session(s, [a]) == AfterStage(s, a)
  {
    hide AfterStage;
    assert [a][1..] == [];
  }

  lemma AlternatingSession(cfg: Config, s: State, h: Handler, drop: Stage, n: nat)
    ensures var done := Dispatch(cfg, IdleScript(h), s);
      Session(s, Alternating(cfg, h, drop, n)) ==
      if n == 0 then done else Session(AfterStage(done, drop), Alternating(cfg, h, drop, n - 1))
  {
    hide Dispatch, Session;
    var d := Dispatches(cfg, IdleScript(h));
    if n == 0 {
      SessionOfOne(s, d);
    } else {
      SessionOfTwo(s, d, drop, Alternating(cfg, h, drop, n - 1));
    }
  }

  /** The bound is met, for every number of drops: a class that is registered anew as shared
      between any two of n + 1 dispatches, or whose container is replaced by its clone there, is
      initialized by all of them. */
  lemma {:induction false} EveryDropInitializesAgain(cfg: Config, s: State, h: Handler, cls: string, drop: Stage,
                                                     n: nat)
    requires !cfg.hasEventsManager && AboutToInitialize(cfg, s, h, cls) && IsDrop(drop, cls)
    ensures var t := Session(s, Alternating(cfg, h, drop, n));
      && Initializations(t.trace, cls) == Initializations(s.trace, cls) + n + 1
      && Drops(t.performed, cls) == Drops(s.performed, cls) + n
      && cls in t.di.shared
    decreases n
  {
    hide Dispatch, AboutToInitialize, Drops, Initializations, Session, AfterStage;
    var done := Dispatch(cfg, IdleScript(h), s);
    IdleDispatch(cfg, s, h, cls, drop);
    AlternatingSession(cfg, s, h, drop, n);
    if n > 0 {
      DropIsCounted(done, drop, cls);
      EveryDropInitializesAgain(cfg, AfterStage(done, drop), h, cls, drop, n - 1);
    }
  }
}
