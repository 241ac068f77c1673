/**
 * What the trace of a dispatch shows: of the calls into user code, each hook, initialization and
 * action, in the order and the rounds in which they were asked for, and which hooks were
 * answered with false.
 */
module DispatchTrace {
  import opened Text
  import opened Container
  import opened Dispatcher

  /** What an event tells about a call. */
  datatype Shown = Shown(what: Request, iteration: nat, cancelled: bool)

  function OfEvent(ev: Event): Shown {
    match ev
    case Fired(iteration, hook, cancelled) => Shown(Tells(hook), iteration, cancelled)
    case Initialized(iteration, _) => Shown(Initializing, iteration, false)
    case Invoked(iteration, _, _, _) => Shown(Acting, iteration, false)
  }

  function OfTrace(trace: seq<Event>): seq<Shown> {
    seq(|trace|, i requires 0 <= i < |trace| => OfEvent(trace[i]))
  }

  predicate IsShown(what: Request) {
    what.Tells? || what == Initializing || what == Acting
  }

  /** The calls that a trace shows, with the answers that cancel. */
  function OfLog(script: Script, asked: seq<Asked>): seq<Shown> {
    if asked == [] then []
    else
      var last := asked[|asked| - 1];
      OfLog(script, asked[..|asked| - 1]) +
      if IsShown(last.what) then
        [Shown(last.what, last.iteration, last.what.Tells? && script(last.call).answer == ReturnsFalse)]
      else []
  }

  /** The trace shows what was asked, and nothing else. */
  ghost predicate Matches(script: Script, s: State) {
    OfTrace(s.trace) == OfLog(script, s.asked)
  }

  lemma Unshown(script: Script, s: State, what: Request)
    requires Matches(script, s) && !IsShown(what)
    ensures Matches(script, React(script, s, what))
  {
    var t := React(script, s, what);
    assert t.asked[..|s.asked|] == s.asked;
    hide React;
  }

  lemma ShownOnce(script: Script, s: State, what: Request, ev: Event)
    requires Matches(script, s) && IsShown(what)
    requires OfEvent(ev) == Shown(what, s.iteration, what.Tells? && script(s.calls).answer == ReturnsFalse)
    ensures Matches(script, Log(React(script, s, what), ev))
  {
    var t := React(script, s, what);
    assert t.asked[..|s.asked|] == s.asked;
    assert OfTrace(s.trace + [ev]) == OfTrace(s.trace) + [OfEvent(ev)];
    hide React;
  }

  lemma FireCancelMatches(script: Script, s: State, hook: Hook)
    requires Matches(script, s)
    ensures Matches(script, FireCancel(script, s, hook).st)
  {
    ShownOnce(script, s, Tells(hook), Fired(s.iteration, hook, script(s.calls).answer.ReturnsFalse?));
    hide React, Matches, Quiet;
  }

  lemma FireMatches(script: Script, s: State, what: Request)
    requires Matches(script, s) && !IsShown(what)
    ensures Matches(script, Fire(script, s, what).st)
  {
    Unshown(script, s, what);
    hide React, Matches, Quiet;
  }

  lemma ThrowMatches(script: Script, s: State)
    requires Matches(script, s)
    ensures Matches(script, ThrowDispatchException(script, s).st)
  {
    Unshown(script, s, OwnException);
    hide React, Matches, Quiet;
  }

  lemma LoadMatches(script: Script, s: State, cls: string)
    requires Matches(script, s)
    ensures Matches(script, LoadClass(script, s, cls).st)
  {
    Unshown(script, s, Loading);
    ThrowMatches(script, React(script, s, Loading));
    hide React, Matches, Quiet, ThrowDispatchException;
  }

  /** Where the log and the trace are the same, so is what they show. */
  lemma SameLog(script: Script, s: State, t: State)
    requires Matches(script, s) && t.trace == s.trace && t.asked == s.asked
    ensures Matches(script, t)
  {
  }

  lemma ObtainMatches(script: Script, s: State, cls: string)
    requires Matches(script, s)
    ensures Matches(script, ObtainHandler(script, s, cls).st)
  {
    Unshown(script, s, Making);
    var found := cls in s.di.shared;
    var instance := if found then s.di.shared[cls] else script(s.calls).resolved;
    var t := React(script, s, Making);
    var u := t.(di := Shared(t.di, cls, found, instance));
    SameLog(script, t, u);
    ThrowMatches(script, u);
    if instance.Object? {
      SameLog(script, t, u.(activeHandler := Some(instance.handler)));
    }
    hide React, Matches, Quiet, ThrowDispatchException, Shared;
  }

  lemma FireIfManagedMatches(cfg: Config, script: Script, s: State, hook: Hook)
    requires Matches(script, s)
    ensures Matches(script, FireIfManaged(cfg, script, s, hook).st)
  {
    FireCancelMatches(script, s, hook);
    hide FireCancel, Matches, Quiet;
  }

  lemma PrepareMatches(cfg: Config, script: Script, s: State, cls: string)
    requires Matches(script, s)
    ensures Matches(script, Prepare(cfg, script, s, cls).st)
  {
    hide FireIfManaged, LoadClass, ObtainHandler, Matches, Quiet;
    FireIfManagedMatches(cfg, script, s, BeforeDispatch);
    var fired := FireIfManaged(cfg, script, s, BeforeDispatch);
    if fired.Next? {
      LoadMatches(script, fired.st, cls);
      var loaded := LoadClass(script, fired.st, cls);
      if loaded.Next? {
        ObtainMatches(script, loaded.st, cls);
      }
    }
  }

  lemma AnnounceMatches(cfg: Config, script: Script, s: State, h: Handler, action: string)
    requires Matches(script, s)
    ensures Matches(script, Announce(cfg, script, s, h, action).st)
  {
    hide FireIfManaged, HandlerBefore, ThrowDispatchException, Matches, Quiet, Lower;
    FireIfManagedMatches(cfg, script, s, BeforeNotFoundAction);
    ThrowMatches(script, FireIfManaged(cfg, script, s, BeforeNotFoundAction).st);
    FireIfManagedMatches(cfg, script, s, BeforeExecuteRoute);
    HandlerBeforeMatches(script, FireIfManaged(cfg, script, s, BeforeExecuteRoute).st, h);
  }

  lemma HandlerBeforeMatches(script: Script, s: State, h: Handler)
    requires Matches(script, s)
    ensures Matches(script, HandlerBefore(script, s, h).st)
  {
    ShownOnce(script, s, Tells(HandlerBeforeExecuteRoute),
              Fired(s.iteration, HandlerBeforeExecuteRoute, script(s.calls).answer.ReturnsFalse?));
    hide React, Matches, Quiet;
  }

  lemma CallInitializeMatches(script: Script, s: State, h: Handler, cls: string)
    requires Matches(script, s)
    ensures Matches(script, CallInitialize(script, s, h, cls).st)
  {
    ShownOnce(script, s, Initializing, Initialized(s.iteration, cls));
    var t := Log(React(script, s, Initializing), Initialized(s.iteration, cls));
    if script(s.calls).answer.Throws? {
      SameLog(script, t, t.(lastException := Some(script(s.calls).answer.exn)));
    }
    hide React, Matches, Quiet;
  }

  lemma SettleMatches(cfg: Config, script: Script, s: State, h: Handler, cls: string, isNew: bool)
    requires Matches(script, s)
    ensures Matches(script, Settle(cfg, script, s, h, cls, isNew).st)
  {
    hide Initialize, ThrowDispatchException, Matches, Quiet;
    ThrowMatches(script, s);
    InitializeMatches(cfg, script, s, h, cls);
    ThrowMatches(script, Initialize(cfg, script, s, h, cls).st);
  }

  lemma InitializeMatches(cfg: Config, script: Script, s: State, h: Handler, cls: string)
    requires Matches(script, s)
    ensures Matches(script, Initialize(cfg, script, s, h, cls).st)
  {
    hide FireIfManaged, CallInitialize, Matches, Quiet;
    FireIfManagedMatches(cfg, script, s, BeforeInitialize);
    var before := FireIfManaged(cfg, script, s, BeforeInitialize);
    CallInitializeMatches(script, before.st, h, cls);
    var called := CallInitialize(script, before.st, h, cls);
    FireIfManagedMatches(cfg, script, called.st, AfterInitialize);
    var after := FireIfManaged(cfg, script, called.st, AfterInitialize);
    SameLog(script, after.st, after.st.(lastHandler := Some(h)));
  }

  lemma InvokeMatches(script: Script, s: State, h: Handler, cls: string, action: string)
    requires Matches(script, s)
    ensures Matches(script, Invoke(script, s, h, cls, action).st)
  {
    hide React, Matches, HandleThrown;
    var ev := Invoked(s.iteration, cls, action, s.finished);
    ShownOnce(script, s, Acting, ev);
    var t := Log(React(script, s, Acting), ev);
    var answer := script(s.calls).answer;
    var ended := if answer.Throws? then HandleThrown(script, t, answer.exn) else Next(t);
    if answer.Throws? {
      HandleThrownMatches(script, t, answer.exn);
    }
    SameLog(script, ended.st, ended.st.(lastHandler := Some(h)));
  }

  lemma HandleThrownMatches(script: Script, s: State, exn: Exn)
    requires Matches(script, s)
    ensures Matches(script, HandleThrown(script, s, exn).st)
  {
    hide React, Matches;
    SameLog(script, s, s.(lastException := Some(exn)));
    Unshown(script, s.(lastException := Some(exn)), HandlingException);
  }

  lemma AfterMatches(cfg: Config, script: Script, s: State, h: Handler)
    requires Matches(script, s)
    ensures Matches(script, AfterExecute(cfg, script, s, h).st)
  {
    hide Fire, React, Matches, Quiet;
    FireMatches(script, s, TellsAfterAction);
    FireMatches(script, Fire(script, s, TellsAfterAction).st, TellsAfterRound);
    Unshown(script, s, HandlerAfter);
    Unshown(script, Fire(script, Fire(script, s, TellsAfterAction).st, TellsAfterRound).st, HandlerAfter);
  }

  lemma RoundMatches(cfg: Config, script: Script, s: State)
    requires Matches(script, s)
    ensures Matches(script, Round(cfg, script, s).st)
  {
    hide Prepare, Announce, Settle, Invoke, AfterExecute, HandlerClass, Matches, Quiet;
    var start := StartRound(cfg, s);
    var cls, action := HandlerClass(cfg, start.namespaceName, start.handlerName), start.actionName + cfg.actionSuffix;
    SameLog(script, s, start);
    PrepareMatches(cfg, script, start, cls);
    var prepared := Prepare(cfg, script, start, cls);
    if prepared.Next? {
      var h := prepared.st.activeHandler.value;
      PerformMatches(cfg, script, prepared.st, h, cls, action);
      AfterMatches(cfg, script, Perform(cfg, script, prepared.st, h, cls, action).st, h);
    }
  }

  lemma PerformMatches(cfg: Config, script: Script, s: State, h: Handler, cls: string, action: string)
    requires Matches(script, s)
    ensures Matches(script, Perform(cfg, script, s, h, cls, action).st)
  {
    hide Announce, Settle, Invoke, Matches, Quiet;
    AnnounceMatches(cfg, script, s, h, action);
    var announced := Announce(cfg, script, s, h, action);
    if announced.Next? {
      SettleMatches(cfg, script, announced.st, h, cls, s.di.freshInstance);
      var settled := Settle(cfg, script, announced.st, h, cls, s.di.freshInstance);
      if settled.Next? {
        InvokeMatches(script, settled.st, h, cls, action);
      }
    }
  }

  lemma {:induction false} RoundsMatch(cfg: Config, script: Script, s: State, number: nat)
    requires number < MAX_DISPATCHES && Matches(script, s)
    ensures Matches(script, Rounds(cfg, script, s, number).st)
    decreases MAX_DISPATCHES - number
  {
    hide Round, Fire, Matches;
    if !s.finished {
      if number + 1 == MAX_DISPATCHES {
        FireMatches(script, s, TellsTooMany);
      } else {
        RoundMatches(cfg, script, s);
        var f := Round(cfg, script, s);
        if f.Next? || f.Again? {
          RoundsMatch(cfg, script, f.st, number + 1);
        }
      }
    }
  }

  /** Whatever a dispatch does, its trace shows just the hooks, initializations and actions that
      were asked for, one after the other, and marks just the hooks that were answered with false. */
  lemma TraceShowsWhatWasAsked(cfg: Config, script: Script, s: State)
    requires Matches(script, s)
    ensures Matches(script, Dispatch(cfg, script, s))
  {
    assert 0 < MAX_DISPATCHES && !IsShown(TellsAfterLoop);
    hide *;
    DispatchIs(cfg, script, s);
    OpeningMatches(script, s);
    var t := Opened(script, s).(finished := false);
    RoundsMatch(cfg, script, t, 0);
    FireMatches(script, Rounds(cfg, script, t, 0).st, TellsAfterLoop);
  }

  lemma OpeningMatches(script: Script, s: State)
    requires Matches(script, s)
    ensures Matches(script, Opened(script, s)) && Matches(script, Opened(script, s).(finished := false))
  {
    ShownOnce(script, s, Tells(BeforeDispatchLoop),
              Fired(s.iteration, BeforeDispatchLoop, script(s.calls).answer.ReturnsFalse?));
    hide Matches, React;
    SameLog(script, Opened(script, s), Opened(script, s).(finished := false));
  }
}
