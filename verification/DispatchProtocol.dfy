/**
 * The protocol of a dispatch: which call into user code may follow which, said once as an
 * automaton over what was asked and how it was answered, and proved of every dispatch.
 */
module DispatchProtocol {
  import opened Text
  import opened Container
  import opened Dispatcher

  /** Where a dispatch stands after a call into user code. */
  datatype Place =
    | Opening                       // nothing has been asked yet
    | LoopStarts                    // the loop is entered
    | RoundIsOver(finished: bool)
    | Dispatching                   // listeners let the round begin
    | ClassIsLoaded
    | NothingToCall                 // no such class, or no such action
    | HandlerIsMade
    | RouteIsOpen                   // listeners let the action be called
    | HandlerAgrees                 // so does the handler
    | InitializationBegins
    | HandlerIsInitialized
    | InitializerContinues          // it threw what asks to go on behind the action
    | HandlerIsReady
    | ActionThrew(goesOn: bool)
    | ActionIsBehind(finished: bool)
    | ActionIsAnnounced(finished: bool)
    | RoundIsAnnounced(finished: bool)
    | LoopIsOver
    | Over
    | Unexpected                    // a call that is not due

  /** The place, and the round it is in. */
  datatype Stand = Stand(place: Place, iteration: nat)

  /** What a round begins with. */
  function RoundBegins(cfg: Config): set<Request> {
    if cfg.hasEventsManager then {Tells(BeforeDispatch)} else {Loading, Making}
  }

  /** Once a round is over the loop is left if the dispatcher is finished, and after 255 rounds by
      an exception; else the next round begins. */
  function DueBehindRound(cfg: Config, finished: bool, rounds: int): set<Request> {
    if finished then {TellsAfterLoop} else if rounds >= 255 then {TellsTooMany} else RoundBegins(cfg)
  }

  /** The calls that may come next. */
  function Due(cfg: Config, at: Stand, rounds: int): set<Request> {
    match at.place
    case Opening => {Tells(BeforeDispatchLoop)}
    case LoopStarts => RoundBegins(cfg)
    case RoundIsOver(finished) => DueBehindRound(cfg, finished, rounds)
    case Dispatching => {Loading, Making}
    case ClassIsLoaded => {Making}
    case NothingToCall => {OwnException}
    case HandlerIsMade =>
      if cfg.hasEventsManager then {OwnException, Tells(BeforeNotFoundAction), Tells(BeforeExecuteRoute)}
      else {OwnException, Tells(HandlerBeforeExecuteRoute), Initializing, Acting}
    case RouteIsOpen => {Tells(HandlerBeforeExecuteRoute), Tells(BeforeInitialize), OwnException, Acting}
    case HandlerAgrees =>
      {if cfg.hasEventsManager then Tells(BeforeInitialize) else Initializing, OwnException, Acting}
    case InitializationBegins => {Initializing, Tells(AfterInitialize)}
    case HandlerIsInitialized => {Tells(AfterInitialize)}
    case InitializerContinues => {Tells(AfterInitialize)}
    case HandlerIsReady => {OwnException, Acting}
    case ActionThrew(_) => {HandlingException}
    case ActionIsBehind(finished) =>
      if cfg.hasEventsManager then {TellsAfterAction} else {HandlerAfter} + DueBehindRound(cfg, finished, rounds)
    case ActionIsAnnounced(_) => {TellsAfterRound}
    case RoundIsAnnounced(finished) => {HandlerAfter} + DueBehindRound(cfg, finished, rounds)
    case LoopIsOver => {TellsAfterLoop}
    case Over => {}
    case Unexpected => {}
  }

  /** The call is one that begins the next round. */
  predicate BeginsRound(at: Stand, what: Request) {
    && what in {Tells(BeforeDispatch), Loading, Making}
    && (at.place.LoopStarts? || at.place.RoundIsOver? || at.place.ActionIsBehind? || at.place.RoundIsAnnounced?)
  }

  /** Where a hook leads that neither a listener nor the dispatcher's own state has ended. */
  function Opens(hook: Hook, from: Place): Place {
    match hook
    case BeforeDispatch => Dispatching
    case BeforeNotFoundAction => NothingToCall
    case BeforeExecuteRoute => RouteIsOpen
    case BeforeInitialize => InitializationBegins
    case AfterInitialize => if from.InitializerContinues? then ActionIsBehind(true) else HandlerIsReady
    case _ => Unexpected
  }

  /** Where a due call leads, by how it was answered. */
  function Leads(cfg: Config, from: Place, a: Asked, r: Reaction): Place {
    match a.what
    case Tells(BeforeDispatchLoop) => if r.answer.ReturnsOther? then LoopStarts else Over
    case Tells(HandlerBeforeExecuteRoute) =>
      if r.answer.Throws? then Over
      else if !a.finished then RoundIsOver(false)
      else if r.answer.ReturnsFalse? then LoopIsOver else HandlerAgrees
    case Tells(hook) =>
      if r.answer.Throws? then Over
      else if r.answer.ReturnsFalse? || !a.finished then RoundIsOver(a.finished)
      else Opens(hook, from)
    case Loading => if r.answer.Throws? then Over else if r.classExists then ClassIsLoaded else NothingToCall
    case Making => if r.answer.Throws? then Over else HandlerIsMade
    case OwnException =>
      if r.answer.Throws? then Over
      else if r.answer.ReturnsFalse? && !a.finished then RoundIsOver(false) else LoopIsOver
    case Initializing =>
      if !r.answer.Throws? then (if cfg.hasEventsManager then HandlerIsInitialized else HandlerIsReady)
      else if !r.answer.exn.Continue? then Over
      else if cfg.hasEventsManager then InitializerContinues else ActionIsBehind(a.finished)
    case Acting =>
      if !r.answer.Throws? then ActionIsBehind(a.finished)
      else if r.answer.exn.UnwindExit? then LoopIsOver else ActionThrew(r.answer.exn.Continue?)
    case HandlingException =>
      if r.answer.Throws? then Over
      else if from == ActionThrew(true) then ActionIsBehind(a.finished)
      else if !r.answer.ReturnsFalse? then LoopIsOver
      else if !a.finished then RoundIsOver(false) else ActionIsBehind(true)
    case TellsAfterAction =>
      if r.answer.Throws? then Over else if !a.finished then RoundIsOver(false) else ActionIsAnnounced(true)
    case TellsAfterRound => if r.answer.Throws? then Over else RoundIsAnnounced(a.finished)
    case HandlerAfter => if r.answer.Throws? then Over else RoundIsOver(a.finished)
    case TellsTooMany => if r.answer.Throws? then Over else LoopIsOver
    case TellsAfterLoop => Over
  }

  /** One call more. */
  function Goes(cfg: Config, first: nat, at: Stand, a: Asked, r: Reaction): Stand {
    var iteration := if BeginsRound(at, a.what) then at.iteration + 1 else at.iteration;
    if a.what in Due(cfg, at, at.iteration - first) && a.iteration == iteration
    then Stand(Leads(cfg, at.place, a, r), iteration)
    else Stand(Unexpected, iteration)
  }

  /** Where a sequence of calls leads. */
  function Path(cfg: Config, script: Script, first: nat, asked: seq<Asked>): Stand {
    if asked == [] then Stand(Opening, first)
    else
      var last := asked[|asked| - 1];
      Goes(cfg, first, Path(cfg, script, first, asked[..|asked| - 1]), last, script(last.call))
  }

  // ------------------------------------------------- the dispatch on its path

  lemma OneMoreStep(cfg: Config, script: Script, first: nat, asked: seq<Asked>, a: Asked)
    ensures Path(cfg, script, first, asked + [a]) ==
            Goes(cfg, first, Path(cfg, script, first, asked), a, script(a.call))
  {
    hide Goes;
    assert (asked + [a])[..|asked|] == asked;
  }

  lemma SliceGrows(asked: seq<Asked>, a: Asked, start: nat)
    requires start <= |asked|
    ensures (asked + [a])[start..] == asked[start..] + [a]
  {
  }

  /** A dispatch: how it is configured, the user code, the round count and the length of the log
      when it began. */
  datatype Course = Course(cfg: Config, script: Script, first: nat, start: nat)
  {
    /** Where the dispatch stands in this state. */
    ghost function At(s: State): Stand
      requires start <= |s.asked|
    {
      Path(cfg, script, first, s.asked[start..])
    }

    /** This call is due in this state. */
    ghost predicate IsDue(s: State, what: Request) {
      && start <= |s.asked|
      && what in Due(cfg, At(s), At(s).iteration - first)
      && s.iteration == if BeginsRound(At(s), what) then At(s).iteration + 1 else At(s).iteration
    }

    /** The dispatch stands here, in the current round. */
    ghost predicate Stands(s: State, place: Place) {
      start <= |s.asked| && At(s) == Stand(place, s.iteration)
    }

    /** How a part of a round ends that does not let it go on. */
    ghost predicate Ends(f: Flow) {
      match f
      case Again(st) => Stands(st, RoundIsOver(st.finished))
      case Break(st) => Stands(st, LoopIsOver)
      case Goto(st) => Stands(st, LoopIsOver)
      case Return(st) => Stands(st, Over)
      case _ => true
    }

    lemma AsksOne(s: State, what: Request)
      requires IsDue(s, what)
      ensures var t := React(script, s, what);
        Stands(t, Leads(cfg, At(s).place, Asked(s.calls, what, s.iteration, t.finished), script(s.calls)))
    {
      hide React, Leads, Due, BeginsRound, Path, Accounts;
      var t := React(script, s, what);
      var a := Asked(s.calls, what, s.iteration, t.finished);
      SliceGrows(s.asked, a, start);
      OneMoreStep(cfg, script, first, s.asked[start..], a);
    }

    lemma FireCancelLeads(s: State, hook: Hook)
      requires IsDue(s, Tells(hook)) && hook !in {BeforeDispatchLoop, HandlerBeforeExecuteRoute}
      ensures var f := FireCancel(script, s, hook);
        && Ends(f) && !f.Skip?
        && (f.Next? ==> Stands(f.st, Opens(hook, At(s).place)) && f.st.finished)
    {
      AsksOne(s, Tells(hook));
      hide React, Quiet, Path, Due, BeginsRound;
    }

    /** The state in which a further round has just begun. */
    ghost predicate Begins(s: State) {
      && start <= |s.asked| && At(s).iteration + 1 == s.iteration && s.iteration <= first + 255
      && (At(s).place in {LoopStarts, RoundIsOver(false), RoundIsAnnounced(false)}
          || (!cfg.hasEventsManager && At(s).place == ActionIsBehind(false)))
    }

    lemma ThrowLeads(s: State)
      requires IsDue(s, OwnException)
      ensures var f := ThrowDispatchException(script, s); Ends(f) && !f.Next? && !f.Skip?
    {
      AsksOne(s, OwnException);
      hide React, Quiet, Path, Due, BeginsRound;
    }

    lemma LoadClassLeads(s: State, cls: string)
      requires IsDue(s, Loading)
      ensures var f := LoadClass(script, s, cls);
        Ends(f) && (f.Next? ==> f.st == s || Stands(f.st, ClassIsLoaded))
    {
      AsksOne(s, Loading);
      hide React, Quiet, Path, ThrowDispatchException;
      if cls !in s.di.names && !script(s.calls).answer.Throws? && !script(s.calls).classExists {
        ThrowLeads(React(script, s, Loading));
      }
    }

    lemma ObtainLeads(s: State, cls: string)
      requires IsDue(s, Making)
      ensures var f := ObtainHandler(script, s, cls); Ends(f) && (f.Next? ==> Stands(f.st, HandlerIsMade))
    {
      AsksOne(s, Making);
      hide React, Quiet, Path, ThrowDispatchException, Shared;
      var found := cls in s.di.shared;
      var instance := if found then s.di.shared[cls] else script(s.calls).resolved;
      var t := React(script, s, Making);
      var u := t.(di := Shared(t.di, cls, found, instance));
      if !script(s.calls).answer.Throws? && !instance.Object? {
        assert Stands(u, HandlerIsMade);
        ThrowLeads(u);
      }
    }

    lemma PrepareLeads(s: State, cls: string)
      requires Begins(s)
      ensures var f := Prepare(cfg, script, s, cls); Ends(f) && (f.Next? ==> Stands(f.st, HandlerIsMade))
    {
      hide Quiet, FireCancel, LoadClass, ObtainHandler, Path;
      if cfg.hasEventsManager {
        FireCancelLeads(s, BeforeDispatch);
      }
      var fired := FireIfManaged(cfg, script, s, BeforeDispatch);
      if fired.Next? {
        assert IsDue(fired.st, Loading) && IsDue(fired.st, Making);
        LoadClassLeads(fired.st, cls);
        var loaded := LoadClass(script, fired.st, cls);
        if loaded.Next? {
          ObtainLeads(loaded.st, cls);
        }
      }
    }

    lemma CheckActionLeads(s: State, h: Handler, action: string)
      requires Stands(s, HandlerIsMade)
      ensures var f := CheckAction(cfg, script, s, h, action); Ends(f) && (f.Next? ==> f.st == s)
    {
      hide Quiet, FireCancel, ThrowDispatchException, Path, Lower;
      if Lower(action) !in h.methods {
        if cfg.hasEventsManager {
          FireCancelLeads(s, BeforeNotFoundAction);
        }
        var fired := FireIfManaged(cfg, script, s, BeforeNotFoundAction);
        if fired.Next? {
          ThrowLeads(fired.st);
        }
      }
    }

    /** The hooks in front of the action have let the round go on. */
    ghost predicate IsAnnounced(s: State) {
      || Stands(s, HandlerAgrees)
      || Stands(s, if cfg.hasEventsManager then RouteIsOpen else HandlerIsMade)
    }

    lemma HandlerBeforeLeads(s: State, h: Handler)
      requires Stands(s, if cfg.hasEventsManager then RouteIsOpen else HandlerIsMade)
      ensures var f := HandlerBefore(script, s, h); Ends(f) && !f.Skip? && (f.Next? ==> IsAnnounced(f.st))
    {
      AsksOne(s, Tells(HandlerBeforeExecuteRoute));
      hide React, Quiet, Path;
    }

    lemma AnnounceLeads(s: State, h: Handler, action: string)
      requires Stands(s, HandlerIsMade)
      ensures var f := Announce(cfg, script, s, h, action); Ends(f) && !f.Skip? && (f.Next? ==> IsAnnounced(f.st))
    {
      hide Quiet, FireCancel, CheckAction, HandlerBefore, Path;
      CheckActionLeads(s, h, action);
      if CheckAction(cfg, script, s, h, action).Next? {
        if cfg.hasEventsManager {
          FireCancelLeads(s, BeforeExecuteRoute);
        }
        var fired := FireIfManaged(cfg, script, s, BeforeExecuteRoute);
        if fired.Next? {
          HandlerBeforeLeads(fired.st, h);
        }
      }
    }

    lemma CallInitializeLeads(s: State, h: Handler, cls: string)
      requires IsDue(s, Initializing)
      ensures var f := CallInitialize(script, s, h, cls);
        && Ends(f)
        && (f.Next? ==>
              f.st == s || Stands(f.st, if cfg.hasEventsManager then HandlerIsInitialized else HandlerIsReady))
        && (f.Skip? ==>
              Stands(f.st, if cfg.hasEventsManager then InitializerContinues else ActionIsBehind(f.st.finished)))
    {
      AsksOne(s, Initializing);
      hide React, Quiet, Path;
    }

    /** The action may be called next. */
    ghost predicate MayAct(s: State) {
      IsAnnounced(s) || Stands(s, HandlerIsReady)
    }

    lemma InitializeLeads(s: State, h: Handler, cls: string)
      requires IsAnnounced(s)
      ensures var f := Initialize(cfg, script, s, h, cls);
        Ends(f) && (f.Next? ==> MayAct(f.st)) && (f.Skip? ==> Stands(f.st, ActionIsBehind(f.st.finished)))
    {
      hide Quiet, FireCancel, CallInitialize, Path;
      if cfg.hasEventsManager {
        FireCancelLeads(s, BeforeInitialize);
      }
      var before := FireIfManaged(cfg, script, s, BeforeInitialize);
      if before.Next? {
        CallInitializeLeads(before.st, h, cls);
        var called := CallInitialize(script, before.st, h, cls);
        if (called.Next? || called.Skip?) && cfg.hasEventsManager {
          FireCancelLeads(called.st, AfterInitialize);
        }
      }
    }

    lemma CheckParamsLeads(s: State)
      requires MayAct(s)
      ensures var f := CheckParams(script, s); Ends(f) && !f.Skip? && (f.Next? ==> f.st == s)
    {
      hide Quiet, Path, ThrowDispatchException;
      if !s.paramsAreArray {
        ThrowLeads(s);
      }
    }

    lemma ApproachLeads(s: State, h: Handler, cls: string, action: string)
      requires Stands(s, HandlerIsMade)
      ensures var f := Approach(cfg, script, s, h, cls, action);
        Ends(f) && (f.Next? ==> MayAct(f.st)) && (f.Skip? ==> Stands(f.st, ActionIsBehind(f.st.finished)))
    {
      hide Quiet, Announce, Initialize, CheckParams, Path;
      AnnounceLeads(s, h, action);
      var announced := Announce(cfg, script, s, h, action);
      if announced.Next? {
        if s.di.freshInstance {
          InitializeLeads(announced.st, h, cls);
          var initialized := Initialize(cfg, script, announced.st, h, cls);
          if initialized.Next? {
            CheckParamsLeads(initialized.st);
          }
        } else {
          CheckParamsLeads(announced.st);
        }
      }
    }

    lemma HandleThrownLeads(s: State, exn: Exn)
      requires Stands(s, if exn.UnwindExit? then LoopIsOver else ActionThrew(exn.Continue?))
      ensures var f := HandleThrown(script, s, exn);
        Ends(f) && !f.Skip? && (f.Next? ==> Stands(f.st, ActionIsBehind(f.st.finished)))
    {
      var t := s.(lastException := Some(exn));
      if !exn.UnwindExit? {
        AsksOne(t, HandlingException);
      }
      hide React, Path;
    }

    lemma InvokeLeads(s: State, h: Handler, cls: string, action: string)
      requires MayAct(s)
      ensures var f := Invoke(script, s, h, cls, action);
        Ends(f) && !f.Skip? && (f.Next? ==> Stands(f.st, ActionIsBehind(f.st.finished)))
    {
      ActingLeads(s, cls, action);
      hide React, Path, HandleThrown, Due, BeginsRound, Leads, Accounts;
      var answer := script(s.calls).answer;
      var t := Log(React(script, s, Acting), Invoked(s.iteration, cls, action, s.finished));
      if answer.Throws? {
        HandleThrownLeads(t, answer.exn);
      }
    }

    lemma ActingLeads(s: State, cls: string, action: string)
      requires MayAct(s)
      ensures var t := Log(React(script, s, Acting), Invoked(s.iteration, cls, action, s.finished));
        var answer := script(s.calls).answer;
        Stands(t, if !answer.Throws? then ActionIsBehind(t.finished)
                  else if answer.exn.UnwindExit? then LoopIsOver else ActionThrew(answer.exn.Continue?))
    {
      AsksOne(s, Acting);
      hide React, Path, Accounts;
    }

    /** A round has ended, and the loop looks at the dispatcher. */
    ghost predicate IsDone(s: State) {
      || Stands(s, RoundIsOver(s.finished)) || Stands(s, RoundIsAnnounced(s.finished))
      || (!cfg.hasEventsManager && Stands(s, ActionIsBehind(s.finished)))
    }

    lemma AfterEventsLead(s: State)
      requires cfg.hasEventsManager && Stands(s, ActionIsBehind(s.finished))
      ensures var f := AfterExecuteEvents(script, s);
        Ends(f) && !f.Skip? && (f.Next? ==> Stands(f.st, RoundIsAnnounced(f.st.finished)))
    {
      AsksOne(s, TellsAfterAction);
      hide React, Path, Quiet, Due, BeginsRound;
      var t := React(script, s, TellsAfterAction);
      if !script(s.calls).answer.Throws? && t.finished {
        LastEventLeads(t);
      }
    }

    lemma LastEventLeads(s: State)
      requires Stands(s, ActionIsAnnounced(true))
      ensures var f := Fire(script, s, TellsAfterRound);
        Ends(f) && !f.Skip? && (f.Next? ==> Stands(f.st, RoundIsAnnounced(f.st.finished)))
    {
      AsksOne(s, TellsAfterRound);
      hide React, Path, Quiet;
    }

    lemma AfterExecuteLeads(s: State, h: Handler)
      requires Stands(s, ActionIsBehind(s.finished))
      ensures var f := AfterExecute(cfg, script, s, h); Ends(f) && !f.Skip? && (f.Next? ==> IsDone(f.st))
    {
      hide React, Path, Quiet, AfterExecuteEvents;
      if cfg.hasEventsManager {
        AfterEventsLead(s);
      }
      var f := if cfg.hasEventsManager then AfterExecuteEvents(script, s) else Next(s);
      if f.Next? {
        AsksOne(f.st, HandlerAfter);
      }
    }

    lemma RoundLeads(s: State)
      requires Begins(StartRound(cfg, s))
      ensures var f := Round(cfg, script, s); Ends(f) && !f.Skip? && (f.Next? ==> IsDone(f.st))
    {
      hide Quiet, Prepare, Approach, Invoke, AfterExecute, HandlerClass, Path;
      var begun := StartRound(cfg, s);
      var cls := HandlerClass(cfg, begun.namespaceName, begun.handlerName);
      PrepareLeads(begun, cls);
      var prepared := Prepare(cfg, script, begun, cls);
      if prepared.Next? {
        var h, action := prepared.st.activeHandler.value, begun.actionName + cfg.actionSuffix;
        ApproachLeads(prepared.st, h, cls, action);
        var near := Approach(cfg, script, prepared.st, h, cls, action);
        if near.Next? {
          InvokeLeads(near.st, h, cls, action);
        }
        var performed := Perform(cfg, script, prepared.st, h, cls, action);
        if performed.Next? || performed.Skip? {
          AfterExecuteLeads(performed.st, h);
        }
      }
    }

    lemma {:induction false} RoundsLead(s: State, number: nat)
      requires number < MAX_DISPATCHES && s.iteration == first + number
      requires IsDone(s) || (number == 0 && Stands(s, LoopStarts) && !s.finished)
      ensures var f := Rounds(cfg, script, s, number);
        if f.Return? then Stands(f.st, Over) else IsDue(f.st, TellsAfterLoop)
      decreases MAX_DISPATCHES - number
    {
      hide Path, Round, Quiet;
      if s.finished {
      } else if number + 1 == MAX_DISPATCHES {
        AsksOne(s, TellsTooMany);
        hide React;
      } else {
        assert Begins(StartRound(cfg, s));
        RoundLeads(s);
        var f := Round(cfg, script, s);
        if f.Next? || f.Again? {
          RoundCounts(cfg, script, s);
          RoundsLead(f.st, number + 1);
        }
      }
    }
  }

  lemma InvokeKeepsRound(script: Script, s: State, h: Handler, cls: string, action: string)
    ensures Invoke(script, s, h, cls, action).st.iteration == s.iteration
  {
    hide React, HandleThrown, Accounts;
  }

  lemma RoundCounts(cfg: Config, script: Script, s: State)
    ensures Round(cfg, script, s).st.iteration == s.iteration + 1
  {
    hide Prepare, Approach, Invoke, AfterExecute, HandlerClass, Accounts;
    var start := StartRound(cfg, s);
    var cls := HandlerClass(cfg, start.namespaceName, start.handlerName);
    var f := Prepare(cfg, script, start, cls);
    if f.Next? {
      var h, action := f.st.activeHandler.value, start.actionName + cfg.actionSuffix;
      var near := Approach(cfg, script, f.st, h, cls, action);
      if near.Next? {
        InvokeKeepsRound(script, near.st, h, cls, action);
      }
    }
  }

  /**
   * Every dispatch keeps to the protocol, whatever user code does: each call into user code is one
   * that the calls before it and their answers make due, and the dispatch ends where the protocol
   * does.
   */
  lemma DispatchFollowsProtocol(cfg: Config, script: Script, s: State)
    ensures var t := Dispatch(cfg, script, s);
      |s.asked| <= |t.asked| && Path(cfg, script, s.iteration, t.asked[|s.asked|..]).place == Over
  {
    assert 0 < MAX_DISPATCHES;
    hide *;
    var c := Course(cfg, script, s.iteration, |s.asked|);
    OpeningLeads(c, s);
    DispatchIs(cfg, script, s);
    if script(s.calls).answer.ReturnsOther? {
      var t := Opened(script, s).(finished := false);
      c.RoundsLead(t, 0);
      if !Rounds(cfg, script, t, 0).Return? {
        ClosingLeads(c, Rounds(cfg, script, t, 0).st);
      }
    }
    StandsOver(c, Dispatch(cfg, script, s));
  }

  lemma ClosingLeads(c: Course, s: State)
    requires c.IsDue(s, TellsAfterLoop)
    ensures c.Stands(Fire(c.script, s, TellsAfterLoop).st, Over)
  {
    c.AsksOne(s, TellsAfterLoop);
    hide Path, React;
  }

  lemma StandsOver(c: Course, s: State)
    requires c.Stands(s, Over)
    ensures c.start <= |s.asked| && Path(c.cfg, c.script, c.first, s.asked[c.start..]).place == Over
  {
    hide Path;
  }

  lemma OpeningLeads(c: Course, s: State)
    requires c == Course(c.cfg, c.script, s.iteration, |s.asked|)
    ensures var t := Opened(c.script, s);
      if c.script(s.calls).answer.ReturnsOther? then
        c.Stands(t.(finished := false), LoopStarts) && t.iteration == s.iteration
      else c.Stands(t, Over)
  {
    assert s.asked[|s.asked|..] == [];
    assert c.At(s) == Stand(Opening, s.iteration);
    c.AsksOne(s, Tells(BeforeDispatchLoop));
    hide Path, React;
  }
}
