/**
 * From registration to execution: the table that the caches deliver for a call is the table that
 * the weaver walks.
 */
module AopCalls {
  import opened Text
  import C = AopCache
  import W = AopWeaver
  import O = AopOrder

  /** What the registered callbacks do: plain advice, and around advice with its steps. */
  datatype Callbacks = Callbacks(plain: nat -> W.Code, around: nat -> (seq<W.AroundSite>, Option<W.Exn>))

  /** The cut of a pointcut that is not around advice, from the flags it was registered with. */
  function CutOf(kinds: set<C.Kind>): W.AdviceKind {
    if C.Before in kinds then W.Before
    else if C.Catch in kinds && C.Return in kinds then W.After
    else if C.Return in kinds then W.AfterReturning
    else W.AfterThrowing
  }

  function WovenSlot(slot: C.Slot, callbacks: Callbacks): W.Slot {
    match slot
    case Tombstone => W.Tombstone
    case Live(pc) =>
      if C.Around in pc.kinds then
        var (steps, throws) := callbacks.around(pc.advice);
        W.Slot.Around(steps, throws)
      else W.Plain(CutOf(pc.kinds), callbacks.plain(pc.advice))
  }

  /** A delivered table, as the weaver walks it. */
  function Woven(slots: seq<C.Slot>, callbacks: Callbacks): (table: seq<W.Slot>)
    ensures |table| == |slots| && forall i :: 0 <= i < |slots| ==> table[i] == WovenSlot(slots[i], callbacks)
  {
    seq(|slots|, i requires 0 <= i < |slots| => WovenSlot(slots[i], callbacks))
  }

  /** The call runs with the table that the i-th event of a run delivers for it. */
  ghost predicate RunsWith(run: seq<C.Event>, i: nat, callbacks: Callbacks, call: W.Call) {
    && i < |run| && run[i].Calls? && i < |C.Observed(C.Initial(), run)|
    && call.table == Woven(C.Observed(C.Initial(), run)[i], callbacks)
    && call.hasName && call.origin !in {W.Eval, W.Closure}
  }

  /** This advice was registered before the call, and its globs, access and kinds fit it. */
  ghost predicate Fitting(run: seq<C.Event>, i: nat, pc: C.Pointcut)
    requires i < |run| && run[i].Calls?
  {
    pc in C.RegisteredIn(run[..i]) && C.Advises(pc, run[i].ex)
  }

  /**
   * Only fitting advice runs: whatever was registered, called and accessed before, every advice
   * seen around a call is that of a pointcut registered before it which advises it, and what runs
   * is the callback it was registered with.
   */
  lemma OnlyFittingAdviceRuns(run: seq<C.Event>, calls: set<C.Exec>, i: nat, callbacks: Callbacks, call: W.Call,
                              caller: W.Caller, depth: nat, k: nat)
    requires C.CallsOf(run, calls) && C.DeclaredOnce(calls)
    requires RunsWith(run, i, callbacks, call) && C.FitRun([], map[], run)[i]
    requires var events := W.Execute(true, call, false, None, caller, depth).events;
             k < |events| && events[k].RanAdvice? && events[k].depth == depth
    ensures var slot := W.Execute(true, call, false, None, caller, depth).events[k].slot;
            && slot < |call.table|
            && C.Observed(C.Initial(), run)[i][slot].Live?
            && var pc := C.Observed(C.Initial(), run)[i][slot].pc;
              && Fitting(run, i, pc)
              && (C.Around in pc.kinds ==>
                    call.table[slot].Around? && call.table[slot].steps == callbacks.around(pc.advice).0
                    && call.table[slot].throws == callbacks.around(pc.advice).1)
              && (C.Around !in pc.kinds ==>
                    call.table[slot].Plain? && call.table[slot].code == callbacks.plain(pc.advice))
  {
    hide W.Execute, C.Observed, C.FitRun, C.CallsOf, C.DeclaredOnce, C.Advises;
    W.ExecuteRunsLiveSlots(true, call, false, None, caller, depth);
    var slots := C.Observed(C.Initial(), run)[i];
    var slot := W.Execute(true, call, false, None, caller, depth).events[k].slot;
    assert slots[slot].Live?;
    C.DeliveredIff(run, calls, i, slots[slot].pc);
  }

  /** No around advice was delivered for the call. */
  ghost predicate OnlyPlain(slots: seq<C.Slot>) {
    forall k :: 0 <= k < |slots| && slots[k].Live? ==> C.Around !in slots[k].pc.kinds
  }

  /** The pointcut was registered with before advice, or with after advice for throwing, for
      returning, or for both. */
  predicate IsPlain(pc: C.Pointcut) {
    C.Before in pc.kinds || C.Catch in pc.kinds || C.Return in pc.kinds
  }

  /** The advice in this slot runs just when its pointcut says so. */
  ghost predicate RunsAsRegistered(pc: C.Pointcut, call: W.Call, caller: W.Caller, depth: nat, slot: nat) {
    var order := W.Order(W.Execute(true, call, false, None, caller, depth).events, depth);
    var outcome := W.Outcomes(true, call, depth);
    if C.Before in pc.kinds then slot in order <==> !O.StoppedBefore(call, order, slot, outcome)
    else
      slot in order <==>
      || (C.Catch in pc.kinds && O.ThrewInside(call, order, slot, outcome))
      || (C.Return in pc.kinds && !O.ThrewInside(call, order, slot, outcome))
  }

  /**
   * Fitting advice runs just when it was registered to: where no around advice was delivered for
   * a call, every pointcut registered before it which advises it has a slot.  Its before advice
   * runs unless before advice in front of it threw; its after advice runs where something threw if
   * it is for throwing, and where nothing did if it is for returning.
   */
  lemma FittingAdviceRunsIff(run: seq<C.Event>, calls: set<C.Exec>, i: nat, callbacks: Callbacks, call: W.Call,
                             caller: W.Caller, depth: nat, pc: C.Pointcut)
    requires C.CallsOf(run, calls) && C.DeclaredOnce(calls)
    requires RunsWith(run, i, callbacks, call) && C.FitRun([], map[], run)[i]
    requires OnlyPlain(C.Observed(C.Initial(), run)[i]) && Fitting(run, i, pc) && IsPlain(pc)
    ensures exists slot: nat ::
              && slot < |call.table| && C.Observed(C.Initial(), run)[i][slot] == C.Live(pc)
              && RunsAsRegistered(pc, call, caller, depth, slot)
  {
    hide W.Execute, W.Order, W.Outcomes, O.StoppedBefore, O.ThrewInside, C.Observed, C.FitRun, C.CallsOf,
      C.DeclaredOnce, C.Advises;
    C.DeliveredIff(run, calls, i, pc);
    var slots := C.Observed(C.Initial(), run)[i];
    var slot: nat :| slot < |slots| && slots[slot] == C.Live(pc);
    assert call.table[slot] == W.Plain(CutOf(pc.kinds), callbacks.plain(pc.advice));
    assert O.WovenPlainly(call);
    O.AdviceRunsIff(call, caller, depth, slot);
    assert RunsAsRegistered(pc, call, caller, depth, slot);
  }

  /** So where nothing throws at all, it runs if it is before advice or for returning. */
  lemma AllFittingAdviceRuns(run: seq<C.Event>, calls: set<C.Exec>, i: nat, callbacks: Callbacks, call: W.Call,
                             caller: W.Caller, depth: nat, pc: C.Pointcut)
    requires C.CallsOf(run, calls) && C.DeclaredOnce(calls)
    requires RunsWith(run, i, callbacks, call) && C.FitRun([], map[], run)[i]
    requires OnlyPlain(C.Observed(C.Initial(), run)[i]) && W.NothingThrows(W.Outcomes(true, call, depth))
    requires Fitting(run, i, pc) && (C.Before in pc.kinds || C.Return in pc.kinds)
    ensures exists slot: nat ::
              && slot < |call.table| && C.Observed(C.Initial(), run)[i][slot] == C.Live(pc)
              && (slot as int) in W.Order(W.Execute(true, call, false, None, caller, depth).events, depth)
  {
    hide W.Execute, W.Order, W.Outcomes, C.Observed, C.FitRun, C.CallsOf, C.DeclaredOnce, C.Advises;
    FittingAdviceRunsIff(run, calls, i, callbacks, call, caller, depth, pc);
    var slot: nat :| slot < |call.table| && C.Observed(C.Initial(), run)[i][slot] == C.Live(pc)
                     && RunsAsRegistered(pc, call, caller, depth, slot);
  }
}
