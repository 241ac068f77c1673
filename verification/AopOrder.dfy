/** What runs around a call, in the words of its registration: which calls are woven, when code
    throws, which advice runs, and what proceeding does. */
module AopOrder {
  import opened Text
  import opened AopWeaver

  // ------------------------------------------------------- which calls are woven

  /** A call is woven exactly when weaving is on, no advice is running, nothing is pending, and it
      is a named function that is neither a closure nor evaluated code.  Any other call, and any
      call without advice, runs its body and nothing else. */
  lemma WovenIff(enabled: bool, c: Call, overloaded: bool, exception: Option<Exn>, caller: Caller, depth: nat)
    requires caller == FromAdvice ==> overloaded
    ensures var events := Execute(enabled, c, overloaded, exception, caller, depth).events;
      var woven := enabled && !overloaded && exception == None && c.hasName && c.origin !in {Eval, Closure};
      && events != [] && events[0] == Entered(depth, caller, woven)
      && (!woven || (forall i :: 0 <= i < |c.table| ==> c.table[i] == Tombstone) ==> Order(events, depth) == [BODY])
  {
    var woven := Intercepts(enabled, overloaded, exception, c);
    if !woven {
      BodyIsSeen(enabled, c, overloaded, exception, depth);
    } else {
      ContextIsSeen(enabled, c, exception, depth);
    }
    hide RunBody, RunContext, Weave, Order;
    var rest := if woven then WeaveCall(enabled, c, exception, depth).events
                else RunBody(enabled, c, overloaded, exception, false, depth).events;
    EnteringIsUnseen(depth, caller, woven, rest);
  }

  lemma EnteringIsUnseen(depth: nat, caller: Caller, woven: bool, rest: seq<Event>)
    ensures Order([Entered(depth, caller, woven)] + rest, depth) == Order(rest, depth)
  {
    OrderOfBoth([Entered(depth, caller, woven)], rest, depth);
    assert [Entered(depth, caller, woven)][..0] == [];
    assert [] + Order(rest, depth) == Order(rest, depth);
  }

  lemma BodyIsSeen(enabled: bool, c: Call, overloaded: bool, exception: Option<Exn>, depth: nat)
    ensures Order(RunBody(enabled, c, overloaded, exception, false, depth).events, depth) == [BODY]
  {
    var sites := RunBodySites(enabled, c, 0, overloaded, exception, depth).events;
    DeeperIsUnseen(sites, depth);
    OrderOfBoth([RanBody(depth, false, overloaded)], sites, depth);
    assert [RanBody(depth, false, overloaded)][..0] == [];
  }

  // --------------------------------------------------------- when code throws

  /** What a call made from this code throws. */
  function ThrownAt(enabled: bool, sites: seq<CallSite>, k: nat, overloaded: bool, caller: Caller,
                    depth: nat): Option<Exn>
    requires k < |sites|
  {
    Execute(enabled, sites[k].call, overloaded, None, caller, depth + 1).exception
  }

  /** The first call from `k` on that throws what is not caught, or the end of the code. */
  function Stop(enabled: bool, sites: seq<CallSite>, k: nat, overloaded: bool, caller: Caller, depth: nat): (r: nat)
    requires k <= |sites|
    ensures k <= r <= |sites|
    ensures forall j :: k <= j < r ==> sites[j].caught || ThrownAt(enabled, sites, j, overloaded, caller, depth) == None
    ensures r < |sites| ==> !sites[r].caught && ThrownAt(enabled, sites, r, overloaded, caller, depth) != None
    decreases |sites| - k
  {
    if k < |sites| && (sites[k].caught || ThrownAt(enabled, sites, k, overloaded, caller, depth) == None)
    then Stop(enabled, sites, k + 1, overloaded, caller, depth)
    else k
  }

  /** What is observed of the calls up to `n`, one after the other. */
  function Together(enabled: bool, sites: seq<CallSite>, k: nat, n: nat, overloaded: bool, caller: Caller,
                    depth: nat): seq<Event>
    requires k <= n <= |sites|
    decreases n - k
  {
    if k == n then []
    else Execute(enabled, sites[k].call, overloaded, None, caller, depth + 1).events
         + Together(enabled, sites, k + 1, n, overloaded, caller, depth)
  }

  /** What a piece of code does: it makes its calls in turn, up to the first that throws what is
      not caught, and ends with that exception, or else with its own. */
  ghost predicate RunsCode(enabled: bool, code: Code, overloaded: bool, caller: Caller, depth: nat, e: Effect) {
    var sites := code.sites;
    var stop := Stop(enabled, sites, 0, overloaded, caller, depth);
    var made := if stop < |sites| then stop + 1 else stop;
    && e.exception ==
       (if stop < |sites| then ThrownAt(enabled, sites, stop, overloaded, caller, depth) else code.throws)
    && e.events != []
    && e.events[1..] == Together(enabled, sites, 0, made, overloaded, caller, depth)
  }

  lemma {:induction false} BodySitesTogether(enabled: bool, c: Call, k: nat, overloaded: bool, depth: nat)
    requires k <= |c.body.sites|
    ensures var sites, e := c.body.sites, RunBodySites(enabled, c, k, overloaded, None, depth);
      var stop := Stop(enabled, sites, k, overloaded, FromBody, depth);
      && e.exception == (if stop < |sites| then ThrownAt(enabled, sites, stop, overloaded, FromBody, depth) else None)
      && e.events == Together(enabled, sites, k, if stop < |sites| then stop + 1 else stop, overloaded, FromBody, depth)
    decreases |c.body.sites| - k
  {
    hide Execute;
    if k < |c.body.sites| {
      var after := Execute(enabled, c.body.sites[k].call, overloaded, None, FromBody, depth + 1);
      assert after.overloaded == overloaded;
      BodySitesTogether(enabled, c, k + 1, overloaded, depth);
    }
  }

  lemma BodyRunsItsCode(enabled: bool, c: Call, overloaded: bool, woven: bool, depth: nat)
    ensures var e := RunBody(enabled, c, overloaded, None, woven, depth);
      RunsCode(enabled, c.body, overloaded, FromBody, depth, e) && e.events[0] == RanBody(depth, woven, overloaded)
  {
    BodySitesTogether(enabled, c, 0, overloaded, depth);
    hide RunBodySites, Stop, Together, Execute;
  }

  lemma {:induction false} PlainSitesTogether(enabled: bool, c: Call, i: nat, k: nat, depth: nat)
    requires i < |c.table| && c.table[i].Plain? && k <= |c.table[i].code.sites|
    ensures var sites, e := c.table[i].code.sites, RunPlainSites(enabled, c, i, k, None, depth);
      var stop := Stop(enabled, sites, k, true, FromAdvice, depth);
      && e.exception == (if stop < |sites| then ThrownAt(enabled, sites, stop, true, FromAdvice, depth) else None)
      && e.events == Together(enabled, sites, k, if stop < |sites| then stop + 1 else stop, true, FromAdvice, depth)
    decreases |c.table[i].code.sites| - k
  {
    hide Execute;
    if k < |c.table[i].code.sites| {
      PlainSitesTogether(enabled, c, i, k + 1, depth);
    }
  }

  lemma AdviceRunsItsCode(enabled: bool, c: Call, i: nat, depth: nat)
    requires i < |c.table| && c.table[i].Plain?
    ensures var e := RunPlain(enabled, c, i, depth);
      RunsCode(enabled, c.table[i].code, true, FromAdvice, depth, e) && e.events[0] == RanAdvice(depth, i, true)
  {
    PlainSitesTogether(enabled, c, i, 0, depth);
    hide RunPlainSites, Stop, Together, Execute;
  }

  // ----------------------------------------------------------- which advice runs

  /** An advice registered earlier, and run before the call, threw. */
  ghost predicate StoppedBefore(c: Call, order: seq<int>, i: nat, outcome: int -> Option<Exn>) {
    exists j :: j in order && 0 <= j < i && j < |c.table| && c.table[j].Plain? && c.table[j].kind == Before
                && outcome(j) != None
  }

  /** Something that ran before this after advice threw: before advice, the body, or after advice
      that was registered later. */
  ghost predicate ThrewInside(c: Call, order: seq<int>, i: nat, outcome: int -> Option<Exn>) {
    exists j :: j in order && outcome(j) != None
                && (j == BODY || j > i || (0 <= j < |c.table| && c.table[j].Plain? && c.table[j].kind == Before))
  }

  /** A woven call with advice but no around advice. */
  ghost predicate WovenPlainly(c: Call) {
    && c.hasName && c.origin !in {Eval, Closure}
    && (exists i :: 0 <= i < |c.table| && c.table[i] != Tombstone)
    && (forall i :: 0 <= i < |c.table| ==> !c.table[i].Around?)
  }

  lemma {:induction false} UpRunsIff(table: seq<Slot>, start: nat, outcome: int -> Option<Exn>, i: nat)
    requires start <= |table|
    ensures var up := UpToFirstThrow(Befores(table, start), None, outcome).0;
      && (forall j :: j in up ==> start <= j < |table| && table[j].Plain? && table[j].kind == Before)
      && (i in up <==> start <= i < |table| && table[i].Plain? && table[i].kind == Before
                       && !exists j :: j in up && j < i && outcome(j) != None)
    decreases |table| - start
  {
    if start < |table| {
      UpRunsIff(table, start + 1, outcome, i);
      var runs: seq<int> := Befores(table, start + 1);
      if table[start].Plain? && table[start].kind == Before {
        UpOneMore(start, runs, outcome);
        assert Befores(table, start) == [start] + runs;
      } else {
        assert Befores(table, start) == runs;
      }
    }
  }

  lemma UpOneMore(first: int, runs: seq<int>, outcome: int -> Option<Exn>)
    ensures var up := UpToFirstThrow([first] + runs, None, outcome).0;
      && first in up
      && forall j :: j in up <==> j == first || (outcome(first) == None && j in UpToFirstThrow(runs, None, outcome).0)
  {
    assert ([first] + runs)[1..] == runs;
    assert UpToFirstThrow([first] + runs, None, outcome).0 == [first] + UpToFirstThrow(runs, outcome(first), outcome).0;
  }

  lemma {:induction false} FirstThrownIff(runs: seq<int>, outcome: int -> Option<Exn>)
    ensures FirstThrown(runs, outcome) != None <==> exists j :: j in runs && outcome(j) != None
  {
    if runs != [] {
      FirstThrownIff(runs[1..], outcome);
      assert forall j :: j in runs <==> j == runs[0] || j in runs[1..];
    }
  }

  /** What is pending behind the before advice and the body. */
  lemma PendingOnTheWayBack(table: seq<Slot>, outcome: int -> Option<Exn>)
    ensures var (up, e1) := UpToFirstThrow(Befores(table, 0), None, outcome);
      var (body, e2) := UpToFirstThrow([BODY], e1, outcome);
      && (e1 != None <==> exists j :: j in up && outcome(j) != None)
      && body == (if e1 == None then [BODY] else [])
      && (e2 != None <==> exists j :: j in up + body && outcome(j) != None)
  {
    var (up, e1) := UpToFirstThrow(Befores(table, 0), None, outcome);
    UpThrowsFirst(Befores(table, 0), None, outcome);
    FirstThrownIff(up, outcome);
    BodyAlone(e1, outcome);
    assert BODY in [BODY];
  }

  /**
   * Which runs a call makes, where no around advice is registered for it: the body unless before
   * advice threw; before advice unless before advice registered earlier threw; plain after advice
   * always; throwing advice exactly when something inside it threw, returning advice exactly when
   * nothing did.
   */
  lemma AdviceRunsIff(c: Call, caller: Caller, depth: nat, i: nat)
    requires WovenPlainly(c) && i < |c.table| && c.table[i].Plain?
    ensures var order := Order(Execute(true, c, false, None, caller, depth).events, depth);
      var outcome := Outcomes(true, c, depth);
      && (BODY in order <==> !StoppedBefore(c, order, |c.table|, outcome))
      && (c.table[i].kind == Before ==> (i in order <==> !StoppedBefore(c, order, i, outcome)))
      && (c.table[i].kind == After ==> i in order)
      && (c.table[i].kind == AfterThrowing ==> (i in order <==> ThrewInside(c, order, i, outcome)))
      && (c.table[i].kind == AfterReturning ==> (i in order <==> !ThrewInside(c, order, i, outcome)))
  {
    var outcome := Outcomes(true, c, depth);
    var order := Order(Execute(true, c, false, None, caller, depth).events, depth);
    FirstExceptionWins(c, caller, depth);
    hide Execute, Order, Outcomes;
    PrescribedRunsIff(c, outcome, i);
    assert order == Prescribed(c.table, 0, None, outcome).0;
  }

  lemma PrescribedRunsIff(c: Call, outcome: int -> Option<Exn>, i: nat)
    requires i < |c.table| && c.table[i].Plain?
    ensures var order := Prescribed(c.table, 0, None, outcome).0;
      && (BODY in order <==> !StoppedBefore(c, order, |c.table|, outcome))
      && (c.table[i].kind == Before ==> (i in order <==> !StoppedBefore(c, order, i, outcome)))
      && (c.table[i].kind == After ==> i in order)
      && (c.table[i].kind == AfterThrowing ==> (i in order <==> ThrewInside(c, order, i, outcome)))
      && (c.table[i].kind == AfterReturning ==> (i in order <==> !ThrewInside(c, order, i, outcome)))
  {
    var (up, e1) := UpToFirstThrow(Befores(c.table, 0), None, outcome);
    var (body, e2) := UpToFirstThrow([BODY], e1, outcome);
    var down := Unwind(c.table, Afters(c.table, 0), e2, outcome).0;
    var order := Prescribed(c.table, 0, None, outcome).0;
    assert order == up + body + down;
    assert forall j :: j in order <==> j in up || j in body || j in down;
    PendingOnTheWayBack(c.table, outcome);
    UpRunsIff(c.table, 0, outcome, i);
    AftersDescend(c.table, 0);
    UnwindStaysWithin(c.table, Afters(c.table, 0), e2, outcome);
    hide Unwind, Afters, Befores, UpToFirstThrow, Prescribed;
    assert forall j :: j in down ==> 0 <= j < |c.table| && c.table[j].Plain? && c.table[j].kind != Before;
    if c.table[i].kind != Before {
      AfterAdviceRunsIff(c.table, Afters(c.table, 0), e2, outcome, i);
    }
  }

  // --------------------------------------------------------------- proceeding

  /** From this step on, around advice makes calls only. */
  ghost predicate NeverProceeds(steps: seq<AroundSite>, k: nat) {
    forall j :: k <= j < |steps| ==> steps[j].Nested?
  }

  lemma {:induction false} NestedStepsAreUnseen(enabled: bool, c: Call, i: nat, k: nat, kept: nat, e: Option<Exn>,
                                                depth: nat)
    requires i < |c.table| && c.table[i].Around? && k <= |c.table[i].steps| && i < kept <= |c.table|
    requires NeverProceeds(c.table[i].steps, k)
    ensures Order(RunAround(enabled, c, i, k, kept, e, depth).0.events, depth) == []
    decreases |c.table[i].steps| - k
  {
    hide Execute, Order;
    if k < |c.table[i].steps| && e == None {
      var site := c.table[i].steps[k].site;
      var after := Caught(Execute(enabled, site.call, true, e, FromAdvice, depth + 1), site.caught);
      var rest := RunAround(enabled, c, i, k + 1, kept, after.exception, depth).0;
      NestedStepsAreUnseen(enabled, c, i, k + 1, kept, after.exception, depth);
      DeeperIsUnseen(after.events, depth);
      OrderOfBoth(after.events, rest.events, depth);
    } else {
      DeeperIsUnseen([], depth);
    }
  }

  /** Around advice that does not proceed keeps the rest from running: neither the advice
      registered behind it nor the body of the call. */
  lemma WithoutProceedingNothingElseRuns(enabled: bool, c: Call, start: nat, kept: nat, depth: nat)
    requires start < |c.table| && kept <= |c.table|
    requires c.table[start].Around? && NeverProceeds(c.table[start].steps, 0)
    ensures Order(Weave(enabled, c, start, kept, None, depth).0.events, depth) == [start]
  {
    hide Order;
    var rest := RunAround(enabled, c, start, 0, start + 1, None, depth).0;
    NestedStepsAreUnseen(enabled, c, start, 0, start + 1, None, depth);
    RanIsSeen(depth, start, rest.events);
    assert Weave(enabled, c, start, kept, None, depth).0.events == [RanAdvice(depth, start, true)] + rest.events;
    assert [start as int] + [] == [start];
  }

  lemma RanIsSeen(depth: nat, slot: nat, rest: seq<Event>)
    ensures Order([RanAdvice(depth, slot, true)] + rest, depth) == [slot as int] + Order(rest, depth)
  {
    OrderOfBoth([RanAdvice(depth, slot, true)], rest, depth);
    assert [RanAdvice(depth, slot, true)][..0] == [];
    assert [] + [slot as int] == [slot];
  }

  /** Around advice that proceeds once is transparent: the rest of the walk runs inside it, and
      what that throws comes out unless it is caught; else the advice may throw itself. */
  lemma ProceedingRunsTheRest(enabled: bool, c: Call, start: nat, kept: nat, depth: nat)
    requires start < |c.table| && kept <= |c.table|
    requires c.table[start].Around? && |c.table[start].steps| == 1 && c.table[start].steps[0].Proceed?
    ensures var whole := Weave(enabled, c, start, kept, None, depth).0;
      var rest := Weave(enabled, c, start + 1, start + 1, None, depth).0;
      && Order(whole.events, depth) == [start as int] + Order(rest.events, depth)
      && whole.exception ==
         if rest.exception != None && !c.table[start].steps[0].caught then rest.exception else c.table[start].throws
  {
    hide Order, Execute;
    var (inner, at) := Weave(enabled, c, start + 1, start + 1, None, depth);
    var after := Caught(inner, c.table[start].steps[0].caught);
    var last := RunAround(enabled, c, start, 1, at, after.exception, depth).0;
    assert last.events == [];
    var e := RunAround(enabled, c, start, 0, start + 1, None, depth).0;
    assert e.events == inner.events + [] && inner.events + [] == inner.events;
    assert Weave(enabled, c, start, kept, None, depth).0.events == [RanAdvice(depth, start, true)] + inner.events;
    RanIsSeen(depth, start, inner.events);
  }
}
