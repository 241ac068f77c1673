/** Weaving advice around a call: the recursive walk over an advice table, the
    pending exception, and the flag that keeps advice from being advised. */
module AopWeaver {
  import opened Text

  type Exn = nat

  /** How an advice was registered. */
  datatype AdviceKind = Before | After | AfterReturning | AfterThrowing

  predicate RunsAfter(k: AdviceKind) { !k.Before? }
  predicate Catches(k: AdviceKind) { k.After? || k.AfterThrowing? }
  predicate Returns(k: AdviceKind) { k.After? || k.AfterReturning? }

  /** A call in user code, and whether that code catches what it throws. */
  datatype CallSite = CallSite(call: Call, caught: bool)

  /** User code: it makes calls until one throws, then may throw itself. */
  datatype Code = Code(sites: seq<CallSite>, throws: Option<Exn>)

  /** Around advice may also proceed with the intercepted call. */
  datatype AroundSite = Nested(site: CallSite) | Proceed(caught: bool)

  /** A slot of an advice table; deleted entries leave a tombstone. */
  datatype Slot =
    | Tombstone
    | Plain(kind: AdviceKind, code: Code)
    | Around(steps: seq<AroundSite>, throws: Option<Exn>)

  datatype Origin = Internal | User | Closure | Eval

  /** A call with the advice that applies to it and the body it runs. */
  datatype Call = Call(origin: Origin, hasName: bool, table: seq<Slot>, body: Code)

  datatype Caller = FromOutside | FromBody | FromAdvice

  /** What is observed, with the depth of nesting and the flag at that moment. */
  datatype Event =
    | Entered(depth: nat, caller: Caller, woven: bool)
    | RanAdvice(depth: nat, slot: nat, flag: bool)
    | RanBody(depth: nat, woven: bool, flag: bool)

  /** What a stretch of execution leaves: the flag, the pending exception, and
      what was observed on the way. */
  datatype Effect = Effect(overloaded: bool, exception: Option<Exn>, events: seq<Event>)
  {
    function Then(next: Effect): Effect {
      next.(events := events + next.events)
    }
  }

  /** Whether the hook goes the advised way. */
  predicate Intercepts(enabled: bool, overloaded: bool, exception: Option<Exn>, c: Call) {
    enabled && !overloaded && exception.None? && c.hasName && !c.origin.Eval? && !c.origin.Closure?
  }

  predicate HasAdvice(table: seq<Slot>) {
    exists i :: 0 <= i < |table| && table[i] != Tombstone
  }

  function SkipTombstones(table: seq<Slot>, pos: nat): (r: nat)
    requires pos <= |table|
    ensures pos <= r <= |table|
    ensures forall i :: pos <= i < r ==> table[i] == Tombstone
    ensures r < |table| ==> table[r] != Tombstone
    decreases |table| - pos
  {
    if pos < |table| && table[pos] == Tombstone then SkipTombstones(table, pos + 1) else pos
  }

  /** The end of a piece of code: it throws, unless a call already did. */
  function Finish(e: Effect, throws: Option<Exn>): Effect {
    if e.exception.None? then e.(exception := throws) else e
  }

  function Caught(e: Effect, caught: bool): Effect {
    if caught then e.(exception := None) else e
  }

  /** What may be observed: advice runs with the flag set, the body of an
      intercepted call with the flag clear, and no call made directly by advice
      is woven. */
  predicate Sound(ev: Event) {
    match ev
    case Entered(_, caller, woven) => caller.FromAdvice? ==> !woven
    case RanAdvice(_, _, flag) => flag
    case RanBody(_, woven, flag) => woven ==> !flag
  }

  /** The flag is left as it was and only sound events are observed, at the given
      depth or deeper. */
  ghost predicate Balanced(overloaded: bool, e: Effect, depth: nat) {
    && e.overloaded == overloaded
    && forall i :: 0 <= i < |e.events| ==> Sound(e.events[i]) && e.events[i].depth >= depth
  }

  /** The hook in front of every call. */
  function Execute(enabled: bool, c: Call, overloaded: bool, exception: Option<Exn>, caller: Caller,
                   depth: nat): (e: Effect)
    ensures (caller.FromAdvice? ==> overloaded) ==> Balanced(overloaded, e, depth)
    decreases c, |c.table| + 3, 0
  {
    var woven := Intercepts(enabled, overloaded, exception, c);
    var entered := Effect(overloaded, exception, [Entered(depth, caller, woven)]);
    if !woven then entered.Then(RunBody(enabled, c, overloaded, exception, false, depth))
    else entered.Then(WeaveCall(enabled, c, exception, depth).(overloaded := false))
  }

  /** An intercepted call; the flag is set when it starts. */
  function WeaveCall(enabled: bool, c: Call, exception: Option<Exn>, depth: nat): (e: Effect)
    ensures Balanced(true, e, depth)
    decreases c, |c.table| + 2, 0
  {
    if !HasAdvice(c.table) then RunContext(enabled, c, exception, depth)
    else Weave(enabled, c, 0, 0, exception, depth).0
  }

  /** The body of an intercepted call: the flag is clear while it runs, and it
      does not run while an exception is pending. */
  function RunContext(enabled: bool, c: Call, exception: Option<Exn>, depth: nat): (e: Effect)
    ensures Balanced(true, e, depth)
    decreases c, 0, |c.body.sites| + 2
  {
    if exception.Some? then Effect(true, exception, [])
    else RunBody(enabled, c, false, exception, true, depth).(overloaded := true)
  }

  function RunBody(enabled: bool, c: Call, overloaded: bool, exception: Option<Exn>, woven: bool,
                   depth: nat): (e: Effect)
    ensures (woven ==> !overloaded) ==> Balanced(overloaded, e, depth)
    decreases c, 0, |c.body.sites| + 1
  {
    var started := Effect(overloaded, exception, [RanBody(depth, woven, overloaded)]);
    Finish(started.Then(RunBodySites(enabled, c, 0, overloaded, exception, depth)), c.body.throws)
  }

  function RunBodySites(enabled: bool, c: Call, k: nat, overloaded: bool, exception: Option<Exn>,
                        depth: nat): (e: Effect)
    requires k <= |c.body.sites|
    ensures Balanced(overloaded, e, depth + 1)
    decreases c, 0, |c.body.sites| - k
  {
    if k == |c.body.sites| || exception.Some? then Effect(overloaded, exception, [])
    else
      var site := c.body.sites[k];
      var after := Caught(Execute(enabled, site.call, overloaded, exception, FromBody, depth + 1), site.caught);
      after.Then(RunBodySites(enabled, c, k + 1, after.overloaded, after.exception, depth))
  }

  /** From a position of the table to its end and back. The second result is
      the position kept in the joinpoint, where around advice proceeds. */
  function Weave(enabled: bool, c: Call, start: nat, kept: nat, exception: Option<Exn>, depth: nat): (r: (Effect, nat))
    requires start <= |c.table| && kept <= |c.table|
    ensures kept <= r.1 || start < r.1
    ensures r.1 <= |c.table|
    ensures Balanced(true, r.0, depth)
    decreases c, |c.table| + 1 - start, 0
  {
    var pos := SkipTombstones(c.table, start);
    if pos == |c.table| then (RunContext(enabled, c, exception, depth), kept)
    else
      match c.table[pos]
      case Around(_, _) =>
        if exception.Some? then (Effect(true, exception, []), pos + 1)
        else
          var started := Effect(true, exception, [RanAdvice(depth, pos, true)]);
          var (e, last) := RunAround(enabled, c, pos, 0, pos + 1, exception, depth);
          (started.Then(e), last)
      case Plain(kind, _) =>
        var before :=
          if kind.Before? && exception.None? then RunPlain(enabled, c, pos, depth) else Effect(true, exception, []);
        var (inner, last) := Weave(enabled, c, pos + 1, pos + 1, before.exception, depth);
        (before.Then(inner).Then(RunAfter(enabled, c, pos, inner.exception, depth)), last)
  }

  /** On the way back: throwing advice runs with the exception set aside and
      whatever it throws dropped; returning advice runs when none is pending. */
  function RunAfter(enabled: bool, c: Call, i: nat, exception: Option<Exn>, depth: nat): (e: Effect)
    requires i < |c.table| && c.table[i].Plain?
    ensures Balanced(true, e, depth)
    decreases c, |c.table| - i, 2
  {
    var kind := c.table[i].kind;
    if RunsAfter(kind) && Catches(kind) && exception.Some? then
      RunPlain(enabled, c, i, depth).(exception := exception)
    else if RunsAfter(kind) && Returns(kind) && exception.None? then
      RunPlain(enabled, c, i, depth)
    else Effect(true, exception, [])
  }

  /** One advice that does not proceed; nothing is pending when it starts. */
  function RunPlain(enabled: bool, c: Call, i: nat, depth: nat): (e: Effect)
    requires i < |c.table| && c.table[i].Plain?
    ensures Balanced(true, e, depth)
    decreases c, |c.table| - i, 1
  {
    var started := Effect(true, None, [RanAdvice(depth, i, true)]);
    Finish(started.Then(RunPlainSites(enabled, c, i, 0, None, depth)), c.table[i].code.throws)
  }

  function RunPlainSites(enabled: bool, c: Call, i: nat, k: nat, exception: Option<Exn>, depth: nat): (e: Effect)
    requires i < |c.table| && c.table[i].Plain? && k <= |c.table[i].code.sites|
    ensures Balanced(true, e, depth + 1)
    decreases c, 0, |c.table[i].code.sites| - k
  {
    if k == |c.table[i].code.sites| || exception.Some? then Effect(true, exception, [])
    else
      var site := c.table[i].code.sites[k];
      var after := Caught(Execute(enabled, site.call, true, exception, FromAdvice, depth + 1), site.caught);
      after.Then(RunPlainSites(enabled, c, i, k + 1, after.exception, depth))
  }

  /** Around advice from its step `k` on. */
  function RunAround(enabled: bool, c: Call, i: nat, k: nat, kept: nat, exception: Option<Exn>,
                     depth: nat): (r: (Effect, nat))
    requires i < |c.table| && c.table[i].Around? && k <= |c.table[i].steps|
    requires i < kept <= |c.table|
    ensures i < r.1 <= |c.table|
    ensures Balanced(true, r.0, depth)
    decreases c, |c.table| - i, 1, |c.table[i].steps| - k
  {
    var steps := c.table[i].steps;
    if k == |steps| || exception.Some? then (Finish(Effect(true, exception, []), c.table[i].throws), kept)
    else
      match steps[k]
      case Nested(site) =>
        var after := Caught(Execute(enabled, site.call, true, exception, FromAdvice, depth + 1), site.caught);
        var (rest, last) := RunAround(enabled, c, i, k + 1, kept, after.exception, depth);
        (after.Then(rest), last)
      case Proceed(caught) =>
        var (inner, at) := Weave(enabled, c, kept, kept, exception, depth);
        var after := Caught(inner, caught);
        var (rest, last) := RunAround(enabled, c, i, k + 1, at, after.exception, depth);
        (after.Then(rest), last)
  }

  /** What before advice in a slot does, if it runs. */
  function BeforePart(enabled: bool, c: Call, pos: nat, pending: Option<Exn>, depth: nat): Effect
    requires pos < |c.table| && c.table[pos].Plain?
  {
    if c.table[pos].kind.Before? && pending.None? then RunPlain(enabled, c, pos, depth) else Effect(true, pending, [])
  }

  /** A slot of plain advice around the rest of the walk. */
  function PlainSlot(enabled: bool, c: Call, pos: nat, exception: Option<Exn>, depth: nat): (Effect, nat)
    requires pos < |c.table| && c.table[pos].Plain?
  {
    var before := BeforePart(enabled, c, pos, exception, depth);
    var (inner, last) := Weave(enabled, c, pos + 1, pos + 1, before.exception, depth);
    (before.Then(inner).Then(RunAfter(enabled, c, pos, inner.exception, depth)), last)
  }

  lemma WeavesPlainSlot(enabled: bool, c: Call, start: nat, kept: nat, exception: Option<Exn>, depth: nat)
    requires start <= |c.table| && kept <= |c.table|
    requires SkipTombstones(c.table, start) < |c.table| && c.table[SkipTombstones(c.table, start)].Plain?
    ensures Weave(enabled, c, start, kept, exception, depth)
         == PlainSlot(enabled, c, SkipTombstones(c.table, start), exception, depth)
  {
    hide RunContext, RunPlain, RunAfter, RunAround;
  }

  // --------------------------------------------------------------- the engine

  lemma Regroup(t: seq<Event>, a: seq<Event>, b: seq<Event>, c: seq<Event>)
    ensures ((t + a) + b) + c == t + ((a + b) + c)
    ensures (t + a) + b == t + (a + b)
  {
  }

  class Engine {
    const enabled: bool
    var overloaded: bool
    var exception: Option<Exn>
    var trace: seq<Event>

    constructor (enabled: bool)
      ensures !overloaded && exception == None && trace == [] && this.enabled == enabled
    {
      this.enabled := enabled;
      overloaded, exception, trace := false, None, [];
    }

    /** The state is what `e` leaves after a start with the trace `before`. */
    predicate After(before: seq<Event>, e: Effect)
      reads this
    {
      overloaded == e.overloaded && exception == e.exception && trace == before + e.events
    }

    /** What is observed so far, with what `rest` adds, is what `whole` adds to
        the trace `started`. */
    predicate Reaches(started: seq<Event>, whole: Effect, rest: Effect)
      reads this
    {
      trace + rest.events == started + whole.events &&
      rest.overloaded == whole.overloaded && rest.exception == whole.exception
    }

    method ExecuteEx(c: Call, caller: Caller, depth: nat)
      modifies this
      ensures After(old(trace), Execute(enabled, c, old(overloaded), old(exception), caller, depth))
      decreases c, |c.table| + 3, 0
    {
      var bypass := !enabled || overloaded || exception.Some? || !c.hasName || c.origin.Eval? || c.origin.Closure?;
      trace := trace + [Entered(depth, caller, !bypass)];
      if bypass {
        CallBody(c, false, depth);
        return;
      }
      overloaded := true;
      FuncPointcutAndExecute(c, depth);
      overloaded := false;
    }

    method FuncPointcutAndExecute(c: Call, depth: nat)
      requires overloaded
      modifies this
      ensures After(old(trace), WeaveCall(enabled, c, old(exception), depth))
      decreases c, |c.table| + 2, 0
    {
      if forall i :: 0 <= i < |c.table| ==> c.table[i] == Tombstone {
        overloaded := false;
        ExecuteContext(c, depth);
        overloaded := true;
        return;
      }
      var last := DoFuncExecute(c, 0, 0, depth);
    }

    method ExecuteContext(c: Call, depth: nat)
      requires !overloaded
      modifies this
      ensures !overloaded
      ensures var e := RunContext(enabled, c, old(exception), depth);
        exception == e.exception && trace == old(trace) + e.events
      decreases c, 0, |c.body.sites| + 2
    {
      if exception.Some? {
        return;
      }
      CallBody(c, true, depth);
    }

    method CallBody(c: Call, woven: bool, depth: nat)
      requires woven ==> !overloaded
      modifies this
      ensures After(old(trace), RunBody(enabled, c, old(overloaded), old(exception), woven, depth))
      decreases c, 0, |c.body.sites| + 1
    {
      trace := trace + [RanBody(depth, woven, overloaded)];
      var k := 0;
      ghost var started, whole := trace, RunBodySites(enabled, c, 0, overloaded, exception, depth);
      while k < |c.body.sites| && exception.None?
        invariant k <= |c.body.sites|
        invariant Reaches(started, whole, RunBodySites(enabled, c, k, overloaded, exception, depth))
        decreases |c.body.sites| - k
      {
        var site := c.body.sites[k];
        ghost var before := trace;
        ghost var after := Execute(enabled, site.call, overloaded, exception, FromBody, depth + 1);
        ExecuteEx(site.call, FromBody, depth + 1);
        if site.caught {
          exception := None;
        }
        k := k + 1;
        Regroup(before, after.events, RunBodySites(enabled, c, k, overloaded, exception, depth).events, []);
      }
      assert RunBodySites(enabled, c, k, overloaded, exception, depth) == Effect(overloaded, exception, []);
      assert trace == started + whole.events;
      Regroup(old(trace), [RanBody(depth, woven, old(overloaded))], whole.events, []);
      if exception.None? {
        exception := c.body.throws;
      }
    }

    method DoFuncExecute(c: Call, start: nat, kept: nat, depth: nat) returns (last: nat)
      requires start <= |c.table| && kept <= |c.table|
      requires overloaded
      modifies this
      ensures var r := Weave(enabled, c, start, kept, old(exception), depth);
        After(old(trace), r.0) && last == r.1
      decreases c, |c.table| + 1 - start, 0, 1
    {
      hide RunContext, RunPlain, RunAfter, RunAround, PlainSlot;
      var pos := start;
      while pos < |c.table| && c.table[pos] == Tombstone
        invariant start <= pos <= |c.table|
        invariant SkipTombstones(c.table, start) == SkipTombstones(c.table, pos)
      {
        pos := pos + 1;
      }
      if pos == |c.table| {
        overloaded := false;
        ExecuteContext(c, depth);
        overloaded := true;
        return kept;
      }
      match c.table[pos]
      case Around(_, _) =>
        last := pos + 1;
        if exception.None? {
          trace := trace + [RanAdvice(depth, pos, overloaded)];
          last := CallAround(c, pos, depth);
        }
      case Plain(kind, _) =>
        WeavesPlainSlot(enabled, c, start, kept, exception, depth);
        last := CallPlainSlot(c, pos, depth);
    }

    /** One slot of plain advice, with the rest of the walk inside it. */
    method CallPlainSlot(c: Call, pos: nat, depth: nat) returns (last: nat)
      requires pos < |c.table| && c.table[pos].Plain?
      requires overloaded
      modifies this
      ensures var r := PlainSlot(enabled, c, pos, old(exception), depth);
        After(old(trace), r.0) && last == r.1
      decreases c, |c.table| + 1 - pos, 0, 0
    {
      hide Weave, RunPlain, RunAfter;
      ghost var t0, before := trace, BeforePart(enabled, c, pos, exception, depth);
      if c.table[pos].kind.Before? && exception.None? {
        CallPlain(c, pos, depth);
      }
      assert After(t0, before);
      last := DoFuncExecute(c, pos + 1, pos + 1, depth);
      ghost var inner := Weave(enabled, c, pos + 1, pos + 1, before.exception, depth).0;
      CallAfter(c, pos, depth);
      ghost var after := RunAfter(enabled, c, pos, inner.exception, depth);
      Regroup(t0, before.events, inner.events, after.events);
    }

    method CallAfter(c: Call, i: nat, depth: nat)
      requires i < |c.table| && c.table[i].Plain?
      requires overloaded
      modifies this
      ensures After(old(trace), RunAfter(enabled, c, i, old(exception), depth))
      ensures old(exception).Some? ==> exception == old(exception)
      ensures trace != old(trace) <==>
              match c.table[i].kind
              case Before => false
              case After => true
              case AfterThrowing => old(exception).Some?
              case AfterReturning => old(exception).None?
      decreases c, |c.table| - i, 2
    {
      var kind := c.table[i].kind;
      if RunsAfter(kind) {
        if Catches(kind) && exception.Some? {
          var pending := exception;
          exception := None;
          CallPlain(c, i, depth);
          exception := pending;
        } else if Returns(kind) && exception.None? {
          CallPlain(c, i, depth);
        }
      }
    }

    method CallPlain(c: Call, i: nat, depth: nat)
      requires i < |c.table| && c.table[i].Plain?
      requires overloaded && exception.None?
      modifies this
      ensures After(old(trace), RunPlain(enabled, c, i, depth))
      decreases c, |c.table| - i, 1
    {
      trace := trace + [RanAdvice(depth, i, overloaded)];
      var sites, k := c.table[i].code.sites, 0;
      ghost var started, whole := trace, RunPlainSites(enabled, c, i, 0, None, depth);
      while k < |sites| && exception.None?
        invariant k <= |sites| && overloaded
        invariant Reaches(started, whole, RunPlainSites(enabled, c, i, k, exception, depth))
        decreases |sites| - k
      {
        ghost var before := trace;
        ghost var after := Execute(enabled, sites[k].call, true, exception, FromAdvice, depth + 1);
        ExecuteEx(sites[k].call, FromAdvice, depth + 1);
        if sites[k].caught {
          exception := None;
        }
        k := k + 1;
        Regroup(before, after.events, RunPlainSites(enabled, c, i, k, exception, depth).events, []);
      }
      assert RunPlainSites(enabled, c, i, k, exception, depth) == Effect(true, exception, []);
      assert trace == started + whole.events;
      Regroup(old(trace), [RanAdvice(depth, i, true)], whole.events, []);
      if exception.None? {
        exception := c.table[i].code.throws;
      }
    }

    /** The part of around advice that may run next, and where the joinpoint
        stands after it. */
    method CallAroundStep(c: Call, i: nat, k: nat, kept: nat, depth: nat) returns (last: nat, ghost after: Effect)
      requires i < |c.table| && c.table[i].Around? && k < |c.table[i].steps| && i < kept <= |c.table|
      requires overloaded && exception.None?
      modifies this
      ensures After(old(trace), after) && overloaded && i < last <= |c.table|
      ensures var rest := RunAround(enabled, c, i, k + 1, last, exception, depth);
        RunAround(enabled, c, i, k, kept, None, depth) == (after.Then(rest.0), rest.1)
      decreases c, |c.table| - i, 1, 0
    {
      last := kept;
      match c.table[i].steps[k] {
        case Nested(site) =>
          after := Caught(Execute(enabled, site.call, true, None, FromAdvice, depth + 1), site.caught);
          ExecuteEx(site.call, FromAdvice, depth + 1);
          if site.caught {
            exception := None;
          }
        case Proceed(caught) =>
          after := Caught(Weave(enabled, c, kept, kept, None, depth).0, caught);
          last := DoFuncExecute(c, kept, kept, depth);
          if caught {
            exception := None;
          }
      }
    }

    method CallAround(c: Call, i: nat, depth: nat) returns (last: nat)
      requires i < |c.table| && c.table[i].Around?
      requires overloaded && exception.None?
      modifies this
      ensures var r := RunAround(enabled, c, i, 0, i + 1, None, depth);
        After(old(trace), r.0) && last == r.1
      decreases c, |c.table| - i, 1, 1
    {
      var steps, k := c.table[i].steps, 0;
      last := i + 1;
      ghost var whole := RunAround(enabled, c, i, 0, i + 1, None, depth);
      while k < |steps| && exception.None?
        invariant k <= |steps| && overloaded && i < last <= |c.table|
        invariant var rest := RunAround(enabled, c, i, k, last, exception, depth);
          Reaches(old(trace), whole.0, rest.0) && rest.1 == whole.1
        decreases |steps| - k
      {
        ghost var before := trace;
        ghost var after;
        last, after := CallAroundStep(c, i, k, last, depth);
        k := k + 1;
        Regroup(before, after.events, RunAround(enabled, c, i, k, last, exception, depth).0.events, []);
      }
      assert RunAround(enabled, c, i, k, last, exception, depth).0.events == [];
      if exception.None? {
        exception := c.table[i].throws;
      }
    }
  }

  // -------------------------------------------------- order and exceptions

  predicate NoAround(table: seq<Slot>) {
    forall i :: 0 <= i < |table| ==> !table[i].Around?
  }

  const BODY := -1

  /** What a run at this depth throws by itself: one advice, or the body. */
  function Outcome(enabled: bool, c: Call, i: int, depth: nat): Option<Exn> {
    if 0 <= i < |c.table| && c.table[i].Plain? then RunPlain(enabled, c, i, depth).exception
    else RunBody(enabled, c, false, None, true, depth).exception
  }

  function Outcomes(enabled: bool, c: Call, depth: nat): int -> Option<Exn> {
    i => Outcome(enabled, c, i, depth)
  }

  /** The runs seen at one depth, as slots of the table, or `BODY`. */
  function Order(events: seq<Event>, depth: nat): seq<int> {
    if events == [] then []
    else
      var before := Order(events[..|events| - 1], depth);
      match events[|events| - 1]
      case RanAdvice(d, slot, _) => if d == depth then before + [slot] else before
      case RanBody(d, _, _) => if d == depth then before + [BODY] else before
      case Entered(_, _, _) => before
  }

  lemma {:induction false} OrderOfBoth(a: seq<Event>, b: seq<Event>, depth: nat)
    ensures Order(a + b, depth) == Order(a, depth) + Order(b, depth)
  {
    if b == [] {
      assert a + b == a;
    } else {
      OrderOfBoth(a, b[..|b| - 1], depth);
      assert (a + b)[..|a + b| - 1] == a + b[..|b| - 1];
    }
  }

  lemma {:induction false} DeeperIsUnseen(events: seq<Event>, depth: nat)
    requires forall i :: 0 <= i < |events| ==> events[i].depth > depth
    ensures Order(events, depth) == []
  {
    if events != [] {
      DeeperIsUnseen(events[..|events| - 1], depth);
    }
  }

  lemma PlainIsSeenOnce(enabled: bool, c: Call, i: nat, depth: nat)
    requires i < |c.table| && c.table[i].Plain?
    ensures Order(RunPlain(enabled, c, i, depth).events, depth) == [i]
  {
    var sites := RunPlainSites(enabled, c, i, 0, None, depth).events;
    DeeperIsUnseen(sites, depth);
    OrderOfBoth([RanAdvice(depth, i, true)], sites, depth);
    assert [RanAdvice(depth, i, true)][..0] == [];
  }

  lemma ContextIsSeen(enabled: bool, c: Call, exception: Option<Exn>, depth: nat)
    ensures Order(RunContext(enabled, c, exception, depth).events, depth) == if exception.None? then [BODY] else []
  {
    var sites := RunBodySites(enabled, c, 0, false, None, depth).events;
    DeeperIsUnseen(sites, depth);
    OrderOfBoth([RanBody(depth, true, false)], sites, depth);
    assert [RanBody(depth, true, false)][..0] == [];
  }

  /** The slots from `start` on that hold before advice, in registration order. */
  function Befores(table: seq<Slot>, start: nat): seq<nat>
    requires start <= |table|
    decreases |table| - start
  {
    if start == |table| then []
    else (if table[start].Plain? && table[start].kind.Before? then [start] else []) + Befores(table, start + 1)
  }

  /** The slots from `start` on that hold after advice, in reverse order. */
  function Afters(table: seq<Slot>, start: nat): seq<nat>
    requires start <= |table|
    decreases |table| - start
  {
    if start == |table| then []
    else Afters(table, start + 1) + (if table[start].Plain? && RunsAfter(table[start].kind) then [start] else [])
  }

  /** The first runs up to and including the first that throws, and what is
      pending then. */
  function UpToFirstThrow(runs: seq<int>, pending: Option<Exn>, outcome: int -> Option<Exn>): (seq<int>, Option<Exn>) {
    if runs == [] || pending.Some? then ([], pending)
    else
      var (rest, e) := UpToFirstThrow(runs[1..], outcome(runs[0]), outcome);
      ([runs[0]] + rest, e)
  }

  predicate Applies(kind: AdviceKind, pending: Option<Exn>) {
    if pending.Some? then Catches(kind) else Returns(kind)
  }

  /** The after advice that applies: with an exception pending, what catches;
      without one, what runs on return, and that may throw. */
  function Unwind(table: seq<Slot>, runs: seq<nat>, pending: Option<Exn>, outcome: int -> Option<Exn>): (seq<int>,
                  Option<Exn>) {
    if runs == [] then ([], pending)
    else
      var i := runs[0];
      if i < |table| && table[i].Plain? && Applies(table[i].kind, pending) then
        var (rest, e) := Unwind(table, runs[1..], if pending.Some? then pending else outcome(i), outcome);
        ([i] + rest, e)
      else Unwind(table, runs[1..], pending, outcome)
  }

  /** The order a table prescribes for one call. */
  function Prescribed(table: seq<Slot>, start: nat, pending: Option<Exn>, outcome: int -> Option<Exn>): (seq<int>,
                      Option<Exn>)
    requires start <= |table|
  {
    var (up, e1) := UpToFirstThrow(Befores(table, start), pending, outcome);
    var (body, e2) := UpToFirstThrow([BODY], e1, outcome);
    var (down, e3) := Unwind(table, Afters(table, start), e2, outcome);
    (up + body + down, e3)
  }

  lemma UnwindOne(table: seq<Slot>, i: nat, pending: Option<Exn>, outcome: int -> Option<Exn>)
    requires i < |table| && table[i].Plain?
    ensures Unwind(table, [i], pending, outcome) ==
      if Applies(table[i].kind, pending) then ([i], if pending.Some? then pending else outcome(i)) else ([], pending)
  {
    assert [i][1..] == [];
    var e := if Applies(table[i].kind, pending) && pending.None? then outcome(i) else pending;
    assert Unwind(table, [], e, outcome) == ([], e);
    assert [i as int] + [] == [i];
  }

  lemma BodyAlone(pending: Option<Exn>, outcome: int -> Option<Exn>)
    ensures UpToFirstThrow([BODY], pending, outcome) ==
      if pending.None? then ([BODY], outcome(BODY)) else ([], pending)
  {
    assert [BODY][1..] == [];
    assert UpToFirstThrow([], outcome(BODY), outcome) == ([], outcome(BODY));
    assert [BODY] + [] == [BODY];
  }

  lemma {:induction false} UnwindBoth(table: seq<Slot>, a: seq<nat>, b: seq<nat>, pending: Option<Exn>,
                                      outcome: int -> Option<Exn>)
    ensures var (x, e) := Unwind(table, a, pending, outcome);
      var (y, f) := Unwind(table, b, e, outcome);
      Unwind(table, a + b, pending, outcome) == (x + y, f)
  {
    if a == [] {
      assert a + b == b;
      assert [] + Unwind(table, b, pending, outcome).0 == Unwind(table, b, pending, outcome).0;
    } else {
      assert (a + b)[1..] == a[1..] + b;
      var i := a[0];
      var applies := i < |table| && table[i].Plain? && Applies(table[i].kind, pending);
      var next := if applies && pending.None? then outcome(i) else pending;
      UnwindBoth(table, a[1..], b, next, outcome);
      var (x, e) := Unwind(table, a[1..], next, outcome);
      var (y, f) := Unwind(table, b, e, outcome);
      assert [i] + (x + y) == ([i] + x) + y;
    }
  }

  /** Dead slots do not count. */
  lemma {:induction false} SkippedSlots(table: seq<Slot>, start: nat)
    requires start <= |table| && NoAround(table)
    ensures Befores(table, start) == Befores(table, SkipTombstones(table, start))
    ensures Afters(table, start) == Afters(table, SkipTombstones(table, start))
    decreases |table| - start
  {
    if start < |table| && table[start] == Tombstone {
      SkippedSlots(table, start + 1);
    }
  }

  lemma PrescribedAtEnd(table: seq<Slot>, pending: Option<Exn>, outcome: int -> Option<Exn>)
    ensures Prescribed(table, |table|, pending, outcome) ==
      if pending.None? then ([BODY], outcome(BODY)) else ([], pending)
  {
    BodyAlone(pending, outcome);
    var (body, e) := UpToFirstThrow([BODY], pending, outcome);
    assert Unwind(table, [], e, outcome) == ([], e);
    assert UpToFirstThrow([], pending, outcome) == ([], pending);
    assert [] + body + [] == body;
  }

  /** A before slot comes first, unless an exception is pending. */
  lemma PrescribedBefore(table: seq<Slot>, pos: nat, pending: Option<Exn>, outcome: int -> Option<Exn>)
    requires pos < |table| && table[pos].Plain? && table[pos].kind.Before?
    ensures Prescribed(table, pos, pending, outcome) ==
      if pending.Some? then Prescribed(table, pos + 1, pending, outcome)
      else
        var (r, e) := Prescribed(table, pos + 1, outcome(pos), outcome);
        ([pos] + r, e)
  {
    var runs := Befores(table, pos);
    assert runs == [pos] + Befores(table, pos + 1);
    assert runs[1..] == Befores(table, pos + 1);
    assert Afters(table, pos) == Afters(table, pos + 1);
    if pending.None? {
      var (up, e1) := UpToFirstThrow(Befores(table, pos + 1), outcome(pos), outcome);
      var (body, e2) := UpToFirstThrow([BODY], e1, outcome);
      var (down, e3) := Unwind(table, Afters(table, pos), e2, outcome);
      assert ([pos as int] + up) + body + down == [pos as int] + (up + body + down);
    }
  }

  /** An after slot comes last, if it applies. */
  lemma PrescribedAfter(table: seq<Slot>, pos: nat, pending: Option<Exn>, outcome: int -> Option<Exn>)
    requires pos < |table| && table[pos].Plain? && RunsAfter(table[pos].kind)
    ensures var (r, e) := Prescribed(table, pos + 1, pending, outcome);
      Prescribed(table, pos, pending, outcome) ==
      if Applies(table[pos].kind, e) then (r + [pos], if e.Some? then e else outcome(pos)) else (r, e)
  {
    assert Befores(table, pos) == Befores(table, pos + 1);
    assert Afters(table, pos) == Afters(table, pos + 1) + [pos];
    var (up, e1) := UpToFirstThrow(Befores(table, pos), pending, outcome);
    var (body, e2) := UpToFirstThrow([BODY], e1, outcome);
    var (down, e3) := Unwind(table, Afters(table, pos + 1), e2, outcome);
    UnwindBoth(table, Afters(table, pos + 1), [pos], e2, outcome);
    UnwindOne(table, pos, e3, outcome);
    assert (up + body + down) + [pos as int] == up + body + (down + [pos as int]);
    assert down + [] == down;
  }

  /** Weaving order: whatever the interleaving of before and after advice and
      whatever throws, the walk makes exactly the prescribed runs, and what is
      pending at its end is what they leave. */
  lemma {:induction false} WeavesAsPrescribed(enabled: bool, c: Call, start: nat, kept: nat, pending: Option<Exn>,
                                              depth: nat)
    requires start <= |c.table| && kept <= |c.table| && NoAround(c.table)
    ensures var e := Weave(enabled, c, start, kept, pending, depth).0;
      (Order(e.events, depth), e.exception) ==
      Prescribed(c.table, start, pending, Outcomes(enabled, c, depth))
    decreases |c.table| - start
  {
    var outcome := Outcomes(enabled, c, depth);
    var pos := SkipTombstones(c.table, start);
    SkippedSlots(c.table, start);
    assert Prescribed(c.table, start, pending, outcome) == Prescribed(c.table, pos, pending, outcome);
    WeaveSkips(enabled, c, start, kept, pending, depth);
    assert RunContext(enabled, c, pending, depth).exception == if pending.None? then outcome(BODY) else pending;
    hide Weave, Prescribed, Order, Outcomes, RunContext;
    if pos == |c.table| {
      ContextIsSeen(enabled, c, pending, depth);
      PrescribedAtEnd(c.table, pending, outcome);
    } else {
      WeavesSlot(enabled, c, pos, pending, depth);
    }
  }

  /** Dead slots make no difference to the walk. */
  lemma WeaveSkips(enabled: bool, c: Call, start: nat, kept: nat, pending: Option<Exn>, depth: nat)
    requires start <= |c.table| && kept <= |c.table| && NoAround(c.table)
    ensures var pos := SkipTombstones(c.table, start);
      Weave(enabled, c, start, kept, pending, depth).0 ==
      if pos == |c.table| then RunContext(enabled, c, pending, depth) else Weave(enabled, c, pos, pos, pending, depth).0
  {
    hide RunContext, RunPlain, RunAfter;
  }

  lemma {:induction false} WeavesSlot(enabled: bool, c: Call, pos: nat, pending: Option<Exn>, depth: nat)
    requires pos < |c.table| && NoAround(c.table) && c.table[pos].Plain?
    ensures var e := Weave(enabled, c, pos, pos, pending, depth).0;
      (Order(e.events, depth), e.exception) ==
      Prescribed(c.table, pos, pending, Outcomes(enabled, c, depth))
    decreases |c.table| - pos, 0
  {
    var outcome := Outcomes(enabled, c, depth);
    var before := BeforePart(enabled, c, pos, pending, depth);
    var inner := Weave(enabled, c, pos + 1, pos + 1, before.exception, depth).0;
    PlainIsSeenOnce(enabled, c, pos, depth);
    WeavesAsPrescribed(enabled, c, pos + 1, pos + 1, before.exception, depth);
    WeaveAtSlot(enabled, c, pos, pending, depth);
    if c.table[pos].kind.Before? {
      JoinBefore(c.table, pos, pending, outcome, before, inner, depth);
    } else {
      JoinAfter(c.table, pos, pending, outcome, inner, RunAfter(enabled, c, pos, inner.exception, depth), depth);
    }
  }

  lemma WeaveAtSlot(enabled: bool, c: Call, pos: nat, pending: Option<Exn>, depth: nat)
    requires pos < |c.table| && c.table[pos].Plain?
    ensures var before := BeforePart(enabled, c, pos, pending, depth);
      var inner := Weave(enabled, c, pos + 1, pos + 1, before.exception, depth).0;
      Weave(enabled, c, pos, pos, pending, depth).0 ==
      if c.table[pos].kind.Before? then before.Then(inner)
      else inner.Then(RunAfter(enabled, c, pos, inner.exception, depth))
  {
    var before := BeforePart(enabled, c, pos, pending, depth);
    var inner := Weave(enabled, c, pos + 1, pos + 1, before.exception, depth).0;
    assert before.events + inner.events + [] == before.events + inner.events;
    assert [] + inner.events == inner.events;
  }

  lemma JoinBefore(table: seq<Slot>, pos: nat, pending: Option<Exn>, outcome: int -> Option<Exn>,
                   before: Effect, inner: Effect, depth: nat)
    requires pos < |table| && table[pos].Plain? && table[pos].kind.Before?
    requires if pending.Some? then before.events == [] && before.exception == pending
             else Order(before.events, depth) == [pos] && before.exception == outcome(pos)
    requires (Order(inner.events, depth), inner.exception) == Prescribed(table, pos + 1, before.exception, outcome)
    ensures (Order(before.Then(inner).events, depth), inner.exception) == Prescribed(table, pos, pending, outcome)
  {
    PrescribedBefore(table, pos, pending, outcome);
    OrderOfBoth(before.events, inner.events, depth);
    assert [] + inner.events == inner.events;
  }

  lemma JoinAfter(table: seq<Slot>, pos: nat, pending: Option<Exn>, outcome: int -> Option<Exn>,
                  inner: Effect, after: Effect, depth: nat)
    requires pos < |table| && table[pos].Plain? && RunsAfter(table[pos].kind)
    requires if Applies(table[pos].kind, inner.exception)
             then Order(after.events, depth) == [pos] &&
                  after.exception == (if inner.exception.Some? then inner.exception else outcome(pos))
             else after.events == [] && after.exception == inner.exception
    requires (Order(inner.events, depth), inner.exception) == Prescribed(table, pos + 1, pending, outcome)
    ensures (Order(inner.Then(after).events, depth), after.exception) == Prescribed(table, pos, pending, outcome)
  {
    PrescribedAfter(table, pos, pending, outcome);
    OrderOfBoth(inner.events, after.events, depth);
    assert inner.events + [] == inner.events;
  }

  /** The first exception raised along an order of runs. */
  function FirstThrown(runs: seq<int>, outcome: int -> Option<Exn>): Option<Exn> {
    if runs == [] then None
    else if outcome(runs[0]).Some? then outcome(runs[0])
    else FirstThrown(runs[1..], outcome)
  }

  lemma {:induction false} FirstThrownOfBoth(a: seq<int>, b: seq<int>, outcome: int -> Option<Exn>)
    ensures FirstThrown(a + b, outcome) ==
      if FirstThrown(a, outcome).Some? then FirstThrown(a, outcome) else FirstThrown(b, outcome)
  {
    if a == [] {
      assert a + b == b;
    } else {
      assert (a + b)[1..] == a[1..] + b;
      FirstThrownOfBoth(a[1..], b, outcome);
    }
  }

  lemma {:induction false} UpThrowsFirst(runs: seq<int>, pending: Option<Exn>, outcome: int -> Option<Exn>)
    ensures var (r, e) := UpToFirstThrow(runs, pending, outcome);
      e == if pending.Some? then pending else FirstThrown(r, outcome)
  {
    if runs != [] && pending.None? {
      UpThrowsFirst(runs[1..], outcome(runs[0]), outcome);
      var (rest, e) := UpToFirstThrow(runs[1..], outcome(runs[0]), outcome);
      assert ([runs[0]] + rest)[1..] == rest;
    }
  }

  lemma {:induction false} DownThrowsFirst(table: seq<Slot>, runs: seq<nat>, pending: Option<Exn>,
                                           outcome: int -> Option<Exn>)
    ensures var (r, e) := Unwind(table, runs, pending, outcome);
      e == if pending.Some? then pending else FirstThrown(r, outcome)
  {
    if runs != [] {
      var i := runs[0];
      if i < |table| && table[i].Plain? && Applies(table[i].kind, pending) {
        var next := if pending.Some? then pending else outcome(i);
        DownThrowsFirst(table, runs[1..], next, outcome);
        var (rest, e) := Unwind(table, runs[1..], next, outcome);
        assert ([i as int] + rest)[1..] == rest;
      } else {
        DownThrowsFirst(table, runs[1..], pending, outcome);
      }
    }
  }

  lemma PrescribedThrowsFirst(table: seq<Slot>, start: nat, outcome: int -> Option<Exn>)
    requires start <= |table|
    ensures var (order, e) := Prescribed(table, start, None, outcome);
      e == FirstThrown(order, outcome)
  {
    var (up, e1) := UpToFirstThrow(Befores(table, start), None, outcome);
    var (body, e2) := UpToFirstThrow([BODY], e1, outcome);
    var (down, e3) := Unwind(table, Afters(table, start), e2, outcome);
    UpThrowsFirst(Befores(table, start), None, outcome);
    UpThrowsFirst([BODY], e1, outcome);
    DownThrowsFirst(table, Afters(table, start), e2, outcome);
    FirstThrownOfBoth(up, body, outcome);
    FirstThrownOfBoth(up + body, down, outcome);
  }

  /** First exception wins: an intercepted call makes the prescribed runs, and
      ends with the earliest exception any of them raised. */
  lemma FirstExceptionWins(c: Call, caller: Caller, depth: nat)
    requires Intercepts(true, false, None, c) && HasAdvice(c.table) && NoAround(c.table)
    ensures var e := Execute(true, c, false, None, caller, depth);
      var outcome := Outcomes(true, c, depth);
      Order(e.events, depth) == Prescribed(c.table, 0, None, outcome).0 &&
      e.exception == FirstThrown(Order(e.events, depth), outcome)
  {
    var woven := WeaveCall(true, c, None, depth);
    WeavesAsPrescribed(true, c, 0, 0, None, depth);
    PrescribedThrowsFirst(c.table, 0, Outcomes(true, c, depth));
    OrderOfBoth([Entered(depth, caller, true)], woven.events, depth);
    assert [Entered(depth, caller, true)][..0] == [];
    assert [] + Order(woven.events, depth) == Order(woven.events, depth);
  }

  ghost predicate Descending(runs: seq<nat>) {
    forall i, j :: 0 <= i < j < |runs| ==> runs[i] > runs[j]
  }

  lemma {:induction false} AftersAre(table: seq<Slot>, start: nat)
    requires start <= |table|
    ensures forall i: nat :: i in Afters(table, start) <==>
              start <= i < |table| && table[i].Plain? && table[i].kind != Before
    decreases |table| - start
  {
    if start < |table| {
      AftersAre(table, start + 1);
    }
  }

  lemma {:induction false} AftersDescend(table: seq<Slot>, start: nat)
    requires start <= |table|
    ensures Descending(Afters(table, start))
    ensures forall i: nat :: i in Afters(table, start) <==>
              start <= i < |table| && table[i].Plain? && table[i].kind != Before
    decreases |table| - start
  {
    AftersAre(table, start);
    if start < |table| {
      AftersDescend(table, start + 1);
      var rest := Afters(table, start + 1);
      forall k | 0 <= k < |rest|
        ensures rest[k] > start
      {
        assert rest[k] in rest;
      }
    }
  }

  ghost predicate ThrownOutside(runs: seq<int>, i: nat, outcome: int -> Option<Exn>) {
    exists j :: j in runs && j > i && outcome(j).Some?
  }

  lemma {:induction false} UnwindStaysWithin(table: seq<Slot>, runs: seq<nat>, pending: Option<Exn>,
                                             outcome: int -> Option<Exn>)
    ensures forall j :: j in Unwind(table, runs, pending, outcome).0 ==> j >= 0 && (j as nat) in runs
  {
    if runs != [] {
      var i := runs[0];
      var applies := i < |table| && table[i].Plain? && Applies(table[i].kind, pending);
      var next := if applies && pending.None? then outcome(i) else pending;
      UnwindStaysWithin(table, runs[1..], next, outcome);
    }
  }

  /** Which after advice runs: throwing advice exactly when something was pending
      before or was thrown by advice registered later, returning advice exactly
      when not, and plain after advice always. */
  lemma {:induction false} AfterAdviceRunsIff(table: seq<Slot>, runs: seq<nat>, pending: Option<Exn>,
                                              outcome: int -> Option<Exn>, i: nat)
    requires Descending(runs) && i in runs
    requires forall k :: k in runs ==> k < |table| && table[k].Plain? && table[k].kind != Before
    ensures var r := Unwind(table, runs, pending, outcome).0;
      var thrown := pending.Some? || ThrownOutside(r, i, outcome);
      && (table[i].kind == After ==> i in r)
      && (table[i].kind == AfterThrowing ==> (i in r <==> thrown))
      && (table[i].kind == AfterReturning ==> (i in r <==> !thrown))
  {
    var first, rest := runs[0], runs[1..];
    assert first in runs;
    var applies := Applies(table[first].kind, pending);
    var next := if applies && pending.None? then outcome(first) else pending;
    var r, tail := Unwind(table, runs, pending, outcome).0, Unwind(table, rest, next, outcome).0;
    UnwindStaysWithin(table, rest, next, outcome);
    assert r == if applies then [first as int] + tail else tail;
    assert forall j :: j in r <==> j in tail || (applies && j == first);
    assert forall k :: k in rest ==> k < first;
    if i == first {
      assert !ThrownOutside(r, i, outcome);
    } else {
      assert i in rest;
      AfterAdviceRunsIff(table, rest, next, outcome, i);
      if ThrownOutside(tail, i, outcome) {
        var j :| j in tail && j > i && outcome(j).Some?;
        assert j in r;
      }
    }
  }

  // --------------------------------------------------- which advice ran at all

  /** The advice seen at this depth came from live slots of the table. */
  ghost predicate FromLiveSlots(events: seq<Event>, table: seq<Slot>, depth: nat) {
    forall k :: 0 <= k < |events| && events[k].RanAdvice? && events[k].depth == depth ==>
      events[k].slot < |table| && table[events[k].slot] != Tombstone
  }

  ghost predicate Deeper(events: seq<Event>, depth: nat) {
    forall k :: 0 <= k < |events| ==> events[k].depth > depth
  }

  lemma PlainRunsFromItsSlot(enabled: bool, c: Call, i: nat, depth: nat)
    requires i < |c.table| && c.table[i].Plain?
    ensures FromLiveSlots(RunPlain(enabled, c, i, depth).events, c.table, depth)
  {
    assert Deeper(RunPlainSites(enabled, c, i, 0, None, depth).events, depth);
  }

  lemma ContextRunsNoAdvice(enabled: bool, c: Call, exception: Option<Exn>, depth: nat)
    ensures FromLiveSlots(RunContext(enabled, c, exception, depth).events, c.table, depth)
  {
    assert Deeper(RunBodySites(enabled, c, 0, false, None, depth).events, depth);
  }

  lemma {:induction false} WeaveRunsLiveSlots(enabled: bool, c: Call, start: nat, kept: nat, exception: Option<Exn>,
                                              depth: nat)
    requires start <= |c.table| && kept <= |c.table|
    ensures FromLiveSlots(Weave(enabled, c, start, kept, exception, depth).0.events, c.table, depth)
    decreases |c.table| + 1 - start, 0
  {
    var pos := SkipTombstones(c.table, start);
    if pos == |c.table| {
      ContextRunsNoAdvice(enabled, c, exception, depth);
    } else if c.table[pos].Around? {
      if exception.None? {
        AroundRunsLiveSlots(enabled, c, pos, 0, pos + 1, exception, depth);
      }
    } else {
      WeavesPlainSlot(enabled, c, start, kept, exception, depth);
      PlainSlotRunsLiveSlots(enabled, c, pos, exception, depth);
    }
  }

  lemma PlainSlotRunsLiveSlots(enabled: bool, c: Call, pos: nat, exception: Option<Exn>, depth: nat)
    requires pos < |c.table| && c.table[pos].Plain?
    ensures FromLiveSlots(PlainSlot(enabled, c, pos, exception, depth).0.events, c.table, depth)
    decreases |c.table| - pos, 1
  {
    PlainRunsFromItsSlot(enabled, c, pos, depth);
    var before := BeforePart(enabled, c, pos, exception, depth);
    WeaveRunsLiveSlots(enabled, c, pos + 1, pos + 1, before.exception, depth);
    hide Weave, RunPlain;
  }

  lemma {:induction false} AroundRunsLiveSlots(enabled: bool, c: Call, i: nat, k: nat, kept: nat,
                                               exception: Option<Exn>, depth: nat)
    requires i < |c.table| && c.table[i].Around? && k <= |c.table[i].steps| && i < kept <= |c.table|
    ensures FromLiveSlots(RunAround(enabled, c, i, k, kept, exception, depth).0.events, c.table, depth)
    decreases |c.table| - i, 1, |c.table[i].steps| - k
  {
    hide Weave, Execute;
    if k < |c.table[i].steps| && exception.None? {
      match c.table[i].steps[k] {
        case Nested(site) =>
          var after := Caught(Execute(enabled, site.call, true, exception, FromAdvice, depth + 1), site.caught);
          assert Deeper(after.events, depth);
          AroundRunsLiveSlots(enabled, c, i, k + 1, kept, after.exception, depth);
        case Proceed(caught) =>
          var (inner, at) := Weave(enabled, c, kept, kept, exception, depth);
          WeaveRunsLiveSlots(enabled, c, kept, kept, exception, depth);
          AroundRunsLiveSlots(enabled, c, i, k + 1, at, Caught(inner, caught).exception, depth);
      }
    }
  }

  /** Whatever a call does, the advice that runs around it stands in a live slot of its own table. */
  lemma ExecuteRunsLiveSlots(enabled: bool, c: Call, overloaded: bool, exception: Option<Exn>, caller: Caller,
                             depth: nat)
    requires Intercepts(enabled, overloaded, exception, c)
    ensures FromLiveSlots(Execute(enabled, c, overloaded, exception, caller, depth).events, c.table, depth)
  {
    ContextRunsNoAdvice(enabled, c, exception, depth);
    WeaveRunsLiveSlots(enabled, c, 0, 0, exception, depth);
    hide Weave, RunContext;
  }

  /** Nothing that runs for this call throws. */
  ghost predicate NothingThrows(outcome: int -> Option<Exn>) {
    forall i: int :: outcome(i) == None
  }

  lemma {:induction false} AllGoUp(runs: seq<int>, outcome: int -> Option<Exn>)
    requires NothingThrows(outcome)
    ensures UpToFirstThrow(runs, None, outcome) == (runs, None)
  {
    if runs != [] {
      var first: int := runs[0];
      assert outcome(first) == None;
      AllGoUp(runs[1..], outcome);
      assert [runs[0]] + runs[1..] == runs;
    }
  }

  lemma {:induction false} ReturningGoDown(table: seq<Slot>, runs: seq<nat>, outcome: int -> Option<Exn>, i: nat)
    requires NothingThrows(outcome)
    ensures Unwind(table, runs, None, outcome).1 == None
    ensures (i as int) in Unwind(table, runs, None, outcome).0 <==>
            i in runs && i < |table| && table[i].Plain? && Returns(table[i].kind)
  {
    if runs != [] {
      ReturningGoDown(table, runs[1..], outcome, i);
    }
  }

  lemma {:induction false} BeforesAre(table: seq<Slot>, start: nat, i: nat)
    requires start <= |table|
    ensures i in Befores(table, start) <==> start <= i < |table| && table[i].Plain? && table[i].kind.Before?
    decreases |table| - start
  {
    if start < |table| {
      BeforesAre(table, start + 1, i);
    }
  }

  /** Where nothing throws, exactly the slots of before advice and of advice that runs on return are run. */
  lemma PrescribedWithoutThrows(table: seq<Slot>, outcome: int -> Option<Exn>, i: nat)
    requires NothingThrows(outcome)
    ensures Prescribed(table, 0, None, outcome).1 == None
    ensures (i as int) in Prescribed(table, 0, None, outcome).0 <==>
            i < |table| && table[i].Plain? && table[i].kind != AfterThrowing
  {
    var befores := Befores(table, 0);
    AllGoUp(befores, outcome);
    AllGoUp([BODY], outcome);
    ReturningGoDown(table, Afters(table, 0), outcome, i);
    AftersAre(table, 0);
    BeforesAre(table, 0, i);
  }

  // --------------------------------------------------- nothing below advice

  /** No call is woven, at any depth. */
  ghost predicate NothingWoven(events: seq<Event>) {
    forall k :: 0 <= k < |events| && events[k].Entered? ==> !events[k].woven
  }

  /** While the flag is set no call is woven, neither this one nor any call below it. */
  lemma {:induction false} FlagStopsWeaving(enabled: bool, c: Call, exception: Option<Exn>, caller: Caller, depth: nat)
    ensures NothingWoven(Execute(enabled, c, true, exception, caller, depth).events)
    decreases c, 1, 0
  {
    BodySitesWeaveNothing(enabled, c, 0, exception, depth);
    hide RunBodySites;
  }

  lemma {:induction false} BodySitesWeaveNothing(enabled: bool, c: Call, k: nat, exception: Option<Exn>, depth: nat)
    requires k <= |c.body.sites|
    ensures NothingWoven(RunBodySites(enabled, c, k, true, exception, depth).events)
    decreases c, 0, |c.body.sites| - k
  {
    hide Execute;
    if k < |c.body.sites| && exception.None? {
      var site := c.body.sites[k];
      FlagStopsWeaving(enabled, site.call, exception, FromBody, depth + 1);
      var after := Caught(Execute(enabled, site.call, true, exception, FromBody, depth + 1), site.caught);
      BodySitesWeaveNothing(enabled, c, k + 1, after.exception, depth);
    }
  }

  lemma {:induction false} AdviceSitesWeaveNothing(enabled: bool, c: Call, i: nat, k: nat, exception: Option<Exn>,
                                                   depth: nat)
    requires i < |c.table| && c.table[i].Plain? && k <= |c.table[i].code.sites|
    ensures NothingWoven(RunPlainSites(enabled, c, i, k, exception, depth).events)
    decreases |c.table[i].code.sites| - k
  {
    hide Execute;
    if k < |c.table[i].code.sites| && exception.None? {
      var site := c.table[i].code.sites[k];
      FlagStopsWeaving(enabled, site.call, exception, FromAdvice, depth + 1);
      var after := Caught(Execute(enabled, site.call, true, exception, FromAdvice, depth + 1), site.caught);
      AdviceSitesWeaveNothing(enabled, c, i, k + 1, after.exception, depth);
    }
  }

  /** Advice that does not proceed is never advised, however deep the calls below it go. */
  lemma AdviceIsNeverAdvised(enabled: bool, c: Call, i: nat, depth: nat)
    requires i < |c.table| && c.table[i].Plain?
    ensures NothingWoven(RunPlain(enabled, c, i, depth).events)
  {
    AdviceSitesWeaveNothing(enabled, c, i, 0, None, depth);
  }
}
