/** Which advice applies to a call or a property access, and the caches that
    remember the answer. */
module AopCache {
  import opened Text
  import AopGlob

  datatype Visibility = Public | Protected | Private
  datatype StaticState = NotStatic | OnlyStatic | EitherStatic
  datatype Kind = Around | Before | After | Read | Write | Property | Method | Function | Catch | Return

  /** A registered pointcut; `advice` stands for the callback.  Builds for PHP 7.3 and later match
      ancestors without a place for the result, which never succeeds: they do not try them. */
  datatype Pointcut = Pointcut(
    advice: nat,
    kinds: set<Kind>,
    scopes: set<Visibility>,
    staticState: StaticState,
    className: Option<string>,
    member: string,
    memberHasStar: bool,
    memberRegexp: string,
    classRegexp: Option<string>,
    triesAncestors: bool)

  /** What the selector scanner delivers before the expressions are compiled. */
  datatype Selector = Selector(
    advice: nat,
    kinds: set<Kind>,
    scopes: set<Visibility>,
    staticState: StaticState,
    className: Option<string>,
    member: string)
  {
    predicate Valid() {
      AopGlob.Label(member) && (className.Some? ==> AopGlob.Label(className.value))
    }
  }

  datatype Access = Access(isStatic: bool, visible: set<Visibility>)

  datatype Class = Class(
    name: string, interfaces: seq<string>, traits: seq<string>, ancestors: seq<string>,
    properties: map<string, Access>)

  datatype Callee = Callee(name: string, scope: Option<Class>, access: Access)

  datatype Object = Object(handle: nat, cls: Class)

  /** A call about to be executed. */
  datatype Exec = Exec(callee: Callee, this_: Option<Object>)

  /** A position of an advice table: deleting an entry leaves its slot behind. */
  datatype Slot = Live(pc: Pointcut) | Tombstone

  // ------------------------------------------------------------ registration

  /** The two rounds of rewriting that end the registration of a pointcut. */
  method MakeRegexp(text: string) returns (regexp: string)
    requires AopGlob.Label(text)
    ensures regexp == AopGlob.Compile(text)
    ensures forall name :: '\n' !in name ==>
      (AopGlob.PcreMatches(regexp, name) <==> AopGlob.GlobMatches(text, name))
  {
    var buffer := ReplaceAll(text, "**\\", "[.#}");
    buffer := ReplaceAll(buffer, "**", "[.#]");
    buffer := ReplaceAll(buffer, "\\", "\\\\");
    buffer := ReplaceAll(buffer, "*", "[^\\\\]*");
    buffer := ReplaceAll(buffer, "[.#]", ".*");
    buffer := ReplaceAll(buffer, "[.#}", "(.*\\\\)?");
    AopGlob.SixPassesTranslateTokens(text);
    if buffer == "" || buffer[0] != '\\' {
      regexp := "/^" + buffer + "$/i";
    } else {
      regexp := "/^" + buffer[2..] + "$/i";
    }
    forall name | '\n' !in name
      ensures AopGlob.PcreMatches(regexp, name) <==> AopGlob.GlobMatches(text, name)
    {
      AopGlob.CompiledAcceptsGlob(text, name);
    }
  }

  function Registered(sel: Selector, triesAncestors: bool): Pointcut
    requires sel.Valid()
  {
    Pointcut(sel.advice, sel.kinds, sel.scopes, sel.staticState, sel.className, sel.member,
             '*' in sel.member, AopGlob.Compile(sel.member),
             if sel.className.Some? then Some(AopGlob.Compile(sel.className.value)) else None,
             triesAncestors)
  }

  // ---------------------------------------------------------------- matching

  /** The names a class pattern is tried on. */
  function Lineage(c: Class, triesAncestors: bool): seq<string> {
    [c.name] + c.interfaces + c.traits + if triesAncestors then c.ancestors else []
  }

  predicate MatchesClass(pc: Pointcut, c: Class) {
    pc.classRegexp.Some? &&
    var names := Lineage(c, pc.triesAncestors);
    exists i :: 0 <= i < |names| && AopGlob.PcreMatches(pc.classRegexp.value, names[i])
  }

  predicate StaticFits(state: StaticState, isStatic: bool) {
    match state
    case EitherStatic => true
    case OnlyStatic => isStatic
    case NotStatic => !isStatic
  }

  predicate MatchesCallee(pc: Pointcut, f: Callee) {
    && StaticFits(pc.staticState, f.access.isStatic)
    && (pc.scopes != {} ==> pc.scopes * f.access.visible != {})
    && (if pc.className.None? && pc.member == "*" then true
        else if pc.className.None? && f.scope.Some? then false
        else if pc.memberHasStar then AopGlob.PcreMatches(pc.memberRegexp, f.name)
        else AopGlob.ComparesEqual(pc.member, f.name))
  }

  /** The pointcuts of the wanted kinds whose class pattern fits. */
  function ClassPointcuts(table: seq<Pointcut>, c: Option<Class>, kinds: set<Kind>): seq<Pointcut> {
    if table == [] then []
    else
      var pc := table[|table| - 1];
      var before := ClassPointcuts(table[..|table| - 1], c, kinds);
      if pc.kinds * kinds != {} &&
         ((c.None? && Function in pc.kinds) || (c.Some? && MatchesClass(pc, c.value)))
      then before + [pc]
      else before
  }

  /** The class whose pointcuts apply: the object's, else a static method's own. */
  function ClassOf(ex: Exec): Option<Class> {
    if ex.this_.Some? then Some(ex.this_.value.cls)
    else if ex.callee.access.isStatic then ex.callee.scope
    else None
  }

  /** The advice table of a call, computed from scratch. */
  function FunctionPointcuts(table: seq<Pointcut>, ex: Exec): seq<Slot> {
    var candidates := ClassPointcuts(table, ClassOf(ex), {Function, Method});
    seq(|candidates|, i requires 0 <= i < |candidates| =>
      if MatchesCallee(candidates[i], ex.callee) then Live(candidates[i]) else Tombstone)
  }

  /** Which advice is live for a call, whatever the table: the registered pointcuts for
      functions or methods that fit the class the call goes by, and the callee. */
  predicate Advises(pc: Pointcut, ex: Exec) {
    pc.kinds * {Function, Method} != {} && FitsClass(pc, ClassOf(ex)) && MatchesCallee(pc, ex.callee)
  }

  predicate FitsClass(pc: Pointcut, c: Option<Class>) {
    if c.None? then Function in pc.kinds else MatchesClass(pc, c.value)
  }

  lemma {:induction false} LiveAdviceIff(table: seq<Pointcut>, ex: Exec, pc: Pointcut)
    ensures Live(pc) in FunctionPointcuts(table, ex) <==> pc in table && Advises(pc, ex)
  {
    hide MatchesClass, MatchesCallee;
    var candidates := ClassPointcuts(table, ClassOf(ex), {Function, Method});
    CandidatesAre(table, ClassOf(ex), {Function, Method}, pc);
    var slots := FunctionPointcuts(table, ex);
    if pc in candidates && MatchesCallee(pc, ex.callee) {
      var i :| 0 <= i < |candidates| && candidates[i] == pc;
      assert slots[i] == Live(pc);
    }
    if Live(pc) in slots {
      var i :| 0 <= i < |slots| && slots[i] == Live(pc);
      assert candidates[i] == pc && MatchesCallee(pc, ex.callee);
    }
  }

  lemma {:induction false} CandidatesAre(table: seq<Pointcut>, c: Option<Class>, kinds: set<Kind>, pc: Pointcut)
    ensures pc in ClassPointcuts(table, c, kinds) <==>
      && pc in table && pc.kinds * kinds != {}
      && FitsClass(pc, c)
  {
    hide MatchesClass;
    if table != [] {
      CandidatesAre(table[..|table| - 1], c, kinds, pc);
      assert table == table[..|table| - 1] + [table[|table| - 1]];
    }
  }

  /** A property pattern: a prefix up to a final star, else the whole name. */
  predicate MatchesMember(pattern: string, name: string) {
    if pattern != "" && pattern[|pattern| - 1] == '*' then pattern[..|pattern| - 1] <= name
    else pattern == name
  }

  predicate PropertyScopeFits(pc: Pointcut, c: Class, member: string) {
    if member in c.properties then
      var access := c.properties[member];
      StaticFits(pc.staticState, access.isStatic) &&
      (pc.scopes != {} ==> pc.scopes * access.visible != {})
    else
      (pc.scopes != {} ==> Public in pc.scopes) && pc.staticState != OnlyStatic
  }

  predicate MatchesProperty(pc: Pointcut, c: Class, member: string) {
    && ((pc.member != "" && pc.member[0] == '*') || MatchesMember(pc.member, member))
    && (pc.staticState != EitherStatic || pc.scopes != {} ==> PropertyScopeFits(pc, c, member))
  }

  /** The advice table of a property access, computed from scratch. */
  function PropertyPointcuts(table: seq<Pointcut>, c: Class, member: string, kind: Kind): seq<Slot> {
    var candidates := ClassPointcuts(table, Some(c), {kind});
    seq(|candidates|, i requires 0 <= i < |candidates| =>
      if MatchesProperty(candidates[i], c, member) then Live(candidates[i]) else Tombstone)
  }

  // ------------------------------------------------------------------ caches

  datatype Entry = Entry(slots: seq<Slot>, version: nat, cls: Option<Class>)

  datatype ObjectCache = ObjectCache(read: map<string, Entry>, write: map<string, Entry>, func: map<string, Entry>)

  const NO_OBJECT_CACHE := ObjectCache(map[], map[], map[])

  datatype State = State(
    table: seq<Pointcut>,
    version: nat,
    functionCache: map<string, Entry>,
    objectCache: seq<Option<ObjectCache>>)

  const INITIAL_OBJECT_CACHE_SIZE := 1024

  function Initial(): State {
    State([], 0, map[], seq(INITIAL_OBJECT_CACHE_SIZE, _ => None))
  }

  /** The key of a call without an object: static methods carry their class. */
  function FunctionKey(f: Callee): string {
    if f.access.isStatic && f.scope.Some? then f.scope.value.name + "::" + f.name else f.name
  }

  /** One lookup: an entry of the current version (and class, where one is
      compared) is used, any other is replaced by `computed`. */
  function Fetch(cache: map<string, Entry>, key: string, version: nat, cls: Option<Class>, comparesClass: bool,
                 computed: seq<Slot>): (map<string, Entry>, seq<Slot>)
  {
    if key in cache && cache[key].version == version && (comparesClass ==> cache[key].cls == cls)
    then (cache, cache[key].slots)
    else (cache[key := Entry(computed, version, cls)], computed)
  }

  /** Room for a handle, with an object cache in its place. */
  function WithHandle(caches: seq<Option<ObjectCache>>, handle: nat): (r: seq<Option<ObjectCache>>)
    ensures |r| == (if handle < |caches| then |caches| else handle + 1) && r[handle].Some?
    ensures forall h :: 0 <= h < |caches| && h != handle ==> h < |r| && r[h] == caches[h]
    ensures forall h :: |caches| <= h < |r| && h != handle ==> r[h] == None
    ensures r[handle].value ==
      if handle < |caches| && caches[handle].Some? then caches[handle].value else NO_OBJECT_CACHE
  {
    var grown := if handle < |caches| then caches else caches + seq(handle + 1 - |caches|, _ => None);
    if grown[handle] == None then grown[handle := Some(NO_OBJECT_CACHE)] else grown
  }

  function LookupFunction(st: State, ex: Exec): (State, seq<Slot>) {
    var computed := FunctionPointcuts(st.table, ex);
    match ex.this_
    case None =>
      var r := Fetch(st.functionCache, FunctionKey(ex.callee), st.version, None, false, computed);
      (st.(functionCache := r.0), r.1)
    case Some(obj) =>
      var caches := WithHandle(st.objectCache, obj.handle);
      var mine := caches[obj.handle].value;
      var r := Fetch(mine.func, ex.callee.name, st.version, ex.callee.scope, true, computed);
      (st.(objectCache := caches[obj.handle := Some(mine.(func := r.0))]), r.1)
  }

  function LookupProperty(st: State, obj: Object, member: string, reading: bool): (State, seq<Slot>) {
    var computed := PropertyPointcuts(st.table, obj.cls, member, if reading then Read else Write);
    var caches := WithHandle(st.objectCache, obj.handle);
    var mine := caches[obj.handle].value;
    var r := Fetch(if reading then mine.read else mine.write, member, st.version, Some(obj.cls), true, computed);
    (st.(objectCache := caches[obj.handle := Some(if reading then mine.(read := r.0) else mine.(write := r.0))]), r.1)
  }

  function Register(st: State, pc: Pointcut): State {
    st.(table := st.table + [pc], version := st.version + 1)
  }

  // ------------------------------------------------------------- the engine

  class Aop {
    var table: seq<Pointcut>
    var version: nat
    var functionCache: map<string, Entry>
    var objectCache: seq<Option<ObjectCache>>
    const triesAncestors: bool

    function Snapshot(): State
      reads this
    {
      State(table, version, functionCache, objectCache)
    }

    constructor (triesAncestors: bool)
      ensures Snapshot() == Initial() && this.triesAncestors == triesAncestors
    {
      this.triesAncestors := triesAncestors;
      table, version, functionCache := [], 0, map[];
      objectCache := seq(INITIAL_OBJECT_CACHE_SIZE, _ => None);
    }

    method AddPointcut(sel: Selector)
      requires sel.Valid()
      modifies this
      ensures Snapshot() == Register(old(Snapshot()), Registered(sel, triesAncestors))
    {
      var memberRegexp := MakeRegexp(sel.member);
      var classRegexp := None;
      if sel.className.Some? {
        var regexp := MakeRegexp(sel.className.value);
        classRegexp := Some(regexp);
      }
      var pc := Pointcut(sel.advice, sel.kinds, sel.scopes, sel.staticState, sel.className, sel.member,
                         '*' in sel.member, memberRegexp, classRegexp, triesAncestors);
      table := table + [pc];
      version := version + 1;
    }

    /** Makes room for a handle and for its caches. */
    method GetObjectCache(handle: nat) returns (cache: ObjectCache)
      modifies this`objectCache
      ensures objectCache == WithHandle(old(objectCache), handle)
      ensures cache == objectCache[handle].value
    {
      if handle >= |objectCache| {
        ghost var before := objectCache;
        for i := |objectCache| to handle + 1
          invariant objectCache == before + seq(i - |before|, _ => None)
        {
          objectCache := objectCache + [None];
        }
      }
      if objectCache[handle] == None {
        objectCache := objectCache[handle := Some(NO_OBJECT_CACHE)];
      }
      cache := objectCache[handle].value;
    }

    method GetCacheFunc(ex: Exec) returns (slots: seq<Slot>)
      modifies this
      ensures (Snapshot(), slots) == LookupFunction(old(Snapshot()), ex)
    {
      var key, cls, cache := ex.callee.name, None, functionCache;
      if ex.this_ == None {
        key := FunctionKey(ex.callee);
      } else {
        cls := ex.callee.scope;
        var mine := GetObjectCache(ex.this_.value.handle);
        cache := mine.func;
      }
      ghost var was := cache;
      if key in cache && (cache[key].version != version || (ex.this_ != None && cache[key].cls != cls)) {
        cache := cache - {key};
      }
      if key !in cache {
        cache := cache[key := Entry(FunctionPointcuts(table, ex), version, cls)];
        assert cache == was[key := cache[key]];
      }
      slots := cache[key].slots;
      if ex.this_ == None {
        functionCache := cache;
      } else {
        var h := ex.this_.value.handle;
        objectCache := objectCache[h := Some(objectCache[h].value.(func := cache))];
      }
    }

    method GetCacheProperty(obj: Object, member: string, reading: bool) returns (slots: seq<Slot>)
      modifies this
      ensures (Snapshot(), slots) == LookupProperty(old(Snapshot()), obj, member, reading)
    {
      var mine := GetObjectCache(obj.handle);
      var cache := if reading then mine.read else mine.write;
      ghost var was := cache;
      if member in cache && (cache[member].version != version || cache[member].cls != Some(obj.cls)) {
        cache := cache - {member};
      }
      if member !in cache {
        var computed := PropertyPointcuts(table, obj.cls, member, if reading then Read else Write);
        cache := cache[member := Entry(computed, version, Some(obj.cls))];
        assert cache == was[member := cache[member]];
      }
      slots := cache[member].slots;
      objectCache := objectCache[obj.handle :=
        Some(if reading then mine.(read := cache) else mine.(write := cache))];
    }
  }

  // --------------------------------------------------------------- coherence

  datatype Event =
    | Registers(pc: Pointcut)
    | Calls(ex: Exec)
    | Reads(obj: Object, member: string)
    | Writes(obj: Object, member: string)

  function Step(st: State, ev: Event): (State, seq<Slot>) {
    match ev
    case Registers(pc) => (Register(st, pc), [])
    case Calls(ex) => LookupFunction(st, ex)
    case Reads(obj, member) => LookupProperty(st, obj, member, true)
    case Writes(obj, member) => LookupProperty(st, obj, member, false)
  }

  /** The advice tables a run delivers, one for each event. */
  function Observed(st: State, run: seq<Event>): seq<seq<Slot>>
    decreases |run|
  {
    if run == [] then [] else [Step(st, run[0]).1] + Observed(Step(st, run[0]).0, run[1..])
  }

  /** What the same event gives when nothing is remembered. */
  function Computed(table: seq<Pointcut>, ev: Event): seq<Slot> {
    match ev
    case Registers(_) => []
    case Calls(ex) => FunctionPointcuts(table, ex)
    case Reads(obj, member) => PropertyPointcuts(table, obj.cls, member, Read)
    case Writes(obj, member) => PropertyPointcuts(table, obj.cls, member, Write)
  }

  function Uncached(table: seq<Pointcut>, run: seq<Event>): seq<seq<Slot>>
    decreases |run|
  {
    if run == [] then [] else [Computed(table, run[0])] + Uncached(NextTable(table, run[0]), run[1..])
  }

  function NextTable(table: seq<Pointcut>, ev: Event): seq<Pointcut> {
    if ev.Registers? then table + [ev.pc] else table
  }

  predicate IsMethodCall(ev: Event) {
    ev.Calls? && ev.ex.this_.Some?
  }

  // ------------------------------------------------ what method entries hold

  /** The call that filled an entry of a method cache, and at which version. */
  datatype Filler = Filler(ex: Exec, version: nat)

  /** The fillers by object handle and method name. */
  type Fillers = map<(nat, string), Filler>

  function EntryKey(ex: Exec): (nat, string)
    requires ex.this_.Some?
  {
    (ex.this_.value.handle, ex.callee.name)
  }

  /** The entry was filled at this version, for a method of the same class. */
  predicate Serves(fillers: Fillers, version: nat, ex: Exec)
    requires ex.this_.Some?
  {
    && EntryKey(ex) in fillers
    && fillers[EntryKey(ex)].version == version
    && fillers[EntryKey(ex)].ex.callee.scope == ex.callee.scope
  }

  /** The call for which the advice was computed that a call gets. */
  function Server(fillers: Fillers, version: nat, ex: Exec): Exec
    requires ex.this_.Some?
  {
    if Serves(fillers, version, ex) then fillers[EntryKey(ex)].ex else ex
  }

  function Refilled(fillers: Fillers, version: nat, ex: Exec): Fillers
    requires ex.this_.Some?
  {
    if Serves(fillers, version, ex) then fillers else fillers[EntryKey(ex) := Filler(ex, version)]
  }

  function NextFillers(table: seq<Pointcut>, fillers: Fillers, ev: Event): Fillers {
    if IsMethodCall(ev) then Refilled(fillers, |table|, ev.ex) else fillers
  }

  /** What an event delivers: a method call what was computed for its server, any other event a fresh answer. */
  function Answer(table: seq<Pointcut>, fillers: Fillers, ev: Event): seq<Slot> {
    if IsMethodCall(ev) then FunctionPointcuts(table, Server(fillers, |table|, ev.ex)) else Computed(table, ev)
  }

  function Answers(table: seq<Pointcut>, fillers: Fillers, run: seq<Event>): (r: seq<seq<Slot>>)
    ensures |r| == |run|
    decreases |run|
  {
    if run == [] then []
    else
      [Answer(table, fillers, run[0])]
      + Answers(NextTable(table, run[0]), NextFillers(table, fillers, run[0]), run[1..])
  }

  // ----------------------------------------------------------- declarations

  /** No colon in a name, so that `::` only ever joins a class and a method, and no NUL,
      at which the formatted key would end. */
  predicate PlainName(s: string) {
    ':' !in s && '\0' !in s
  }

  predicate PlainCallee(f: Callee) {
    PlainName(f.name) && (f.scope.Some? ==> PlainName(f.scope.value.name))
  }

  function ScopeName(f: Callee): Option<string> {
    if f.scope.Some? then Some(f.scope.value.name) else None
  }

  predicate SameName(f: Callee, g: Callee) {
    f.name == g.name && ScopeName(f) == ScopeName(g)
  }

  predicate SameHandle(a: Exec, b: Exec) {
    a.this_.Some? && b.this_.Some? && a.this_.value.handle == b.this_.value.handle
  }

  /** Of the calls in `calls`, those to one name in one class are to one
      function, and only static methods and functions lack an object. */
  ghost predicate DeclaredOnce(calls: set<Exec>) {
    && (forall a, b :: a in calls && b in calls && SameName(a.callee, b.callee) ==> a.callee == b.callee)
    && (forall a :: a in calls && a.this_.None? ==> PlainCallee(a.callee))
    && (forall a :: a in calls && a.this_.None? ==> (a.callee.access.isStatic <==> a.callee.scope.Some?))
  }

  /** No handle belongs to objects of two classes. */
  ghost predicate HandlesKeepTheirClass(calls: set<Exec>) {
    forall a, b :: a in calls && b in calls && SameHandle(a, b) ==> a.this_ == b.this_
  }

  ghost predicate EntryFor(st: State, e: Entry, ex: Exec)
    requires st.version == |st.table|
  {
    e.version <= st.version && e.slots == FunctionPointcuts(st.table[..e.version], ex)
  }

  ghost predicate FunctionsCoherent(st: State, calls: set<Exec>)
    requires st.version == |st.table|
  {
    forall ex :: ex in calls && ex.this_.None? && FunctionKey(ex.callee) in st.functionCache ==>
      EntryFor(st, st.functionCache[FunctionKey(ex.callee)], ex)
  }

  function CacheOf(st: State, handle: nat): ObjectCache {
    if handle < |st.objectCache| && st.objectCache[handle].Some? then st.objectCache[handle].value else NO_OBJECT_CACHE
  }

  ghost predicate TracksEntry(st: State, fillers: Fillers, h: nat, name: string)
    requires st.version == |st.table|
  {
    var m := CacheOf(st, h).func;
    && (name in m <==> (h, name) in fillers)
    && (name in m ==>
          var f := fillers[(h, name)];
          f.version <= st.version
          && m[name] == Entry(FunctionPointcuts(st.table[..f.version], f.ex), f.version, f.ex.callee.scope))
  }

  /** The method caches hold what their fillers were given. */
  ghost predicate Tracks(st: State, fillers: Fillers)
    requires st.version == |st.table|
  {
    forall h: nat, name: string :: TracksEntry(st, fillers, h, name)
  }

  ghost predicate PropertyEntries(st: State, m: map<string, Entry>, kind: Kind)
    requires st.version == |st.table|
  {
    forall p :: p in m ==>
      m[p].version <= st.version && m[p].cls.Some? &&
      m[p].slots == PropertyPointcuts(st.table[..m[p].version], m[p].cls.value, p, kind)
  }

  ghost predicate PropertiesCoherent(st: State)
    requires st.version == |st.table|
  {
    forall h: nat :: PropertyEntries(st, CacheOf(st, h).read, Read) && PropertyEntries(st, CacheOf(st, h).write, Write)
  }

  /** Every entry is the filter of the table up to its recorded version. */
  ghost predicate Coherent(st: State, calls: set<Exec>, fillers: Fillers) {
    st.version == |st.table| && FunctionsCoherent(st, calls) && Tracks(st, fillers) && PropertiesCoherent(st)
  }

  lemma InitialIsCoherent(calls: set<Exec>)
    ensures Coherent(Initial(), calls, map[])
  {
  }

  lemma RegisterKeepsCoherence(st: State, pc: Pointcut, calls: set<Exec>, fillers: Fillers)
    requires Coherent(st, calls, fillers)
    ensures Coherent(Register(st, pc), calls, fillers)
  {
    hide FunctionPointcuts, PropertyPointcuts;
    var after := Register(st, pc);
    forall v: nat | v <= st.version
      ensures after.table[..v] == st.table[..v]
    {
    }
    forall h: nat
      ensures CacheOf(after, h) == CacheOf(st, h)
    {
    }
    forall h: nat, name: string
      ensures TracksEntry(after, fillers, h, name)
    {
      assert TracksEntry(st, fillers, h, name);
    }
    assert PropertiesCoherent(after) by {
      forall h: nat
        ensures PropertyEntries(after, CacheOf(after, h).read, Read)
        ensures PropertyEntries(after, CacheOf(after, h).write, Write)
      {
        assert PropertyEntries(st, CacheOf(st, h).read, Read);
      }
    }
  }

  lemma ColonTellsStatic(f: Callee)
    requires PlainCallee(f) && (f.access.isStatic <==> f.scope.Some?)
    ensures ':' in FunctionKey(f) <==> f.scope.Some?
  {
    if f.scope.Some? {
      assert FunctionKey(f)[|f.scope.value.name|] == ':';
    }
  }

  /** Plain names are told apart from qualified ones, and these by both parts. */
  lemma KeysAreUnique(f: Callee, g: Callee)
    requires PlainCallee(f) && PlainCallee(g) && FunctionKey(f) == FunctionKey(g)
    requires f.access.isStatic <==> f.scope.Some?
    requires g.access.isStatic <==> g.scope.Some?
    ensures SameName(f, g)
  {
    var k := FunctionKey(f);
    ColonTellsStatic(f);
    ColonTellsStatic(g);
    if f.scope.Some? {
      var c := f.scope.value.name;
      assert k[|c|] == ':';
      var d := g.scope.value.name;
      assert k[|d|] == ':';
      assert forall i :: 0 <= i < |c| ==> k[i] == c[i];
      assert forall i :: 0 <= i < |d| ==> k[i] == d[i];
      assert |c| == |d|;
      assert c == k[..|c|] == d;
      assert f.name == k[|c| + 2..] == g.name;
    }
  }

  lemma FunctionCallIsComputed(st: State, ex: Exec, calls: set<Exec>, fillers: Fillers)
    requires Coherent(st, calls, fillers) && DeclaredOnce(calls) && ex in calls && ex.this_.None?
    ensures LookupFunction(st, ex).1 == FunctionPointcuts(st.table, ex)
    ensures Coherent(LookupFunction(st, ex).0, calls, fillers)
  {
    hide FunctionPointcuts, PropertyPointcuts;
    var after := LookupFunction(st, ex).0;
    assert st.table[..st.version] == st.table;
    assert forall h: nat :: CacheOf(after, h) == CacheOf(st, h);
    forall other | other in calls && other.this_.None? && FunctionKey(other.callee) == FunctionKey(ex.callee)
      ensures other == ex
    {
      KeysAreUnique(other.callee, ex.callee);
    }
    TracksUnchanged(st, after, fillers);
    PropertiesUnchanged(st, after);
  }

  lemma TracksUnchanged(st: State, after: State, fillers: Fillers)
    requires st.version == |st.table| && Tracks(st, fillers)
    requires after.table == st.table && after.version == st.version
    requires forall h: nat :: CacheOf(after, h).func == CacheOf(st, h).func
    ensures Tracks(after, fillers)
  {
    forall h: nat, name: string
      ensures TracksEntry(after, fillers, h, name)
    {
      assert TracksEntry(st, fillers, h, name);
    }
  }

  lemma PropertiesUnchanged(st: State, after: State)
    requires st.version == |st.table| && PropertiesCoherent(st)
    requires after.table == st.table && after.version == st.version
    requires forall h: nat :: CacheOf(after, h).read == CacheOf(st, h).read
    requires forall h: nat :: CacheOf(after, h).write == CacheOf(st, h).write
    ensures PropertiesCoherent(after)
  {
    forall h: nat
      ensures PropertyEntries(after, CacheOf(after, h).read, Read)
      ensures PropertyEntries(after, CacheOf(after, h).write, Write)
    {
      assert PropertyEntries(st, CacheOf(st, h).read, Read);
    }
  }

  /** A method call gets what was computed for its server, and becomes the server of the calls
      after it where it found no entry of its version and declaring class. */
  lemma MethodCallIsServed(st: State, ex: Exec, calls: set<Exec>, fillers: Fillers)
    requires Coherent(st, calls, fillers) && ex.this_.Some?
    ensures LookupFunction(st, ex).1 == FunctionPointcuts(st.table, Server(fillers, st.version, ex))
    ensures Coherent(LookupFunction(st, ex).0, calls, Refilled(fillers, st.version, ex))
  {
    hide FunctionPointcuts, PropertyPointcuts;
    var after, refilled := LookupFunction(st, ex).0, Refilled(fillers, st.version, ex);
    var handle := ex.this_.value.handle;
    assert st.table[..st.version] == st.table;
    assert CacheOf(st, handle) == WithHandle(st.objectCache, handle)[handle].value;
    assert TracksEntry(st, fillers, handle, ex.callee.name);
    OtherCachesStay(st, after, handle);
    PropertiesUnchanged(st, after);
    forall h: nat, name: string
      ensures TracksEntry(after, refilled, h, name)
    {
      assert TracksEntry(st, fillers, h, name);
    }
  }

  lemma OtherCachesStay(st: State, after: State, handle: nat)
    requires exists cache :: after.objectCache == WithHandle(st.objectCache, handle)[handle := Some(cache)]
    ensures forall h: nat :: h != handle ==> CacheOf(after, h) == CacheOf(st, h)
  {
  }

  /** A property lookup compares the object's own class, so a handle may come
      back with another one. */
  lemma PropertyIsComputed(st: State, obj: Object, member: string, reading: bool, calls: set<Exec>, fillers: Fillers)
    requires Coherent(st, calls, fillers)
    ensures LookupProperty(st, obj, member, reading).1 ==
            PropertyPointcuts(st.table, obj.cls, member, if reading then Read else Write)
    ensures Coherent(LookupProperty(st, obj, member, reading).0, calls, fillers)
  {
    hide PropertyPointcuts, FunctionPointcuts;
    var after := LookupProperty(st, obj, member, reading).0;
    var handle := obj.handle;
    assert st.table[..st.version] == st.table;
    assert CacheOf(st, handle) == WithHandle(st.objectCache, handle)[handle].value;
    assert PropertyEntries(st, CacheOf(st, handle).read, Read);
    OtherCachesStay(st, after, handle);
    assert PropertyEntries(after, CacheOf(after, handle).read, Read);
    assert PropertyEntries(after, CacheOf(after, handle).write, Write);
    assert forall h: nat :: CacheOf(after, h).func == CacheOf(st, h).func;
    hide LookupProperty, CacheOf;
    TracksUnchanged(st, after, fillers);
    forall h: nat
      ensures PropertyEntries(after, CacheOf(after, h).read, Read)
      ensures PropertyEntries(after, CacheOf(after, h).write, Write)
    {
      if h != handle {
        assert PropertyEntries(st, CacheOf(st, h).read, Read);
      }
    }
  }

  ghost predicate CallsOf(run: seq<Event>, calls: set<Exec>) {
    forall i :: 0 <= i < |run| && run[i].Calls? ==> run[i].ex in calls
  }

  /** The calls of a run that go to no object are among these. */
  ghost predicate ObjectlessCallsOf(run: seq<Event>, calls: set<Exec>) {
    forall i :: 0 <= i < |run| && run[i].Calls? && run[i].ex.this_.None? ==> run[i].ex in calls
  }

  lemma StepDelivers(st: State, ev: Event, calls: set<Exec>, fillers: Fillers)
    requires Coherent(st, calls, fillers) && DeclaredOnce(calls)
    requires ev.Calls? && ev.ex.this_.None? ==> ev.ex in calls
    ensures Step(st, ev).1 == Answer(st.table, fillers, ev)
    ensures Step(st, ev).0.table == NextTable(st.table, ev)
    ensures Coherent(Step(st, ev).0, calls, NextFillers(st.table, fillers, ev))
  {
    match ev {
      case Registers(pc) => RegisterKeepsCoherence(st, pc, calls, fillers);
      case Calls(ex) =>
        if ex.this_.None? {
          FunctionCallIsComputed(st, ex, calls, fillers);
        } else {
          MethodCallIsServed(st, ex, calls, fillers);
        }
      case Reads(obj, member) => PropertyIsComputed(st, obj, member, true, calls, fillers);
      case Writes(obj, member) => PropertyIsComputed(st, obj, member, false, calls, fillers);
    }
  }

  /** From every coherent state, every run delivers what the run alone determines. */
  lemma {:induction false} CoherentRun(st: State, run: seq<Event>, calls: set<Exec>, fillers: Fillers)
    requires Coherent(st, calls, fillers) && ObjectlessCallsOf(run, calls) && DeclaredOnce(calls)
    ensures Observed(st, run) == Answers(st.table, fillers, run)
    decreases |run|
  {
    hide Step, Answer, NextTable, NextFillers, Coherent, DeclaredOnce;
    if run != [] {
      StepDelivers(st, run[0], calls, fillers);
      CoherentRun(Step(st, run[0]).0, run[1..], calls, NextFillers(st.table, fillers, run[0]));
    }
  }

  lemma {:induction false} OtherAnswersAreFresh(table: seq<Pointcut>, fillers: Fillers, run: seq<Event>)
    ensures |Uncached(table, run)| == |run|
    ensures forall i :: 0 <= i < |run| && !IsMethodCall(run[i]) ==>
              Answers(table, fillers, run)[i] == Uncached(table, run)[i]
    decreases |run|
  {
    hide FunctionPointcuts, PropertyPointcuts;
    if run != [] {
      var table', fillers' := NextTable(table, run[0]), NextFillers(table, fillers, run[0]);
      OtherAnswersAreFresh(table', fillers', run[1..]);
      forall i | 0 <= i < |run| && !IsMethodCall(run[i])
        ensures Answers(table, fillers, run)[i] == Uncached(table, run)[i]
      {
        if i > 0 {
          assert run[1..][i - 1] == run[i];
        }
      }
    }
  }

  /** Cache coherence over every run: whatever is registered, called, read and written, in
      whatever order, and whatever happens to object handles, each registration, each call of a
      function or static method and each property access delivers what a fresh computation over
      the pointcuts registered so far would. */
  lemma CachesAreInvisibleButToMethods(run: seq<Event>, calls: set<Exec>)
    requires ObjectlessCallsOf(run, calls) && DeclaredOnce(calls)
    ensures |Observed(Initial(), run)| == |Uncached([], run)| == |run|
    ensures forall i :: 0 <= i < |run| && !IsMethodCall(run[i]) ==>
              Observed(Initial(), run)[i] == Uncached([], run)[i]
  {
    InitialIsCoherent(calls);
    CoherentRun(Initial(), run, calls, map[]);
    OtherAnswersAreFresh([], map[], run);
  }

  // ---------------------------------------------------------- reused handles

  /** The advice a table delivers, in order; dead slots deliver nothing. */
  function Advice(slots: seq<Slot>): seq<Pointcut> {
    if slots == [] then []
    else
      var last := slots[|slots| - 1];
      Advice(slots[..|slots| - 1]) + if last.Live? then [last.pc] else []
  }

  /** The registered pointcuts that advise a call, in order. */
  function Advising(table: seq<Pointcut>, ex: Exec): seq<Pointcut> {
    if table == [] then []
    else
      var last := table[|table| - 1];
      Advising(table[..|table| - 1], ex) + if Advises(last, ex) then [last] else []
  }

  lemma {:induction false} AdviceIsAdvising(table: seq<Pointcut>, ex: Exec)
    ensures Advice(FunctionPointcuts(table, ex)) == Advising(table, ex)
  {
    hide MatchesClass, MatchesCallee;
    if table != [] {
      var init, last := table[..|table| - 1], table[|table| - 1];
      AdviceIsAdvising(init, ex);
      var before, after := FunctionPointcuts(init, ex), FunctionPointcuts(table, ex);
      if last.kinds * {Function, Method} != {} && FitsClass(last, ClassOf(ex)) {
        assert after[..|after| - 1] == before;
        assert after[|after| - 1] == if MatchesCallee(last, ex.callee) then Live(last) else Tombstone;
      } else {
        assert after == before;
      }
    }
  }

  lemma {:induction false} AdvisingAre(table: seq<Pointcut>, ex: Exec)
    ensures forall pc :: pc in Advising(table, ex) <==> pc in table && Advises(pc, ex)
  {
    hide Advises;
    if table != [] {
      AdvisingAre(table[..|table| - 1], ex);
      assert table == table[..|table| - 1] + [table[|table| - 1]];
    }
  }

  lemma {:induction false} SameAdviceSameAdvising(table: seq<Pointcut>, a: Exec, b: Exec)
    requires forall pc :: pc in table ==> (Advises(pc, a) <==> Advises(pc, b))
    ensures Advising(table, a) == Advising(table, b)
  {
    hide Advises;
    if table != [] {
      assert table[|table| - 1] in table && forall pc :: pc in table[..|table| - 1] ==> pc in table;
      SameAdviceSameAdvising(table[..|table| - 1], a, b);
    }
  }

  /** Of the registered pointcuts that fit the callee, each fits both classes or neither. */
  predicate FitAlike(table: seq<Pointcut>, callee: Callee, c: Option<Class>, d: Option<Class>) {
    forall pc :: pc in table && pc.kinds * {Function, Method} != {} && MatchesCallee(pc, callee) ==>
      (FitsClass(pc, c) <==> FitsClass(pc, d))
  }

  /** Two calls of one function get the same advice exactly when the pointcuts fit their classes alike. */
  lemma SameAdviceIff(table: seq<Pointcut>, a: Exec, b: Exec)
    requires a.callee == b.callee
    ensures Advice(FunctionPointcuts(table, a)) == Advice(FunctionPointcuts(table, b))
       <==> FitAlike(table, b.callee, ClassOf(a), ClassOf(b))
  {
    hide FunctionPointcuts, MatchesCallee, FitsClass;
    AdviceIsAdvising(table, a);
    AdviceIsAdvising(table, b);
    AdvisingAre(table, a);
    AdvisingAre(table, b);
    if FitAlike(table, b.callee, ClassOf(a), ClassOf(b)) {
      SameAdviceSameAdvising(table, a, b);
    }
  }

  /** A method call is served by a call whose class its pointcuts cannot tell from its own. */
  predicate Fits(table: seq<Pointcut>, fillers: Fillers, ev: Event) {
    IsMethodCall(ev) ==>
      FitAlike(table, ev.ex.callee, ClassOf(Server(fillers, |table|, ev.ex)), ClassOf(ev.ex))
  }

  /** Event by event, as a run goes on. */
  function FitRun(table: seq<Pointcut>, fillers: Fillers, run: seq<Event>): (r: seq<bool>)
    ensures |r| == |run|
    decreases |run|
  {
    if run == [] then []
    else
      [Fits(table, fillers, run[0])] + FitRun(NextTable(table, run[0]), NextFillers(table, fillers, run[0]), run[1..])
  }

  /** The fillers are among these calls. */
  ghost predicate FilledFrom(fillers: Fillers, calls: set<Exec>) {
    forall k :: k in fillers ==>
      fillers[k].ex in calls && fillers[k].ex.this_.Some? && EntryKey(fillers[k].ex) == k
  }

  lemma ServerHasTheCallee(fillers: Fillers, version: nat, ex: Exec, calls: set<Exec>)
    requires FilledFrom(fillers, calls) && DeclaredOnce(calls) && ex in calls && ex.this_.Some?
    ensures Server(fillers, version, ex) in calls && SameHandle(Server(fillers, version, ex), ex)
    ensures Server(fillers, version, ex).callee == ex.callee
    ensures FilledFrom(Refilled(fillers, version, ex), calls)
  {
    var server := Server(fillers, version, ex);
    assert SameName(server.callee, ex.callee);
  }

  lemma {:induction false} AnswersAreFreshIff(table: seq<Pointcut>, fillers: Fillers, run: seq<Event>, calls: set<Exec>)
    requires FilledFrom(fillers, calls) && CallsOf(run, calls) && DeclaredOnce(calls)
    ensures |Uncached(table, run)| == |run|
    ensures forall i :: 0 <= i < |run| ==>
              (Advice(Answers(table, fillers, run)[i]) == Advice(Uncached(table, run)[i])
               <==> FitRun(table, fillers, run)[i])
    decreases |run|
  {
    hide FunctionPointcuts, PropertyPointcuts, FitAlike, DeclaredOnce, FilledFrom, Advice, Server, Refilled;
    if run != [] {
      if IsMethodCall(run[0]) {
        ServerHasTheCallee(fillers, |table|, run[0].ex, calls);
        SameAdviceIff(table, Server(fillers, |table|, run[0].ex), run[0].ex);
      }
      var table', fillers' := NextTable(table, run[0]), NextFillers(table, fillers, run[0]);
      AnswersAreFreshIff(table', fillers', run[1..], calls);
      hide Answer, Computed, Fits, NextTable, NextFillers;
      assert Answers(table, fillers, run)[1..] == Answers(table', fillers', run[1..]);
      assert Uncached(table, run)[1..] == Uncached(table', run[1..]);
      assert FitRun(table, fillers, run)[1..] == FitRun(table', fillers', run[1..]);
    }
  }

  /** With method calls included: over every run, an event delivers the advice a fresh computation
      would exactly when it is no method call, or when every registered pointcut that fits the
      method fits both the class of the object and the class of the call that filled the entry,
      or neither. */
  lemma AdviceIsFreshIff(run: seq<Event>, calls: set<Exec>)
    requires CallsOf(run, calls) && DeclaredOnce(calls)
    ensures |Observed(Initial(), run)| == |Uncached([], run)| == |run|
    ensures forall i :: 0 <= i < |run| ==>
              (Advice(Observed(Initial(), run)[i]) == Advice(Uncached([], run)[i]) <==> FitRun([], map[], run)[i])
  {
    InitialIsCoherent(calls);
    CoherentRun(Initial(), run, calls, map[]);
    AnswersAreFreshIff([], map[], run, calls);
  }

  lemma {:induction false} KeptHandlesAnswer(table: seq<Pointcut>, fillers: Fillers, run: seq<Event>, calls: set<Exec>)
    requires FilledFrom(fillers, calls) && CallsOf(run, calls)
    requires DeclaredOnce(calls) && HandlesKeepTheirClass(calls)
    ensures Answers(table, fillers, run) == Uncached(table, run)
    decreases |run|
  {
    hide FunctionPointcuts, PropertyPointcuts, DeclaredOnce, FilledFrom, Server, Refilled;
    if run != [] {
      if IsMethodCall(run[0]) {
        ServerHasTheCallee(fillers, |table|, run[0].ex, calls);
        assert Server(fillers, |table|, run[0].ex) == run[0].ex;
      }
      KeptHandlesAnswer(NextTable(table, run[0]), NextFillers(table, fillers, run[0]), run[1..], calls);
    }
  }

  /** While every handle keeps its class, the caches are invisible to all events, slot by slot. */
  lemma CachesAreInvisible(run: seq<Event>, calls: set<Exec>)
    requires CallsOf(run, calls) && DeclaredOnce(calls) && HandlesKeepTheirClass(calls)
    ensures Observed(Initial(), run) == Uncached([], run)
  {
    InitialIsCoherent(calls);
    CoherentRun(Initial(), run, calls, map[]);
    KeptHandlesAnswer([], map[], run, calls);
  }

  /** No name of a class, of its interfaces, traits or ancestors holds a line break. */
  ghost predicate PlainLineage(c: Class) {
    '\n' !in c.name && AllPlain(c.interfaces) && AllPlain(c.traits) && AllPlain(c.ancestors)
  }

  ghost predicate AllPlain(names: seq<string>) {
    forall i :: 0 <= i < |names| ==> '\n' !in names[i]
  }

  /** The pattern denotes one of these names. */
  predicate DenotesOne(p: string, names: seq<string>)
    requires AopGlob.Label(p)
  {
    exists i :: 0 <= i < |names| && AopGlob.GlobMatches(p, names[i])
  }

  /** The pattern denotes the class, an interface or a trait of it, or, in builds that try them, an
      ancestor. */
  predicate DenotesClass(p: string, c: Class, triesAncestors: bool)
    requires AopGlob.Label(p)
  {
    || AopGlob.GlobMatches(p, c.name)
    || DenotesOne(p, c.interfaces)
    || DenotesOne(p, c.traits)
    || (triesAncestors && DenotesOne(p, c.ancestors))
  }

  lemma DenotedInEither(p: string, a: seq<string>, b: seq<string>)
    requires AopGlob.Label(p)
    ensures DenotesOne(p, a + b) <==> DenotesOne(p, a) || DenotesOne(p, b)
  {
    hide AopGlob.GlobMatches;
    assert forall i :: 0 <= i < |a| ==> (a + b)[i] == a[i];
    assert forall i :: 0 <= i < |b| ==> (a + b)[|a| + i] == b[i];
  }

  lemma LineageIsPlain(c: Class, triesAncestors: bool)
    requires PlainLineage(c)
    ensures AllPlain(Lineage(c, triesAncestors))
  {
  }

  lemma LineageIsDenoted(p: string, c: Class, triesAncestors: bool)
    requires AopGlob.Label(p)
    ensures DenotesOne(p, Lineage(c, triesAncestors)) <==> DenotesClass(p, c, triesAncestors)
  {
    var last := if triesAncestors then c.ancestors else [];
    DenotedInEither(p, [c.name] + c.interfaces + c.traits, last);
    DenotedInEither(p, [c.name] + c.interfaces, c.traits);
    DenotedInEither(p, [c.name], c.interfaces);
    hide AopGlob.GlobMatches;
    assert DenotesOne(p, [c.name]) <==> AopGlob.GlobMatches(p, c.name) by {
      assert [c.name][0] == c.name;
    }
  }

  /** A compiled class pattern fits a class exactly when its glob denotes a name that is tried. */
  lemma ClassPatternIff(pc: Pointcut, p: string, c: Class)
    requires AopGlob.Label(p) && pc.classRegexp == Some(AopGlob.Compile(p)) && PlainLineage(c)
    ensures MatchesClass(pc, c) <==> DenotesClass(p, c, pc.triesAncestors)
  {
    hide AopGlob.PcreMatches, AopGlob.GlobMatches, AopGlob.Compile;
    var names := Lineage(c, pc.triesAncestors);
    LineageIsPlain(c, pc.triesAncestors);
    LineageIsDenoted(p, c, pc.triesAncestors);
    forall i | 0 <= i < |names|
      ensures AopGlob.PcreMatches(pc.classRegexp.value, names[i]) <==> AopGlob.GlobMatches(p, names[i])
    {
      AopGlob.CompiledAcceptsGlob(p, names[i]);
    }
    hide Lineage, DenotesClass;
  }

  predicate NamesOne(p: string, names: seq<string>) {
    exists i :: 0 <= i < |names| && AopGlob.ComparesEqual(p, names[i])
  }

  predicate NamesClass(p: string, c: Class, triesAncestors: bool) {
    || AopGlob.ComparesEqual(p, c.name)
    || NamesOne(p, c.interfaces)
    || NamesOne(p, c.traits)
    || (triesAncestors && NamesOne(p, c.ancestors))
  }

  lemma StarlessNames(p: string, name: string)
    requires AopGlob.Label(p) && '*' !in p && '\n' !in name
    ensures AopGlob.GlobMatches(p, name) <==> AopGlob.ComparesEqual(p, name)
  {
    hide AopGlob.PcreMatches, AopGlob.GlobMatches, AopGlob.Compile, AopGlob.ComparesEqual;
    AopGlob.CompiledAcceptsGlob(p, name);
    AopGlob.DirectComparisonAgrees(p, name);
  }

  lemma StarlessNamesOne(p: string, names: seq<string>)
    requires AopGlob.Label(p) && '*' !in p && AllPlain(names)
    ensures DenotesOne(p, names) <==> NamesOne(p, names)
  {
    hide AopGlob.GlobMatches, AopGlob.ComparesEqual;
    forall i | 0 <= i < |names|
      ensures AopGlob.GlobMatches(p, names[i]) <==> AopGlob.ComparesEqual(p, names[i])
    {
      StarlessNames(p, names[i]);
    }
  }

  /** A class pattern without a star is compared with the names of the class, of its interfaces
      and traits, and, in builds that try them, of its ancestors. */
  lemma StarlessClassPattern(pc: Pointcut, p: string, c: Class)
    requires AopGlob.Label(p) && '*' !in p && pc.classRegexp == Some(AopGlob.Compile(p)) && PlainLineage(c)
    ensures MatchesClass(pc, c) <==> NamesClass(p, c, pc.triesAncestors)
  {
    ClassPatternIff(pc, p, c);
    StarlessNames(p, c.name);
    StarlessNamesOne(p, c.interfaces);
    StarlessNamesOne(p, c.traits);
    StarlessNamesOne(p, c.ancestors);
  }

  lemma PatternTellsApart(sel: Selector, tries: bool, p: string, a: Exec, b: Exec)
    requires sel.Valid() && sel.className == Some(p) && '*' !in p && Method in sel.kinds
    requires a.this_.Some? && b.this_.Some? && a.callee == b.callee && MatchesCallee(Registered(sel, tries), a.callee)
    requires PlainLineage(a.this_.value.cls) && PlainLineage(b.this_.value.cls)
    requires NamesClass(p, a.this_.value.cls, tries) && !NamesClass(p, b.this_.value.cls, tries)
    ensures Advises(Registered(sel, tries), a) && !Advises(Registered(sel, tries), b)
  {
    var pc := Registered(sel, tries);
    StarlessClassPattern(pc, p, a.this_.value.cls);
    StarlessClassPattern(pc, p, b.this_.value.cls);
    hide MatchesClass, MatchesCallee, NamesClass, Registered;
    assert Method in pc.kinds * {Function, Method};
  }

  /** The condition does fail: of two classes that share a handle, the pattern names the one that
      had it first, and its advice is delivered to a call on the other. */
  lemma ReusedHandleCanBeStale(sel: Selector, tries: bool, p: string, a: Exec, b: Exec)
    requires sel.Valid() && sel.className == Some(p) && '*' !in p && Method in sel.kinds
    requires SameHandle(a, b) && a.callee == b.callee && MatchesCallee(Registered(sel, tries), a.callee)
    requires PlainLineage(a.this_.value.cls) && PlainLineage(b.this_.value.cls)
    requires NamesClass(p, a.this_.value.cls, tries) && !NamesClass(p, b.this_.value.cls, tries)
    ensures var run := [Registers(Registered(sel, tries)), Calls(a), Calls(b)];
      |Observed(Initial(), run)| == 3 && Live(Registered(sel, tries)) in Observed(Initial(), run)[2]
    ensures !Advises(Registered(sel, tries), b)
  {
    PatternTellsApart(sel, tries, p, a, b);
    hide MatchesCallee, NamesClass, Registered, PlainLineage, Advises, FunctionPointcuts, DeclaredOnce, Coherent,
      Observed;
    var pc := Registered(sel, tries);
    var run := [Registers(pc), Calls(a), Calls(b)];
    LiveAdviceIff([pc], a, pc);
    InitialIsCoherent({});
    CoherentRun(Initial(), run, {}, map[]);
    ServedByTheFirst(pc, a, b);
  }

  /** The second of two calls on one handle is served by the first. */
  lemma ServedByTheFirst(pc: Pointcut, a: Exec, b: Exec)
    requires SameHandle(a, b) && a.callee == b.callee
    ensures Answers([], map[], [Registers(pc), Calls(a), Calls(b)])[2] == FunctionPointcuts([pc], a)
  {
    hide FunctionPointcuts;
    var run := [Registers(pc), Calls(a), Calls(b)];
    var fillers := Refilled(map[], 1, a);
    assert [] + [pc] == [pc];
    assert run[1..] == [Calls(a), Calls(b)] && run[1..][1..] == [Calls(b)];
    assert Server(fillers, 1, b) == a;
    assert Answers([pc], fillers, [Calls(b)])[0] == FunctionPointcuts([pc], a);
    assert Answers([pc], map[], run[1..])[1] == Answers([pc], fillers, [Calls(b)])[0];
    assert Answers([], map[], run)[2] == Answers([pc], map[], run[1..])[1];
  }

  // ------------------------------------------------- what a selector advises

  /** A static method, or not, as the selector asks for. */
  predicate AsStatic(sel: Selector, isStatic: bool) {
    (sel.staticState == OnlyStatic ==> isStatic) && (sel.staticState == NotStatic ==> !isStatic)
  }

  /** The callee is of the wanted sort, and the member pattern denotes its name. */
  predicate SelectsCallee(sel: Selector, f: Callee)
    requires sel.Valid()
  {
    && AsStatic(sel, f.access.isStatic)
    && (sel.scopes != {} ==> sel.scopes * f.access.visible != {})
    && (sel.className.None? ==> sel.member == "*" || f.scope.None?)
    && ((sel.className.None? && sel.member == "*") || AopGlob.GlobMatches(sel.member, f.name))
  }

  /** The call goes by the class of its object, else by that of a static method, and the class
      pattern denotes it; a call without either needs a selector for functions. */
  predicate SelectsClass(sel: Selector, ex: Exec, triesAncestors: bool)
    requires sel.Valid()
  {
    if ex.this_.Some? then sel.className.Some? && DenotesClass(sel.className.value, ex.this_.value.cls, triesAncestors)
    else if ex.callee.access.isStatic && ex.callee.scope.Some? then
      sel.className.Some? && DenotesClass(sel.className.value, ex.callee.scope.value, triesAncestors)
    else Function in sel.kinds
  }

  ghost predicate NoLineBreaks(ex: Exec) {
    && '\n' !in ex.callee.name
    && (ex.this_.Some? ==> PlainLineage(ex.this_.value.cls))
    && (ex.callee.scope.Some? ==> PlainLineage(ex.callee.scope.value))
  }

  lemma SelectorFitsCalleeIff(sel: Selector, tries: bool, f: Callee)
    requires sel.Valid() && '\n' !in f.name
    ensures MatchesCallee(Registered(sel, tries), f) <==> SelectsCallee(sel, f)
  {
    hide AopGlob.PcreMatches, AopGlob.GlobMatches, AopGlob.Compile, AopGlob.ComparesEqual;
    AopGlob.CompiledAcceptsGlob(sel.member, f.name);
    if '*' !in sel.member {
      AopGlob.DirectComparisonAgrees(sel.member, f.name);
    }
  }

  /** In either build, a registered selector advises exactly the calls that its globs denote. */
  lemma SelectorAdvisesIff(sel: Selector, tries: bool, ex: Exec)
    requires sel.Valid() && NoLineBreaks(ex)
    ensures Advises(Registered(sel, tries), ex) <==>
      sel.kinds * {Function, Method} != {} && SelectsClass(sel, ex, tries) && SelectsCallee(sel, ex.callee)
  {
    hide MatchesCallee, MatchesClass, DenotesClass, SelectsCallee, PlainLineage, AopGlob.Compile;
    SelectorFitsCalleeIff(sel, tries, ex.callee);
    var pc := Registered(sel, tries);
    if ClassOf(ex).Some? && sel.className.Some? {
      ClassPatternIff(pc, sel.className.value, ClassOf(ex).value);
    } else if ClassOf(ex).Some? {
      NoClassPattern(pc, ClassOf(ex).value);
    }
  }

  lemma NoClassPattern(pc: Pointcut, c: Class)
    requires pc.classRegexp == None
    ensures !MatchesClass(pc, c)
  {
  }

  /** The builds differ in just this: where a class pattern denotes an ancestor of the class a call
      goes by, but not the class, an interface or a trait of it, only the older ones advise. */
  lemma OnlyOlderBuildsAdviseByAncestor(sel: Selector, ex: Exec, c: Class)
    requires sel.Valid() && NoLineBreaks(ex)
    requires if ex.this_.Some? then c == ex.this_.value.cls else ex.callee.access.isStatic && ex.callee.scope == Some(c)
    ensures Advises(Registered(sel, false), ex) ==> Advises(Registered(sel, true), ex)
    ensures Advises(Registered(sel, true), ex) && !Advises(Registered(sel, false), ex) <==>
      && sel.kinds * {Function, Method} != {} && SelectsCallee(sel, ex.callee) && sel.className.Some?
      && var p := sel.className.value;
        && DenotesOne(p, c.ancestors)
        && !AopGlob.GlobMatches(p, c.name) && !DenotesOne(p, c.interfaces) && !DenotesOne(p, c.traits)
  {
    hide SelectsCallee, Advises, Registered, DenotesOne, AopGlob.GlobMatches;
    SelectorAdvisesIff(sel, true, ex);
    SelectorAdvisesIff(sel, false, ex);
  }

  // ------------------------------------------------- the same for properties

  /** The property may be reached as the selector asks; one that is not declared counts as public
      and not static. */
  predicate AsDeclared(sel: Selector, c: Class, member: string) {
    if member in c.properties then
      && AsStatic(sel, c.properties[member].isStatic)
      && (sel.scopes != {} ==> sel.scopes * c.properties[member].visible != {})
    else sel.staticState != OnlyStatic && (sel.scopes != {} ==> Public in sel.scopes)
  }

  /** A member pattern for properties: anything if it begins with a star, a prefix if it ends with
      one, else the name itself; case matters. */
  ghost predicate NamesMember(p: string, member: string) {
    || (exists rest :: p == "*" + rest)
    || (exists prefix, rest :: p == prefix + "*" && member == prefix + rest)
    || (p == member && !exists prefix :: p == prefix + "*")
  }

  lemma MemberPatternIff(p: string, member: string)
    ensures (p != "" && p[0] == '*') || MatchesMember(p, member) <==> NamesMember(p, member)
  {
    if p != "" && p[0] == '*' {
      assert p == "*" + p[1..];
    } else if p != "" && p[|p| - 1] == '*' {
      var prefix := p[..|p| - 1];
      assert p == prefix + "*";
      if prefix <= member {
        assert member == prefix + member[|prefix|..];
      }
    }
  }

  lemma SelectorFitsPropertyIff(sel: Selector, tries: bool, c: Class, member: string)
    requires sel.Valid()
    ensures MatchesProperty(Registered(sel, tries), c, member) <==>
            NamesMember(sel.member, member) && AsDeclared(sel, c, member)
  {
    MemberPatternIff(sel.member, member);
    hide MatchesMember, NamesMember, AopGlob.Compile;
  }

  lemma PropertyAdviceIff(table: seq<Pointcut>, c: Class, member: string, kind: Kind, pc: Pointcut)
    ensures Live(pc) in PropertyPointcuts(table, c, member, kind) <==>
            pc in table && kind in pc.kinds && MatchesClass(pc, c) && MatchesProperty(pc, c, member)
  {
    hide MatchesClass, MatchesProperty;
    var candidates := ClassPointcuts(table, Some(c), {kind});
    CandidatesAre(table, Some(c), {kind}, pc);
    assert pc.kinds * {kind} != {} <==> kind in pc.kinds by {
      assert kind in pc.kinds ==> kind in pc.kinds * {kind};
    }
    var slots := PropertyPointcuts(table, c, member, kind);
    if pc in candidates && MatchesProperty(pc, c, member) {
      var i :| 0 <= i < |candidates| && candidates[i] == pc;
      assert slots[i] == Live(pc);
    }
    if Live(pc) in slots {
      var i :| 0 <= i < |slots| && slots[i] == Live(pc);
      assert candidates[i] == pc && MatchesProperty(pc, c, member);
    }
  }

  /** Which advice a property access gets: that of the registered pointcuts for this kind of access
      whose class pattern denotes the object's class and whose member pattern names the property. */
  lemma PropertyAdvisesIff(table: seq<Pointcut>, sel: Selector, tries: bool, c: Class, member: string, kind: Kind)
    requires sel.Valid() && PlainLineage(c)
    ensures Live(Registered(sel, tries)) in PropertyPointcuts(table, c, member, kind) <==>
      && Registered(sel, tries) in table && kind in sel.kinds
      && sel.className.Some? && DenotesClass(sel.className.value, c, tries)
      && NamesMember(sel.member, member) && AsDeclared(sel, c, member)
  {
    var pc := Registered(sel, tries);
    PropertyAdviceIff(table, c, member, kind, pc);
    SelectorFitsPropertyIff(sel, tries, c, member);
    if sel.className.Some? {
      ClassPatternIff(pc, sel.className.value, c);
    } else {
      NoClassPattern(pc, c);
    }
    hide MatchesClass, DenotesClass, PropertyPointcuts, MatchesProperty, NamesMember, AsDeclared, AopGlob.Compile;
  }

  /** The pointcuts that a run has registered. */
  function RegisteredIn(run: seq<Event>): seq<Pointcut> {
    if run == [] then [] else NextTable(RegisteredIn(run[..|run| - 1]), run[|run| - 1])
  }

  lemma {:induction false} RegisteredInBoth(ev: Event, run: seq<Event>)
    ensures RegisteredIn([ev] + run) == NextTable([], ev) + RegisteredIn(run)
  {
    var whole := [ev] + run;
    if run == [] {
      assert whole == [ev] && [ev][..0] == [];
    } else {
      assert whole[..|whole| - 1] == [ev] + run[..|run| - 1];
      RegisteredInBoth(ev, run[..|run| - 1]);
    }
  }

  lemma {:induction false} UncachedAt(table: seq<Pointcut>, run: seq<Event>, i: nat)
    requires i < |run|
    ensures |Uncached(table, run)| == |run|
    ensures Uncached(table, run)[i] == Computed(table + RegisteredIn(run[..i]), run[i])
    decreases |run|
  {
    hide Computed;
    if i == 0 {
      assert table + [] == table;
      if run[1..] != [] {
        UncachedAt(NextTable(table, run[0]), run[1..], 0);
      }
    } else {
      UncachedAt(NextTable(table, run[0]), run[1..], i - 1);
      RegisteredInBoth(run[0], run[1..][..i - 1]);
      assert run[..i] == [run[0]] + run[1..][..i - 1];
      assert NextTable(table, run[0]) + RegisteredIn(run[1..][..i - 1]) == table + RegisteredIn(run[..i]);
    }
  }

  lemma {:induction false} LiveAreAdvice(slots: seq<Slot>, pc: Pointcut)
    ensures Live(pc) in slots <==> pc in Advice(slots)
  {
    if slots != [] {
      LiveAreAdvice(slots[..|slots| - 1], pc);
      assert slots == slots[..|slots| - 1] + [slots[|slots| - 1]];
    }
  }

  /** The live advice that a call gets in a run, where its server fits: the pointcuts registered
      before it that advise it. */
  lemma DeliveredIff(run: seq<Event>, calls: set<Exec>, i: nat, pc: Pointcut)
    requires CallsOf(run, calls) && DeclaredOnce(calls)
    requires i < |run| && run[i].Calls? && FitRun([], map[], run)[i]
    ensures |Observed(Initial(), run)| == |run|
    ensures Live(pc) in Observed(Initial(), run)[i] <==> pc in RegisteredIn(run[..i]) && Advises(pc, run[i].ex)
  {
    hide Observed, Uncached, Advises, FunctionPointcuts, Advice, FitRun, CallsOf, DeclaredOnce;
    AdviceIsFreshIff(run, calls);
    UncachedAt([], run, i);
    assert [] + RegisteredIn(run[..i]) == RegisteredIn(run[..i]);
    LiveAreAdvice(Observed(Initial(), run)[i], pc);
    LiveAreAdvice(FunctionPointcuts(RegisteredIn(run[..i]), run[i].ex), pc);
    LiveAdviceIff(RegisteredIn(run[..i]), run[i].ex, pc);
  }

  /** What a property access delivers in a run, whatever the caches hold: the pointcuts registered
      before it for this kind of access, of a class pattern that denotes the class of the object
      and a member pattern that names the property. */
  lemma PropertyDeliveredIff(run: seq<Event>, calls: set<Exec>, i: nat, sel: Selector, tries: bool, obj: Object,
                             member: string)
    requires ObjectlessCallsOf(run, calls) && DeclaredOnce(calls)
    requires i < |run| && run[i] in {Reads(obj, member), Writes(obj, member)}
    requires sel.Valid() && PlainLineage(obj.cls)
    ensures |Observed(Initial(), run)| == |run|
    ensures Live(Registered(sel, tries)) in Observed(Initial(), run)[i] <==>
      && Registered(sel, tries) in RegisteredIn(run[..i])
      && (if run[i].Reads? then Read else Write) in sel.kinds
      && sel.className.Some? && DenotesClass(sel.className.value, obj.cls, tries)
      && NamesMember(sel.member, member) && AsDeclared(sel, obj.cls, member)
  {
    hide Observed, Uncached, Registered, DenotesClass, NamesMember, AsDeclared, PropertyPointcuts, DeclaredOnce,
      PlainLineage, ObjectlessCallsOf;
    CachesAreInvisibleButToMethods(run, calls);
    UncachedAt([], run, i);
    assert [] + RegisteredIn(run[..i]) == RegisteredIn(run[..i]);
    PropertyAdvisesIff(RegisteredIn(run[..i]), sel, tries, obj.cls, member, if run[i].Reads? then Read else Write);
  }
}
