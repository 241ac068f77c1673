# A verified model of nine parts of a PHP framework extension

The repository is a PHP extension written in C. This project models the parts of it that hold
real algorithms or real state, in Dafny, and proves what they are for. Code that changes things
step by step is modelled step by step: objects are classes whose methods change their fields,
buffers are arrays, loops are loops. Each such method is proved equal to a function that says
what it computes, and the theorems are about those functions. `dafny verify dfyconfig.toml`
checks everything.

| file | part | main results |
|---|---|---|
| `AopGlob.dfy` | compiling pointcut names to regular expressions (`ext/aop.c`) | six chained text replacements are a token-by-token translation, for every name; the compiled expression accepts exactly what the glob denotes |
| `AopCache.dfy` | matching pointcuts and remembering the matches (`ext/aop.c`) | over every run, cached lookups give what a fresh computation would, for method calls under an exact condition |
| `AopWeaver.dfy`, `AopOrder.dfy` | running advice around a call (`ext/aop.c`) | the re-entrancy flag is balanced over all call trees; weaving order; which advice runs, kind by kind; the first exception wins |
| `AopCalls.dfy` | from registration to execution (`ext/aop.c`) | the advice that runs around a call is the registered advice whose globs fit it |
| `Container.dfy`, `Dispatcher.dfy`, `DispatchLoop.dfy`, `DispatchProtocol.dfy`, `DispatchTrace.dfy`, `DispatchNames.dfy` | the dispatch loop and the shared instances it relies on (`ext/dispatcher.c`, `ext/di.c`) | every dispatch keeps to one protocol of calls into user code; no stale action exactly with an events manager; at most 255 actions; `initialize` at most once, and once more for each time the instance is lost; which class and action a round calls |
| `ArrGroup.dfy`, `ArrClasses.dfy`, `ArrAggregate.dfy` | grouping and aggregating rows (`ext/arr.c`) | repeated splitting is grouping by the whole tuple; two rows stand in one group exactly when they agree; one pass computes independent folds; counts and sums are conserved |
| `Base64Url.dfy`, `Base64Laws.dfy`, `Jwt.dfy`, `JwtOutcomes.dfy`, `Ecdsa.dfy` | token encoding (`ext/jwt.c`) | base64url and token round trips; the number that base64url writes; which tokens are accepted and what all others are refused for; R and S packing is a bijection |
| `Crypt.dfy` | block padding (`ext/crypt.c`) | unpadding undoes padding exactly when the count can be read back, and padding undoes unpadding |
| `Matrix.dfy` | integer matrices (`ext/matrix.c`) | the stride loops compute the product, element by element; associativity; the identity; transposes |
| `Config.dfy` | configuration trees (`ext/config.c`) | merging in place is the recursive merge, with the exact condition; a second merge changes nothing |
| `Image.dfy` | repeating a string (`ext/image.c`) | doubling copies give the repeated string |
| `Text.dfy`, `Arithmetic.dfy` | shared vocabulary: options, bytes, C strings, replacement, remainders | |

## How to read it

User code (advice, listeners, handlers) is arbitrary. In the weaver it is a finite tree of calls
with a throwing behaviour at every point; in the dispatcher it is a script, a function that gives
the reaction to the n-th call into user code: which operations it performs on the dispatcher and
the container, and whether it returns false, returns something else or throws. Theorems quantify
over all of these. Libraries (JSON, message digests, public-key signatures) are function
parameters.

Some promises do not hold of the code on all inputs. Each time the code is kept as it is, an
example shows the failure, and a lemma states exactly when the promise is met, or by how much it
can be missed:

* A plain left-to-right reading of a glob (longest run of stars first) differs from the six
  replacements exactly when an odd run of three or more stars stands directly before a
  separator: in `***\` the replacements find `**\` first (`AopGlob.SixPassesAreGreedyIff`,
  `AopGlob.OddRunChangesMeaning`).
* The method cache compares the class that declares a method, not the class of the object. When
  an object handle comes back with another class, a method call may get the advice of the call
  that filled the entry. Over every run, the advice it gets is right exactly when each registered
  pointcut that fits the method fits both classes or neither (`AopCache.AdviceIsFreshIff`,
  `AopCache.ReusedHandleCanBeStale`). Functions, static methods and properties are never affected
  (`AopCache.CachesAreInvisibleButToMethods`).
* From PHP 7.3 on the loop over ancestors passes no match data to PCRE2, which then reports an
  error, so a class pattern that denotes only an ancestor of the object's class advises nothing;
  in older builds it does. The theorems hold for both builds, and the calls on which the two
  differ are exactly those (`AopCache.SelectorAdvisesIff`,
  `AopCache.OnlyOlderBuildsAdviseByAncestor`).
* Without an events manager `initialize` can forward and the abandoned action is still called
  (`Dispatcher.UnmanagedDispatchHasStaleAction`, `Dispatcher.NeverStaleIffManaged`). It is not
  called where loading, making and initializing the handlers leaves the dispatcher finished
  (`Dispatcher.CalmDispatchHasNoStaleAction`).
* A class is initialized again when it has been registered anew as shared, or when the dispatcher
  goes on with a clone of its container, which holds no instances; cloning by itself leaves the
  container in use as it is. The number of initializations is bounded by how often its instance
  was lost so, plus one, and the bound is met for every number
  (`Dispatcher.InitializationsAreBounded`, `Dispatcher.EveryDropInitializesAgain`).
* AVG divides by the number of rows, not by the number of rows that carry the column
  (`ArrAggregate.MeanIsOfColumnIff`).
* Padding lengths of 128 and more are read back through a signed character
  (`Crypt.RoundTripsIff`), and zero and space padding lose texts that end in the padding byte
  (`Crypt.BlankRoundTripsIff`).
* `transpose` of a matrix without columns is no matrix (`Matrix.TransposeTwiceIff`,
  `Matrix.TransposeOfProductIff`).
* `Config::merge` stores an array under a new key as an array, so a second merge replaces it
  (`ConfigTree.MergeIsDeepIff`, `ConfigTree.SecondMergeLoses`).

## Model

| member | source | states |
|---|---|---|
| AopCache.MakeRegexp | ext/aop.c:1197-1303 | the buffer rewritten six times, with one leading separator dropped, is the compiled expression, and PCRE accepts a name with it exactly when the glob does |
| AopGlob.LabelIs | ext/aop/lexer.re:50 | a name is letters, digits, underscores, bytes from 7f on, separators and stars |
| AopGlob.TokensAreWellFormed | ext/aop.c:1213-1242 | a scanned name is its tokens spelled out: nothing is lost, literals are identifier characters, and no lone star is followed by a star |
| AopGlob.SixPassesTranslateTokens | ext/aop.c:1213-1242 | for every name, the six replacements, each scanning the output of the one before, give the translation of each token by itself |
| AopGlob.ParseRendered | ext/aop.c:1213-1242 | the rewritten text parses, as a regular expression, to the expression of the tokens in their order, so no replacement leaves a character PCRE reads otherwise |
| AopGlob.RegexDenotesTokens | ext/aop.c:1213-1242 | that expression matches the names the tokens denote: `*` any run without a separator, `**` anything, `**\` nothing or anything ending in a separator, case ignored |
| AopGlob.CompiledAcceptsGlob | ext/aop.c:1195-1303 | for every name without a line break, the anchored case-insensitive expression accepts it exactly when the glob, less one leading separator, denotes it |
| AopGlob.GreedyAgreesIff | ext/aop.c:1213-1220 | reading the longest star first gives the same tokens exactly when no odd run of three or more stars stands before a separator |
| AopGlob.SixPassesAreGreedyIff | ext/aop.c:1213-1242 | the replacements are the greedy translation exactly for the names without such a run |
| AopGlob.OddRunChangesMeaning | ext/aop.c:1213-1220 | such a run changes what a name denotes: `***\` accepts `a` as compiled but not as read greedily |
| AopGlob.RenderIsInjective | ext/aop.c:1213-1242 | different token sequences are never rewritten to the same expression |
| AopGlob.DirectComparisonAgrees | ext/aop.c:310-318 | for names without a star the direct comparison, leading separator dropped and case ignored, accepts what the compiled expression accepts |
| AopCache.LiveAdviceIff | ext/aop.c:237-356 | the live slots of a call's table are exactly the registered pointcuts for functions or methods that fit both its class and its callee |
| AopCache.Aop.AddPointcut | ext/aop.c:1356-1434 | registering appends one pointcut with its compiled expressions and raises the version by one; nothing already registered changes |
| AopCache.Aop.GetObjectCache | ext/aop.c:424-446 | the cache table grows to hold the handle, and the handle has a cache; all others are kept |
| AopCache.Aop.GetCacheFunc | ext/aop.c:481-543 | the lookup delivers the entry of the current version (and class, with an object), else a fresh table that replaces it |
| AopCache.Aop.GetCacheProperty | ext/aop.c:545-587 | the same for a property, by the object's own class, separately for reading and writing |
| AopCache.WithHandle | ext/aop.c:424-446 | a new slot is empty, an old one keeps its cache, and no other handle is affected |
| AopCache.RegisterKeepsCoherence | ext/aop.c:1431-1433 | after a registration every remembered entry is still the filter of the table up to its recorded version, for the call or the class it was filled for |
| AopCache.KeysAreUnique | ext/aop.c:499-507 | two names without colons share a cache key only if they are the same name in the same class: qualified and plain keys never collide |
| AopCache.FunctionCallIsComputed | ext/aop.c:481-543 | a call without an object gets what a fresh computation gives, and coherence is kept, whatever the method caches hold |
| AopCache.MethodCallIsServed | ext/aop.c:508-543 | a call on an object gets what was computed for its server: the call that filled the entry of its handle and name, if at this version and for a method of the same class, else itself, and then it is the one that fills it |
| AopCache.PropertyIsComputed | ext/aop.c:545-587 | a property access gets what a fresh computation gives even if its handle belonged to another class, and coherence is kept |
| AopCache.CoherentRun | ext/aop.c:481-587 | from any coherent state every run of registrations, calls, reads and writes delivers what the run alone determines: method calls what was computed for their servers, all else fresh answers |
| AopCache.CachesAreInvisibleButToMethods | ext/aop.c:322-587 | over every run from module start, whatever methods are called and whatever happens to handles, each call of a function or static method and each property access delivers what a fresh computation over the pointcuts registered so far would |
| AopCache.SameAdviceIff | ext/aop.c:237-356 | two calls of one function get the same advice exactly when every registered pointcut that fits the function fits both their classes or neither |
| AopCache.AdviceIsFreshIff | ext/aop.c:481-587 | over every run, an event delivers fresh advice exactly when it is no method call, or when every registered pointcut that fits the method fits the class of the object and the class of the call that filled the entry alike |
| AopCache.CachesAreInvisible | ext/aop.c:322-587 | while every handle keeps its class, a run delivers the fresh tables for its method calls too, slot by slot |
| AopCache.ClassPatternIff | ext/aop.c:148-235 | a class pattern fits a class exactly when its glob denotes the name of the class, of an interface or of a trait of it, or, in builds before PHP 7.3, of an ancestor |
| AopCache.StarlessClassPattern | ext/aop.c:148-235 | without a star these names are compared with the pattern directly |
| AopCache.ReusedHandleCanBeStale | ext/aop.c:508-523 | the condition does fail: where a pattern names the class that had the handle first and not the one that has it now, a call on the second gets live advice that does not advise it |
| AopCache.SelectorFitsCalleeIff | ext/aop.c:266-320 | a selector fits a function or method exactly when its static state, one of its scopes and its member glob do, and without a class only functions, or all with a lone star |
| AopCache.SelectorAdvisesIff | ext/aop.c:148-356 | in either build, a registered selector advises exactly the calls whose function it fits, on an object or by a static method of a class whose name, interfaces, traits, or, where tried, ancestors its class glob denotes, and else as a selector for functions |
| AopCache.OnlyOlderBuildsAdviseByAncestor | ext/aop.c:213-226 | the builds differ exactly where a class glob denotes an ancestor and no other name of the class: only builds before PHP 7.3 advise the call |
| AopCache.DeliveredIff | ext/aop.c:322-543 | in a run, the live advice a call gets from a fitting server is exactly the pointcuts registered before it that advise it |
| AopCache.PropertyAdvisesIff | ext/aop.c:359-420 | a property access gets exactly the registered pointcuts for its kind whose class glob denotes the class of the object, whose member pattern is a star first, a prefix, or the very name, and whose static state and scopes fit its declaration, public if there is none |
| AopCache.PropertyDeliveredIff | ext/aop.c:359-587 | and so in every run, whatever the caches hold: a read gets those registered for reading before it, a write those for writing |
| AopCalls.OnlyFittingAdviceRuns | ext/aop.c:481-908 | after any run of registrations and accesses, all advice seen around a call, around advice included, is that of pointcuts registered before it whose globs, access and kinds fit it, and what runs in its slot is the callback it was registered with |
| AopCalls.FittingAdviceRunsIff | ext/aop.c:481-908 | where no around advice is delivered, every fitting pointcut has a slot; its before advice runs unless before advice in front of it threw, its after advice exactly where something inside threw if it is for throwing, and where nothing did if it is for returning |
| AopCalls.AllFittingAdviceRuns | ext/aop.c:481-908 | so where nothing throws at all, it runs if it was registered before the call or for its return |
| AopWeaver.Execute | ext/aop.c:872-908 | for every finite call tree the flag is left as it was found; all advice runs with it set, every intercepted body with it clear, and no call made directly by advice is woven |
| AopWeaver.FlagStopsWeaving | ext/aop.c:872-908 | while the flag is set no call is woven, neither the one at hand nor any call at any depth below it |
| AopWeaver.AdviceIsNeverAdvised | ext/aop.c:872-908 | so nothing that advice calls is ever advised, however deep, unless it proceeds |
| AopWeaver.Weave | ext/aop.c:675-799 | over the whole recursion, around advice that proceeds included, the flag is balanced, and the position kept for proceeding does not fall back behind where it was, unless the walk moved past its own start |
| AopWeaver.RunAround | ext/aop/joinpoint.c:308-346 | around advice may proceed any number of times from the kept position, and leaves the flag balanced each time |
| AopWeaver.Engine.ExecuteEx | ext/aop.c:872-908 | the hook with its global flag, pending exception and trace leaves exactly the prescribed effect |
| AopWeaver.Engine.FuncPointcutAndExecute | ext/aop.c:801-870 | without live advice the body runs directly with the flag cleared around it; else the walk starts at the first slot |
| AopWeaver.Engine.DoFuncExecute | ext/aop.c:675-799 | the recursive walk with its loop over tombstones leaves the prescribed effect and position |
| AopWeaver.Engine.CallAfter | ext/aop.c:752-797 | what was pending stays the pending exception whatever the advice throws; plain after advice runs always, throwing advice exactly with an exception pending, returning advice exactly without |
| AopWeaver.Engine.CallAround | ext/aop.c:731-751 | around advice steps until one throws; nested calls run advised by nothing, proceeding runs the rest of the walk |
| AopWeaver.WeavesAsPrescribed | ext/aop.c:686-797 | for every table without around advice the runs are: before advice in registration order up to the first throw, the body exactly once if none threw, then the applicable after advice in reverse order; tombstones do not count |
| AopWeaver.PrescribedThrowsFirst | ext/aop.c:725-782 | what is pending at the end of the prescribed runs is the first exception thrown along them |
| AopWeaver.FirstExceptionWins | ext/aop.c:675-908 | an intercepted call ends with the earliest exception any of its runs raised, and with none if none did |
| AopWeaver.AftersDescend | ext/aop.c:752-797 | after advice is visited in reverse registration order, every applicable slot once |
| AopWeaver.AfterAdviceRunsIff | ext/aop.c:752-782 | throwing advice runs exactly when something was pending or was thrown by advice outside it, returning advice exactly when not, plain after advice always |
| AopWeaver.ExecuteRunsLiveSlots | ext/aop.c:675-908 | all advice seen around a call, proceeding around advice included, stands in a live slot of the call's own table |
| AopWeaver.PrescribedWithoutThrows | ext/aop.c:686-797 | where nothing throws, exactly the slots of before advice and of advice that runs on return are run |
| AopOrder.WovenIff | ext/aop.c:872-908 | a call is woven exactly when weaving is on, no advice is running, nothing is pending, and it is a named function, neither a closure nor evaluated code; otherwise, and without advice, its body is all that runs |
| AopOrder.BodyRunsItsCode | ext/aop.c:845-908 | a body makes its calls in turn, up to the first that throws what is not caught, and ends with that exception, or else with its own |
| AopOrder.AdviceRunsItsCode | ext/aop.c:725-797 | so does an advice, whose calls are made with the flag set |
| AopOrder.AdviceRunsIff | ext/aop.c:675-908 | for every call without around advice: the body runs unless before advice threw, before advice unless earlier before advice threw, plain after advice always, throwing advice exactly when something inside it threw, be it the body, before advice, or after advice registered later, and returning advice exactly when nothing did |
| AopOrder.WithoutProceedingNothingElseRuns | ext/aop.c:731-751 | around advice that does not proceed keeps the body and all advice behind it from running |
| AopOrder.ProceedingRunsTheRest | ext/aop/joinpoint.c:308-346 | around advice that proceeds once runs the rest inside it, and throws what that throws unless it catches it, or else what it throws itself |
| Container.Di.GetShared | ext/di.c:506-532 | a held instance is returned and is not fresh; a new one that is no falsy value is kept and is fresh; a falsy one is returned, not kept, and leaves the fresh mark as it was |
| Dispatcher.ObtainHandler | ext/dispatcher.c:916-936 | a handler is fresh only if its class had no shared instance before, and it has one afterwards |
| Dispatcher.FireCancel | ext/dispatcher.c:805-838 | the round goes on behind a cancellable event only if no listener returned false and the dispatcher is still finished |
| Dispatcher.Initialize | ext/dispatcher.c:1027-1113 | with an events manager the round goes on behind `initialize` only if the dispatcher is still finished |
| Dispatcher.Announce | ext/dispatcher.c:948-1022 | with an events manager the hooks before an action let the round go on only if none was cancelled and nobody forwarded |
| Dispatcher.Approach | ext/dispatcher.c:948-1135 | the same for everything between obtaining the handler and calling its action |
| Dispatcher.QuietIsSane | ext/dispatcher.c:805-1135 | a part of a round that invokes nothing keeps the safety invariant, and if the round goes on nothing in it was cancelled |
| Dispatcher.InvokeIsSane | ext/dispatcher.c:1215-1270 | invoking while finished, in a round with nothing cancelled, keeps the safety invariant |
| Dispatcher.RoundIsSane | ext/dispatcher.c:742-1314 | every round keeps the safety invariant under an events manager, whatever user code does |
| Dispatcher.ManagedDispatchHasNoStaleAction | ext/dispatcher.c:697-1338 | with an events manager, in every run, an action is invoked only while the dispatcher is finished and no hook of that round was cancelled |
| Dispatcher.UnmanagedDispatchHasStaleAction | ext/dispatcher.c:1027-1050 | without one, whatever the parameters and the action, unless its method is the hook `beforeexecuteroute` itself: a dispatcher about to resolve a known class for the first time calls an abandoned action for some user code |
| Dispatcher.NeverStaleIffManaged | ext/dispatcher.c:742-1314 | no stale action for all user code and all states holds exactly with an events manager |
| Dispatcher.CalmDispatchHasNoStaleAction | ext/dispatcher.c:697-1338 | with or without one, a dispatch has no stale action if in each of its rounds whatever loads, makes and initializes the handler leaves the dispatcher finished |
| Dispatcher.RoundInvokesOnce | ext/dispatcher.c:742-1314 | a round invokes at most one action |
| Dispatcher.DispatchInvokesAtMost255 | ext/dispatcher.c:767-775 | however user code forwards, a dispatch ends with at most 255 actions |
| Dispatcher.BoundIsMet | ext/dispatcher.c:767-775 | an action that always forwards is called exactly 255 times |
| Dispatcher.PrepareIsBalanced | ext/dispatcher.c:916-936 | a handler reported fresh was missing before and is not now, which pays for one initialization |
| Dispatcher.RoundIsBalanced | ext/dispatcher.c:742-1314 | whatever user code does in a round, a class is initialized no more often than its instance came to be missing |
| Dispatcher.RoundKeepsOnce | ext/dispatcher.c:916-1113 | a round keeps that a class was initialized at most once and then has a shared instance |
| Dispatcher.DispatchKeepsOnce | ext/dispatcher.c:697-1338 | so does a whole dispatch |
| Dispatcher.InitializationsAreBounded | ext/dispatcher.c:1025-1050 | over any sequence of dispatches and of operations on the dispatcher and its container, whatever user code does, a class is initialized at most as often as its shared instance was lost, by registering it anew or by going on with a clone of the container, and once more while an instance is held |
| Dispatcher.InitializedAtMostOnce | ext/dispatcher.c:1025-1050 | so at most once where neither happens to the class |
| Dispatcher.EveryDropInitializesAgain | ext/di.c:338-356 | the bound is met for every number of times: where the class is registered anew as shared between n + 1 dispatches, or each goes on with a clone of the container the one before used (`__clone`, lines 737-740, empties the copy), all of them initialize it |
| DispatchProtocol.DispatchFollowsProtocol | ext/dispatcher.c:697-1338 | whatever user code does, each call into it is one that the protocol makes due after the calls before it and their answers: who may throw and be followed, what cancelling, forwarding, an unknown class or action and an exception lead to, the order of hooks, loading, initializing and acting, and the end after 255 rounds |
| DispatchTrace.TraceShowsWhatWasAsked | ext/dispatcher.c:697-1338 | the trace, of which the theorems on stale actions and initializations speak, shows just the hooks, initializations and actions that were asked for, in their order and rounds, and marks just the hooks that were answered with false |
| DispatchNames.HandlerClassIs | ext/dispatcher.c:838-878 | the class is the namespace without a separator at its end, one separator, the handler without a separator at its front, and the suffix; without a namespace it is the handler and the suffix |
| DispatchNames.ClassIsUnique | ext/dispatcher.c:838-878 | this description names one class |
| DispatchNames.ClassIsCutAtItsLastSeparator | ext/dispatcher.c:838-878 | for handlers and suffixes without separators the class, cut at its last one, is the namespace, and the handler with its suffix |
| DispatchNames.RoundCallsWhatIsSet | ext/dispatcher.c:779-1270 | all that a round initializes or invokes is the class of the names that are set when it starts, or their defaults, and the action that is set, or its default, with its suffix |
| DispatchNames.ForwardIsFollowed | ext/dispatcher.c:1340-1483 | a forward decides what the next round calls, by the names it gives and else those that were set; it leaves the round unfinished and remembers the names that were set |
| DispatchNames.NamesAreFollowed | ext/dispatcher.c:402-470 | names that are set are what the next round calls, and nothing else is affected |
| DispatchNames.InvokedActionExists | ext/dispatcher.c:940-1006 | an action is invoked only if the handler has a method of that name, in whatever case |
| DispatchNames.HandlerIsTheInstance | ext/dispatcher.c:916-936 | the handler is the instance that the class has, or else the one made now, which is held from then on and counts as new |
| DispatchNames.KnownClassIsNotLookedFor | ext/dispatcher.c:881-915 | a class is looked for exactly when the container does not know it |
| DispatchNames.InstanceStays | ext/di.c:338-520 | through any operations of user code an instance stays the one it is, unless its class is registered anew as shared |
| DispatchNames.RegisteringTakesTheInstance | ext/di.c:338-356 | registering anew as shared takes just that instance away, and the next request gets the one made then |
| DispatchNames.OtherChangesKeepInstances | ext/di.c:338-400 | registering as not shared, and taking a service out, keep all instances |
| DispatchLoop.DispatcherObject.FireEventCancel | ext/dispatcher.c:824-838 | control goes on behind the event only with the dispatcher finished and exactly one event more, not cancelled; otherwise to the next round or out of the method |
| DispatchLoop.DispatcherObject.Obtain | ext/dispatcher.c:916-936 | control goes on only with an active handler, fresh only if its class had no instance before, and it has one now |
| DispatchLoop.DispatcherObject.InitializeHandler | ext/dispatcher.c:1025-1113 | nothing is invoked, and under an events manager control goes on only with the dispatcher finished |
| DispatchLoop.DispatcherObject.InvokeAction | ext/dispatcher.c:1215-1270 | exactly one invocation is seen, with the finished mark as it was before the call, and control goes on only with the handler remembered |
| DispatchLoop.DispatcherObject.RunRound | ext/dispatcher.c:779-1312 | one pass of the loop body invokes at most one action, and under an events manager still none that is stale |
| DispatchLoop.DispatcherObject.RunRounds | ext/dispatcher.c:742-1314 | the do-while loop with its counter ends, in the specified state and by the specified exit |
| DispatchLoop.DispatcherObject.RunDispatch | ext/dispatcher.c:697-1338 | a dispatch changes the object as specified, from the first event to the last |
| DispatchLoop.DispatcherObject.DispatchSafely | ext/dispatcher.c:697-1338 | on the object itself: no stale action under an events manager, at most 255 further actions, no class initialized more often than its instance came to be missing, and at most once for classes that user code leaves registered |
| ArrGroup.ComputeGroupItems | ext/arr.c:1941-1982 | the loop over rows appends each row to the bucket of its key, opening buckets in order of first appearance |
| ArrGroup.ComputeGroupRows | ext/arr.c:1984-2024 | the nested loops split every group by every field in turn |
| ArrGroup.BucketsAreKeyed | ext/arr.c:1941-1982 | each key has one bucket, holding exactly its rows in their order; keys that do not occur have none |
| ArrGroup.SelectOneMore | ext/arr.c:1984-2013 | splitting the class of a tuple by one more field gives the class of the longer tuple |
| ArrGroup.SplitKeepsPartition | ext/arr.c:1984-2013 | one more split keeps the groups an exact, duplicate-free partition into classes |
| ArrGroup.GroupsArePartition | ext/arr.c:1941-2024 | the final groups are the classes of the rows that carry every field: pairwise distinct tuples, row order kept, none empty, every such row in the group of its tuple |
| ArrGroup.ClassIsHomogeneous | ext/arr.c:1952-1976 | in a group every row shows the group's tuple, as normalised keys, in the grouping fields |
| ArrGroup.SplittingIsGroupingByTuple | ext/arr.c:1984-2013 | repeated splitting gives the same groups, and as many, as grouping by the whole tuple at once |
| ArrGroup.GroupsAreInOrder | ext/arr.c:1941-2013 | groups come by first appearance, field by field: of two, the one whose key in their first differing field is shown first by the rows stands first |
| ArrGroup.GroupingConservesTotals | ext/arr.c:1941-2024 | for any measure, the groups' totals add up to the total over the rows that carry every field |
| ArrClasses.KeysAre | ext/arr.c:1952-1971 | two cells share a key exactly when they are the same integer, or neither is an integer and their texts are equal; reading a key leaves integers and strings as they are and turns any other cell into its text |
| ArrClasses.GroupOfRow | ext/arr.c:1941-2024 | each row that carries every field stands in one group, which is the rows that agree with it cell by cell, in their order, with their grouping cells as read |
| ArrClasses.GroupsAreClasses | ext/arr.c:1941-2024 | and there are no other groups |
| ArrClasses.GroupedTogetherIff | ext/arr.c:1941-2024 | two rows that carry every field stand in one group exactly when they agree, field by field |
| ArrAggregate.FoldIsUnique | ext/arr.c:1778-1922 | the independent fold that defines an aggregator determines its result |
| ArrAggregate.CarryExtendsFold | ext/arr.c:1800-1900 | folding in one more value, by the carried value alone, is the fold of the longer column |
| ArrAggregate.CopyFields | ext/arr.c:1745-1776 | the group fields of the result are copied from the rows that carry them |
| ArrAggregate.Look | ext/arr.c:1790-1900 | one aggregator's look at one row advances its own fold and no other entry |
| ArrAggregate.FinishOne | ext/arr.c:1902-1922 | finishing turns one carried pair into its result and leaves the rest |
| ArrAggregate.Aggregate | ext/arr.c:1736-1938 | one interleaved pass over rows and aggregators gives every aggregator the fold of its own column, and fails exactly when a row is no array |
| ArrAggregate.GroupAndAggregate | ext/arr.c:2065-2103 | every group is aggregated so, and the whole fails exactly when an ungrouped row is no array |
| ArrAggregate.CountsAndSumsAreConserved | ext/arr.c:2065-2103 | COUNT and SUM over the groups add up to COUNT and SUM over all rows that carry every group field |
| ArrAggregate.MeanIsOfColumnIff | ext/arr.c:1902-1922 | AVG is the mean of the column exactly when every row carries it or the sum is zero |
| Base64Url.CompactInPlace | ext/jwt.c:657-678 | two indices in one buffer leave a string without padding and with the two symbols renamed, nothing else changed, and nothing written behind the old end |
| Base64Url.EncodeForUrl | ext/jwt.c:681-692 | copying and compacting gives the URL-safe form of the encoding |
| Base64Url.DecodeFromUrl | ext/jwt.c:695-729 | the buffer of four characters more than the text is never overrun, and holds what strict decoding then reads |
| Base64Url.Base64RoundTrip | ext/jwt.c:683-728 | strict decoding undoes encoding for every byte string |
| Base64Url.RestoredIsEncoded | ext/jwt.c:657-728 | the padding that decoding adds is exactly the padding that encoding removed, and the symbols are those that were encoded |
| Base64Url.UrlRoundTrip | ext/jwt.c:657-729 | decoding the URL-safe form of every byte string gives the byte string back |
| Base64Url.UrlEncodeIsSafe | ext/jwt.c:657-692 | the form holds only letters, digits, `-` and `_`, and four symbols for three bytes rounded up |
| Base64Url.ReencodesIff | ext/jwt.c:657-729 | a string is the encoding of what it decodes to exactly when it is URL-safe, of possible length, and its spare bits are zero |
| Base64Laws.AlphabetIs | ext/jwt.c:657-729 | the symbols are those of the standard in its order, with `-` and `_` for the last two, and are read back as such |
| Base64Laws.UrlFormWritesNumber | ext/jwt.c:657-692 | the form of any octets writes the number they stand for in base 64, highest digit first, followed by the zeros that fill up the last symbol |
| Base64Laws.SpacesDoNotMatter | ext/jwt.c:695-729 | strict decoding ignores blanks, tabs and line ends wherever they stand |
| Base64Laws.DecodesIff | ext/jwt.c:695-729 | and reads any other text exactly when it is symbols, not one too many, followed by no padding or by one or two that complete the last group |
| Jwt.SplitInPlace | ext/jwt.c:1068-1085 | writing two terminators over the first two dots leaves the three parts as C strings, and fails exactly when there are fewer than two dots |
| Jwt.SplitIff | ext/jwt.c:1068-1085 | three parts are the split of a token exactly when they join to it and the first two hold no dot |
| Jwt.Encode | ext/jwt.c:935-1023 | header, payload and signature are assembled in order, without a signature for `none`, and with an error for unknown algorithms or failed signing |
| Jwt.Decode | ext/jwt.c:1025-1145 | algorithm, parts, header, signature and body are examined in this order, and the first fault decides the result |
| Jwt.VerifyHmac | ext/jwt.c:106-170 | the encoded digest, compacted in its buffer, equals the signature text or verification fails |
| Jwt.EncodedSplits | ext/jwt.c:966-1129 | decoding finds exactly the parts that encoding made, and the signing input it rebuilds is the one that was signed |
| Jwt.TokenRoundTrip | ext/jwt.c:935-1145 | an encoded token decodes, under the same key and algorithm, to its payload, unless a claim is refused |
| Jwt.OtherAlgorithmIsRefused | ext/jwt.c:1105-1109 | under any other spelling of an algorithm it is refused, whatever the key |
| Jwt.HmacAcceptsIff | ext/jwt.c:106-170 | a token yields a body exactly when it is two segments with an agreeing header and that body, followed by the base64url text of their digest |
| Jwt.OtherSignatureIsRefused | ext/jwt.c:106-170 | an accepted token under HMAC, given any other signature text, be it another encoding of the same digest, is refused for its signature |
| Jwt.SignatureTextIsUnique | ext/jwt.c:106-170 | no two accepted tokens with the same two segments differ in the signature text |
| JwtOutcomes.AlgorithmIs | ext/jwt.c:545-573 | which names are algorithms, in any case: `none`, HMAC with the digest of its number, and the six public-key algorithms |
| JwtOutcomes.AcceptsIff | ext/jwt.c:1025-1145 | for every algorithm, a token gives a body exactly when it is two dotless segments and a signature, the header names the algorithm, the payload is that body, and the signature is one of the two segments: under HMAC the text of their digest, under a public-key algorithm a text that decodes to bytes which the key confirms |
| JwtOutcomes.RefusesIff | ext/jwt.c:1025-1145 | every other token of three parts is refused for the header's fault, else for its signature, else for the payload's fault, each characterised |
| JwtOutcomes.UndecodableIff | ext/jwt.c:1058-1085 | exactly unsupported algorithms are refused outright, and then exactly the tokens without three parts |
| JwtOutcomes.EncodingFailsIff | ext/jwt.c:935-1023 | encoding fails exactly for unsupported algorithms, and where a public-key algorithm cannot sign the two segments |
| Ecdsa.PackRaw | ext/jwt.c:291-312 | the zeroed buffer, written at two offsets, holds R and S left-padded to the curve's length, or the signature is refused |
| Ecdsa.FieldBytes | ext/jwt.c:291-297 | the number of octets is the least with a bit for each degree |
| Ecdsa.PackFailsIff | ext/jwt.c:294-297 | refused exactly when R or S reaches 256 to the number of octets |
| Ecdsa.PackedHalvesAre | ext/jwt.c:300-312 | the first half of the result is R, the second S, each read from the highest octet down |
| Ecdsa.UnpackUndoesPack | ext/jwt.c:291-429 | for all R and S that fit, splitting and reading the packed signature gives them back |
| Ecdsa.PackUndoesUnpack | ext/jwt.c:291-429 | every raw signature of the curve's length is the packing of the numbers it holds |
| Crypt.PadText | ext/crypt.c:268-330 | the buffer filled by the scheme and appended is the padding of the text; other modes add nothing; more than 255 bytes fail |
| Crypt.UnpadText | ext/crypt.c:456-555 | the scanning loops and the comparison in the buffer strip what the scheme recognises, and nothing otherwise, wherever the buffer is not left |
| Crypt.ScanBack | ext/crypt.c:516-532 | the backward scan counts the trailing bytes, but no further than one past a block |
| Crypt.ScanToMark | ext/crypt.c:506-514 | the backward scan over zeros finds the mark exactly when it stands within a block |
| Crypt.PadFailsIff | ext/crypt.c:279-285 | padding fails exactly beyond 255 missing bytes in the modes `ecb` and `cbc`, and otherwise extends the text to the next block boundary by at least one byte and at most a block; in other modes, or without a scheme, the text stays |
| Crypt.PaddingBytesAre | ext/crypt.c:287-330 | each scheme's padding, byte by byte: the count last or everywhere, the mark first, zeros, spaces or random bytes elsewhere |
| Crypt.RoundTripsIff | ext/crypt.c:279-554 | for X.923, PKCS7, ISO 10126 and ISO 7816-4 unpadding returns the text exactly when the scheme is ISO 7816-4, the mode is unpadded, or fewer than 128 bytes were added |
| Crypt.RoundTrip | ext/crypt.c:279-554 | with block sizes 1 to 127 all four return every text, for any random filler |
| Crypt.BlankRoundTripsIff | ext/crypt.c:279-554 | zero and space padding return a text exactly when it does not end in the padding byte |
| Crypt.PadUndoesUnpad | ext/crypt.c:279-554 | whenever unpadding strips anything, padding the result gives the padded text back |
| Matrix.InitMatrix | ext/matrix.c:301-389 | flattening succeeds exactly for non-empty rectangular input and stores it row by row |
| Matrix.FlatAt | ext/matrix.c:360-382 | row i, column j stands at index i times the columns plus j, which is inside the buffer |
| Matrix.Multiply | ext/matrix.c:1108-1168 | the triple loop with its running indices computes the mathematical product, and fails exactly for ragged, empty or non-conforming matrices |
| Matrix.TransposeRows | ext/matrix.c:789-812 | rows are read off the flat buffer by columns |
| Matrix.ProductIsOfDots | ext/matrix.c:1108-1168 | the product is defined exactly for two conforming matrices, and each element is the dot product of a row and a column |
| Matrix.IdentityIsNeutral | ext/matrix.c:1108-1168 | multiplying by the identity on either side gives the matrix back |
| Matrix.MulIsAssociative | ext/matrix.c:1132-1159 | both groupings of three matrices give the same product, or both fail |
| Matrix.TransposeIsOfColumns | ext/matrix.c:789-812 | the transpose is defined exactly for matrices, and mirrors every element at the diagonal |
| Matrix.TransposeTwiceIff | ext/matrix.c:789-812 | transposing twice gives the matrix back exactly when it has a column |
| Matrix.TransposeOfProductIff | ext/matrix.c:789-1159 | the transpose of a product is the product of the transposes in the other order exactly when the product has a column |
| ConfigTree.Config.constructor | ext/config.c:141-150 | a new object owns a fresh tree that is the given nested array, an object for every array |
| ConfigTree.Config.Val | ext/config.c:157-185 | setting an array replaces the given entries, with new objects for its arrays, and keeps the others |
| ConfigTree.Config.MergeArray | ext/config.c:302-351 | merging an array in place, recursively into the objects below, leaves the merged tree in the same objects |
| ConfigTree.Config.MergeObject | ext/config.c:302-351 | merging another tree leaves the merged tree and shows the other as it was; each property holds the object it held, or else what the other holds, so that objects found only there are shared from then on; the trees may share such objects already, and may be one tree |
| ConfigTree.Config.MergeObjectTwice | ext/config.c:302-351 | merging the same tree a second time, although the first merge shares its objects, leaves tree and properties as the first merge left them |
| ConfigTree.Config.DisjointAreAligned | ext/config.c:141-150 | trees that share no object, as any two that were built apart, are aligned and can be merged |
| ConfigTree.MergeAgain | ext/config.c:302-351 | for all trees, a second merge of the same tree changes nothing |
| ConfigTree.MergeOwn | ext/config.c:302-351 | merging a tree into itself changes nothing |
| ConfigTree.Config.ToArray | ext/config.c:365-397 | conversion gives the nested array of the tree |
| ConfigTree.FlattenedBuilt | ext/config.c:141-397 | converting what was built from a nested array gives that array |
| ConfigTree.MergedByPaths | ext/config.c:302-351 | the recursive merge holds along every path what the second array holds there, and what the first one holds where the second leaves the path open |
| ConfigTree.MergeIsDeepIff | ext/config.c:302-397 | for every tree, merging an array is the right-biased recursive merge exactly when it covers every stored array that it meets |
| ConfigTree.MergeIsDeep | ext/config.c:302-397 | so it always is for a newly built tree |
| ConfigTree.MergeSelf | ext/config.c:302-351 | merging an array into the tree built from it changes nothing |
| ConfigTree.MergeOfBuilt | ext/config.c:302-351 | merging two built trees gives the tree built from the merged arrays |
| ConfigTree.SecondMergeReplaces | ext/config.c:343-345 | an array stored under a new key is replaced when that key is merged again |
| ConfigTree.SecondMergeLoses | ext/config.c:343-345 | a concrete second merge loses a key that the recursive merge keeps |
| Image.FillByDoubling | ext/image.c:138-151 | each block is copied from bytes already written, and in the end position i holds the input's character at i modulo its length |
| Image.StrRepeat | ext/image.c:120-159 | the result is the input repeated, empty for nothing to repeat, and nothing for a negative multiplier |
| Image.RepeatedAt | ext/image.c:135-154 | position i of a repeated string is position i modulo the length |

## Left out

- Zend memory management: reference counts, copies, hash-table internals and allocation failures. Arrays are sequences or maps; only the tombstones of advice tables are kept.
- The pointcut scanner and the joinpoint object other than proceeding: parsed selectors are input. The compiled expression is kept in a buffer of 500 bytes in the C code; the model has no such limit.
- Regular expressions beyond the fragment the compiler can produce; names that hold a line break, which PCRE treats specially.
- Advice that changes arguments or return values, advice on properties, and the property lock: the walk is the one modelled for functions.
- AopWeaver.WeavesAsPrescribed: covers tables without around advice, because around advice decides by itself whether and how often the rest of the walk runs; flag balance is proved with it.
- AopWeaver.FirstExceptionWins: covers tables without around advice, because around advice may catch what it proceeds into.
- AopWeaver.RunAround: lets around advice proceed again after an inner before or after advice has run, where the C code ends the request with a fatal error, because the current pointcut is then not around advice.
- AopCache.KeysAreUnique: covers names without a colon or a NUL; the formatted key of a static method ends at a NUL, which names of anonymous classes hold, so that their keys may coincide.
- Wrap-around of the pointcut version, non-static methods called without an object, and registering pointcuts from inside an intercepted call.
- The dispatcher's logic binding, camelization of names, the string and object forms of forward, debug logging, a missing dependency injector, error handlers of subclasses, and a dispatch started from inside a dispatch.
- ArrAggregate.Aggregate: covers integer columns for the arithmetic aggregators, distinct aliases that are no group fields, and built-in functions; casts of other cells happen in place in the C code and are not modelled, nor are callable aggregators and numeric selectors.
- The conversion of key cells is visible to the caller's own rows in the C code; here it is in the grouped rows only.
- PHP's JSON, OpenSSL's digests and signatures, the clock and the single claim checks: parameters of the token model.
- Jwt.Decode: a header without `alg` ends in an error of its own, because the C code follows a null pointer there.
- The buffer sizes used while a token without a signature is assembled, and what `encode` returns after it has thrown.
- Crypt.UnpadText: requires that the computed length stays in its buffer, because the C code is undefined where X.923 padding ends in a zero byte or a length reads as negative.
- Matrices of floating point numbers, addition, element-wise operations, and overflow of native integers, which C leaves undefined; here integers are unbounded.
- Matrix rows that are no arrays, which fail like ragged ones, and the conversion of elements to integers.
- Configuration keys that are not strings, values that are objects of other classes, the order of entries, and the non-recursive mode.
- ConfigTree.Config.MergeObject: requires that an object which both trees hold stands in the same place in both, as merging leaves it; objects that user code moves to other places are not covered, nor trees that hold one object twice.
- The result buffer's overflow check in the string repetition.
