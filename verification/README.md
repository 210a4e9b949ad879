# OpenFGA's relationship engine in Dafny

OpenFGA answers questions of the form "does user U have relation R with object O?" from stored tuples and a
model of rewrite rules. Its engine has a simple recursive meaning and several fast forms that have to agree with
it. This project models both sides and proves the agreement.

How the modules follow the program:

- `Model` holds rewrites, type restrictions, tuples and goals. `Reducers`, `Check` and `Termination` are the
  recursive evaluator with its path-based cycle detection, depth bound and arbitrary arrival order. `Soundness`
  gives goals a truth value by finite derivations, `Fixpoint` by a least fixpoint. `Completeness` and `Decisions` say
  when a check answers that value and what causes a cycle flag or an error; `LeafLookups` and `Support` tie leaves and
  provable goals to the stored tuples. `Confluence` compares whole evaluations under different arrival orders, and
  `Cache` puts the caching resolver on top. Leaves for which a fast
  path is chosen answer from a table (`World.fast`) instead of dispatching.
- `IteratorStreams`, `StreamLemmas`, `Merges`, `Multisets`, `SetMeaning` are the batched streams and the three
  merges. `FastPath` composes them over a rewrite tree, `FastMeaning` and `FastFixpoint` prove that this keeps the
  meaning, and `LeafLogic` reads a relation of weight one as a truth function of its direct assignments.
- `ConditionFilter` and `OrderedMerge` are the stateful iterators, `MergeRuns` reads the merge to its end,
  `RepeatedKeys` and `SharedKeys` (with `Blocks`) say what it delivers of repeated keys within one input and across
  two, and `LeafRead` composes all this to the read behind a leaf of the fast path.
- `TwoSided`, `FastTwoSided`, `FastUserset` match the two sides of a weight-two relation; `RecursiveMatch` and
  `RecursiveMeaning` are the breadth-first search that replaces the recursion, and `Detours` says for which models it
  is right. `FastTables` puts the three fast paths into the whole check. `DetourTaken` and `LostParent` carry two
  inputs on which a fast path answers wrongly from the tuples to the answer.
- `TypeCycles`, `Involves` and `PrunedEdges` are the searches over the model. `EdgePlaces` says by positions in the
  rewrites which edges there are, `EdgeItems` that the search finds these, and `ReverseExpand` what they are for.
  `Invalidation` is the changelog-driven invalidation; `TupleText` and `VisitedKeys` the text of tuples, which serves as key of visited goals.

What is abstracted. The tuples and the model are fixed while a check is evaluated (`World`). Errors have no text,
only the fact that there is one. The answers of the model graph (PathExists) are a fixed table. So is the choice of
fast paths: the guards look only at the types and the relation, so for each goal and leaf a fast path is chosen or
not; the conditions under which one is chosen are preconditions of its model. A condition of a tuple is met, not met,
or fails to evaluate. Channels are finite sequences of messages; concurrency is an arbitrary order of arrival or an arbitrary
choice among the channels that have something to deliver. After a failed read of a batch the code stops the batch's
iterator and goes on reading it; here a stopped iterator is at its end. The tuples that are read are valid for the model, one per
user, object and relation. Clocks are parameters. A text is a sequence of characters, compared lexicographically.

The answers of the fast paths have three meanings here, each proved. First, an answer without an error is what the
leaf reads list, whatever they list (`lists` of a `Scope`): `FastPathRewrite`, `CheckTTUFastPathV2`,
`CheckUsersetFastPathV2`, `RecursiveFastPathV2`. Second, if the leaf reads list all directly related objects, the
answer is that of the slow path, which dispatches a check per tuple (`SlowAnswers`), and without exclusion that of the
least fixpoint, as far as no detour and no forgotten relation misleads it. Third, the whole check with such answers in
its table never contradicts the check that dispatches everywhere, also with exclusion (`FastAndSlowAgree`), and
without exclusion decides the least fixpoint (`CheckDecidesLfp`, `AddTTU`, `AddUserset`, `AddRecursive`). Over cyclic
tuples this is more than the slow path can do: a group whose only member is itself is denied by the fast path without
a flag, and rightly so, though dispatching derives nothing about it (`SelfGroup`).

The code's leaf read always lists directly related objects in order (`FastPathDirect`). It lists all of them if no
object is read twice. If one is, by a tuple for the user and one for everyone or by a contextual and a stored tuple,
objects can be lost, and with them answers (`LosesNextObject`, `DropsValidCopy`, `LosesParent`); exactly when is said
for one read with repeated objects (`SoleLeafExact`) and for two reads that share objects (`TwinDrained`).

The evaluator is pinned from three sides. An unflagged answer is the truth value (`ResolvesSound`). A truth value that
can be derived within the levels left is the only outcome, unless a goal asked about lies on the path or asks about
itself (`DerivedIsOnlyOutcome`). And every flag and every error has a cause among the goals asked about
(`FlagHasCause`, `ErrorHasCause`), so that without such causes a check decides its goal (`CheckDecides`).

Some results are of the kind "not always".

- The difference merge is the set difference if and only if no shared object occurs more often in the base
  (`DifferenceIsSetDifference`, `RepeatedBaseSurvives`).
- The ordered merge loses a tuple exactly when an input continues behind a copy of the key yielded last (`Next`,
  `EndsEarly`), while its documentation promises that repeated values are returned once. Of one input in which keys
  occur at most twice it delivers every key if and only if each maximal block of doubled keys that is not at the end
  has even length (`DeliversAllIff`). Of two inputs without repeated keys of their own it does if and only if the same
  holds of the blocks of keys of the second that the first has as well (`Drain`).
- Fast matching of usersets compares objects without their relation. For a given model this is right on all valid
  tuples if and only if the relations admitted of one type are interchangeable: as truth functions of the direct
  assignments they are equal (`ObjectsSuffice`, `ForgetsRelation`).
- The recursive search follows tuples from any object it meets. For a given model it is right on all valid tuples if
  and only if the model admits no detour, that is a tuple that does not refer to the relation itself but from whose
  type tuples lead back, or the base of the relation can never hold (`DetoursMislead`, `TakesDetour`).
- The table of resolved computed relations is keyed by a text that two relations can share; it never changes an
  answer if and only if no shared key has two answers (`TableTransparent`, `SharedKeyMisleads`). If only defined
  relations are ever asked for, only their keys and those their definitions name count (`TableTransparentWhenDefined`).
- A run of the cache controller covers the changes since the last one only if their times differ: a change written
  at the time of the newest change remembered is not seen (`SameTimeMissed`). If times differ, no stale iterator is
  ever used after a run (`NoStaleIteratorEver`).
- Below an exclusion the order of arrival can decide whether a request is allowed (`OrderDecidesExclusion`). It cannot
  if no intersection and no exclusion is reachable from a subtracted operand (`OneKind`), let alone without exclusion
  (`WithoutExclusion`). At a single exclusion whose operands are each of one kind, it can if and only if the subtracted
  operand may be denied both with and without the cycle flag while the base may be something other than denied
  (`ExclusionOneKind`). This is without cached answers and for fast paths whose failing does not depend on the order.

Where documentation and code differ, the code is followed: the guard for the recursive tuple-to-userset path
speaks of a union node, but its loop walks through any operator of infinite weight; the model graph refuses
intersections and exclusions in a cycle, so the recursive relation is taken as a union here.

## Model

| member | source | states |
|---|---|---|
| `IteratorStreams.Stream.Head` | internal/iterator/stream.go:38-51 | Head reads without consuming; only a drained, unfailing buffer is dropped |
| `IteratorStreams.Stream.Next` | internal/iterator/stream.go:53-66 | Next returns what Head would have and moves past it |
| `IteratorStreams.Stream.SkipToTargetObject` | internal/iterator/stream.go:81-105 | the buffer moves to its first object not below the target; it fails exactly on an invalid target or a failing buffer |
| `IteratorStreams.Stream.Drain` | internal/iterator/stream.go:109-122 | all objects of the buffer in order, or a failure exactly if the buffer fails |
| `IteratorStreams.Stream.FetchSource` | internal/iterator/stream.go:124-144 | at most one message is taken, and only into an empty buffer of an open stream |
| `IteratorStreams.Streams.CleanDone` | internal/iterator/stream.go:189-202 | every source is polled once, drained and closed streams are removed, the others keep their order; it fails exactly if a polled message is an error |
| `StreamLemmas.CleanTracks` | internal/iterator/stream.go:189-202 | cleaning up keeps what the streams stand for: dropped streams had nothing left, every survivor has a buffer |
| `Merges.NextItemInSliceStreams` | internal/iterator/stream.go:152-166 | all streams whose head is the least object, and no others, advance by it |
| `Merges.FastPathUnion` | internal/graph/check_fast_path.go:94-164 | for any batching it ends, and emits in ascending order the join of the inputs, or a first part of it before an error that an input had |
| `Merges.FastPathIntersection` | internal/graph/check_fast_path.go:166-254 | the same for the meet of at least one input |
| `Merges.FastPathDifference` | internal/graph/check_fast_path.go:256-373 | the same for the multiset difference, including the final drain of the base |
| `SetMeaning.JoinSupport` | internal/graph/check_fast_path.go:94-164 | the join is the set union, repetition-free if the inputs are |
| `SetMeaning.MeetSupport` | internal/graph/check_fast_path.go:166-254 | the meet is the set intersection, repetition-free if the inputs are |
| `SetMeaning.DifferenceIsSetDifference` | internal/graph/check_fast_path.go:299-345 | the multiset difference is the set difference if and only if no shared object occurs more often in the base |
| `SetMeaning.RepeatedBaseSurvives` | internal/graph/check_fast_path.go:299-345 | a repeated base object is emitted although it is subtracted |
| `SetMeaning.EnumerationUnique` | internal/graph/check_fast_path.go:94-373 | the emitted sequence is determined by its contents, and strictly ascending without repetitions |
| `Reducers.Union` | internal/graph/check.go:200-253 | allowed if and only if some outcome allows, an error if and only if none allows and there is one, else denied with the cycle flag if one has it; never flagged unless an outcome is |
| `Reducers.Intersection` | internal/graph/check.go:257-311 | the first denial or flagged response, else an error, else allowed; allowed if and only if there are outcomes and all allow, an error if and only if one failed and all others allow; never flagged unless an outcome is |
| `Reducers.Exclusion` | internal/graph/check.go:316-441 | the base decides if it is denied or flagged, the subtracted operand if it is allowed or flagged, the first to arrive if both do; an error if and only if neither decides and one failed; allowed if and only if the base is and the other is denied; never flagged unless an operand is |
| `Reducers.ConsumeDispatches` | internal/graph/check.go:658-702 | dispatched sub-checks are combined as a union: allowed, an error or flagged under the same conditions |
| `Reducers.UnionConfluent` | internal/graph/check.go:200-253 | over all arrival orders the union's answers are one function of the set of outcomes |
| `Reducers.IntersectionOrders` | internal/graph/check.go:257-311 | exactly which answers some arrival order of an intersection can give |
| `Reducers.KindConfluent` | internal/graph/check.go:200-441 | allowed, denied or error does not depend on the arrival order, for all three reducers |
| `Soundness.DerivesConsistent` | internal/graph/check.go:1250-1273 | no goal is derivably true and derivably false |
| `Soundness.SettlesUnique` | internal/graph/check.go:1250-1273 | a goal has at most one truth value |
| `Soundness.ResolvesCoherent` | internal/graph/check.go:467-555 | no response of the whole recursion is both allowed and flagged |
| `Soundness.ResolvesSound` | internal/graph/check.go:467-555 | an unflagged response is the truth value of the goal, whatever the path, depth, arrival order and cached answers, and whichever leaves are answered by fast paths |
| `Completeness.ResolvesUnflagged` | internal/graph/check.go:467-555 | no answer is flagged if neither the request nor a goal asked about below it is on the path or asks about itself |
| `Completeness.FlagHasCause` | internal/graph/check.go:486-495 | a flagged answer is caused by the request or a goal asked about below it that is on the path or asks about itself |
| `Completeness.DerivedIsOnlyOutcome` | internal/graph/check.go:467-555 | if a goal is derivably true or false within the levels left, nothing at or below it is on the path or asks about itself, the cache is sound and no fast path may fail, then every outcome is that truth value, unflagged |
| `Completeness.DerivedOutcomes` | internal/graph/check.go:467-555 | and it is an outcome |
| `Completeness.RankedIsClear` | internal/graph/check.go:486-495 | goals that can be ranked so that each asks only about lower ones meet the condition on cycles |
| `Decisions.ResolvesSafely` | internal/graph/check.go:467-540 | no answer is an error if everything asked about can be resolved within the levels left |
| `Decisions.ErrorHasCause` | internal/graph/check.go:467-540 | an error is caused by a goal at or below the request that is undefined, has no answer of the model graph, rests on a condition or a fast path that may fail, or is as many questions away as levels are left |
| `Decisions.CheckDecides` | internal/graph/check.go:467-555 | without causes for flags and errors the goal has a truth value, and it is the only outcome |
| `Decisions.LimitFails` | internal/graph/check.go:482-484 | at the depth limit every check fails, also of a goal on the path or a self-defining one |
| `LeafLookups.DirectLookup` | internal/graph/check.go:848-897 | the lookup of the user's tuple is allowed, an error or denied as its condition is met, fails to evaluate, or neither |
| `LeafLookups.PublicLookup` | internal/graph/check.go:791-846 | the same for the wildcard of the user's type |
| `LeafLookups.LookupsExact` | internal/graph/check.go:899-935 | the lookups allow or fail exactly if such a tuple does that the relation admits for the user; the wildcard does not count for a userset |
| `LeafLookups.UsersetTargetsExact` | internal/graph/check.go:568-602 | the sub-checks of a direct assignment are exactly the usersets of admitted tuples whose condition is met |
| `LeafLookups.ParentTargetsExact` | internal/graph/check.go:1055-1087 | the sub-checks of a tuple-to-userset are exactly the computed relation on the objects of tuples whose condition is met, except of known types that do not define it |
| `LeafLookups.BrokenTuplesetFails` | internal/graph/check.go:1089-1117 | a tuple-to-userset of whose tuples none is met and one fails to evaluate is an error |
| `LeafLookups.BrokenUsersetsFail` | internal/graph/check.go:706-745 | so is a direct assignment with such userset tuples, unless a lookup allows |
| `Soundness.UnflaggedAnswersAgree` | internal/graph/check.go:467-555 | two unflagged responses to a goal agree, however each was obtained, over the same answers of the fast paths |
| `Soundness.DerivedIsAnswered` | internal/graph/check.go:658-702 | if dispatched sub-checks can derive only one truth value, every unflagged answer to the dispatch is that value, whatever the path, depth, arrival order and cached answers |
| `Confluence.OneKind` | internal/graph/check.go:467-555 | if no intersection and no exclusion is reachable from a subtracted operand, all outcomes the whole recursion can give to a request, over all orders of arrival, are of one kind: allowed, denied or error; and they are one outcome if no such operator is reachable from the relation at all |
| `Confluence.WithoutExclusion` | internal/graph/check.go:467-555 | the same for every model without exclusion, whatever the tuples |
| `Confluence.ExclusionOneKind` | internal/graph/check.go:316-441 | an exclusion of operands of one kind is of one kind if and only if it is not the case that the subtracted operand may be denied with and without the flag while the base may be other than denied |
| `Confluence.ExclusionFollowsOrder` | internal/graph/check.go:316-441 | below an exclusion, which of two stopping outcomes an intersection returns decides between allowed and a flagged denial |
| `Confluence.OrderDecidesExclusion` | internal/graph/check.go:467-555 | a model and tuples, with a cycle through two types that no fast path takes over, for which the same request is allowed in one order of arrival and denied with a cycle flag in another |
| `Fixpoint.LfpIsLeast` | internal/graph/check.go:1250-1273 | the provable goals are contained in every set closed under the rules |
| `Fixpoint.LfpIsClosed` | internal/graph/check.go:1250-1273 | the provable goals are closed under the rules |
| `Fixpoint.NotProvable` | internal/graph/check.go:482-495 | a goal that cannot be proved without itself cannot be proved: a shortest proof repeats no goal on a path |
| `Fixpoint.ResolvesDenies` | internal/graph/check.go:482-555 | a denial below a path, also one that rests on true answers of fast paths, means that the goal has no proof avoiding the path |
| `Fixpoint.CheckDecidesLfp` | internal/graph/check.go:467-555 | without exclusion, a check that starts with no path and does not fail allows exactly the goals of the least fixpoint, whichever leaves are answered by fast paths, if these answer true exactly when a userset or parent of the leaf is in it |
| `FastTables.FastAndSlowAgree` | internal/graph/check.go:976-990 | any unflagged answer of the check that uses fast paths equals any unflagged answer of the check that dispatches everywhere, also with exclusion, whatever the paths, depths, orders and sound caches, if the fast paths answer what dispatching can derive |
| `FastTables.AddTTU` | internal/graph/check.go:1179-1198 | choosing the tuple-to-userset fast path for one more leaf, over complete leaf reads, keeps the answers of all fast paths what dispatching can derive and, without exclusion, what the least fixpoint says; each of its runs gives the answer entered or fails |
| `FastTables.AddUserset` | internal/graph/check.go:977-990 | the same for the userset fast path, unless it allows and the admitted relations of a type are not interchangeable |
| `FastTables.AddRecursive` | internal/graph/check.go:977-990 | the same for the recursive fast path, unless it allows and the model admits a detour |
| `FastTables.SelfGroup` | internal/graph/check_fast_path.go:764-842 | of a group whose only tuple makes it its own member nothing is derivable by dispatching; with the denial of the fast path the check denies without a flag, the denial is the settled value, and the goal is not in the least fixpoint |
| `FastTables.LfpIgnoresTable` | internal/graph/check.go:1250-1273 | the least fixpoint does not depend on the answers of the fast paths |
| `Termination.ResolveTerminates` | internal/graph/check.go:449-555 | every request gets an outcome on every model and tuple set, cyclic computed relations included |
| `Cache.CachedCheckResolver.TryCache` | internal/graph/cached_resolver.go:159-187 | a hit exactly for an entry newer than the last invalidation, unless higher consistency is asked for; a hit is the truth value |
| `Cache.CachedCheckResolver.Complete` | internal/graph/cached_resolver.go:189-212 | exactly the unflagged responses are stored, and all stored ones stay correct |
| `Cache.RunStoresTruth` | internal/graph/cached_resolver.go:151-212 | after any sequence of requests everything stored is the truth |
| `Cache.RunStoresLfp` | internal/graph/cached_resolver.go:151-212 | without exclusion and with true answers of the fast paths, everything a run stores is what the least fixpoint says |
| `Cache.CachedCheckResolver.ResolveCheck` | internal/graph/cached_resolver.go:151-212 | a hit if and only if higher consistency is not asked for and an entry is newer than the last invalidation; then that response is returned and nothing changes, anything else is delegated and stored exactly if unflagged; an unflagged answer, hit or not, is that of every unflagged uncached check |
| `Support.LfpSupported` | internal/graph/check.go:501-505 | stored tuples whose conditions are met lead from the object of every goal of the least fixpoint to the user, unless it is the user's own object |
| `Support.DerivedSupported` | internal/graph/check.go:501-505 | the same for every goal derivably true, with exclusion as well, where no fast path is chosen |
| `Support.NothingFromNothing` | pkg/tuple/tuple.go:493-496 | without tuples only goals about the user's own object are provable or derivable |
| `VisitedKeys.SelfDefiningText` | pkg/tuple/tuple.go:493-496 | a well-named goal is taken for self-defining exactly if the text of its user is that of its object and relation, and splitting the text decides just that |
| `Cache.CachedAgreesWithUncached` | internal/graph/cached_resolver.go:151-212 | after any run of requests with hits and misses, the last unflagged answer equals every unflagged answer without a cache |
| `Cache.FlaggedDenialIsNotTruth` | internal/graph/cached_resolver.go:196-206 | why flagged denials are not stored: they occur for true goals |
| `FastPath.FastPathRewrite` | internal/graph/check_fast_path.go:403-426 | whatever the leaf reads list in order, the channel of a rewrite is the ascending enumeration of the members computed from it; it starts exactly if all leaf reads do, and only a leaf fault cuts it short |
| `FastPath.ChildChannels` | internal/graph/check_fast_path.go:378-401 | one channel per operand, or none if one cannot be started |
| `FastPath.FastUnion` | internal/graph/check_fast_path.go:378-401 | the union operator streams the members of any operand |
| `FastPath.FastIntersection` | internal/graph/check_fast_path.go:378-401 | the intersection operator streams the members of all operands |
| `FastPath.FastDifference` | internal/graph/check_fast_path.go:378-401 | the exclusion operator streams the members of the base that are not subtracted |
| `FastMeaning.LeafAgrees` | internal/graph/check_fast_path.go:42-58 | whatever the direct check derives about an object is whether a valid tuple relates it to the user, also if some conditions fail to evaluate |
| `FastMeaning.DerivedIffMember` | internal/graph/check_fast_path.go:33-74 | whatever the per-object evaluation of a rewrite derives is whether the object is a member, also if some conditions fail to evaluate |
| `FastMeaning.GoalDerived` | internal/graph/check_fast_path.go:60-74 | the same for a goal, including the short cut for a missing path |
| `FastMeaning.MemberIffDerives` | internal/graph/check_fast_path.go:33-74 | if all conditions evaluate, the per-object evaluation also settles every object of the type |
| `FastMeaning.GoalAgrees` | internal/graph/check_fast_path.go:60-74 | the same for a goal |
| `FastFixpoint.GoalInLfp` | internal/graph/check_fast_path.go:60-74 | without exclusion, and with complete leaf reads, the streamed objects are exactly those of the least fixpoint, also if some conditions fail to evaluate |
| `LeafLogic.MemberIsEval` | internal/graph/check_fast_path.go:403-426 | over any tuples, membership is one truth function of the relations that hold on the object by a tuple |
| `LeafRead.FastPathDirect` | internal/graph/check_fast_path.go:42-58 | the merged and filtered read lists directly related objects, in order and without repetition; if no object is read twice all of them unless an error ends it, and an error only if an input fails or no condition is met and one fails to evaluate; of a single input the valid tuples the merge delivers; of two inputs that share objects what `TwinDrained` says |
| `LeafRead.SoleLeafExact` | internal/checkutil/checkutil.go:44-112 | one read with each object at most twice lists exactly the directly related objects if and only if no tuple whose condition is met is, or depends on, a copy or an object behind a copy that the merge drops |
| `LeafRead.TwinDrained` | pkg/storage/storagewrappers/combinedtuplereader.go:158-193 | contextual and stored tuples without repeated objects of their own: if each maximal block of shared objects that is not at the end of the stored ones has even length, exactly the objects are listed whose contextual tuple, or stored tuple if there is no other, is met; if all are met, only then are all objects listed |
| `LeafRead.LosesNextObject` | pkg/storage/storagewrappers/combinedtuplereader.go:158-193 | with a tuple for the user and one for everyone on `doc:1`, the read loses `doc:2` |
| `LeafRead.DropsValidCopy` | pkg/storage/storagewrappers/combinedtuplereader.go:158-193 | the copy of `doc:1` that is dropped may be the one whose condition is met |
| `LostParent.LosesParent` | internal/graph/check_fast_path.go:590-618 | a folder whose parent is the second of two documents, the first of which is read twice: the leaf read loses the parent and the fast path denies without error, while dispatching derives true |
| `LostParent.FolderMisleads` | pkg/storage/storagewrappers/combinedtuplereader.go:158-193 | a concrete such world |
| `TwoSided.ResolveFastPath` | internal/graph/check_fast_path.go:431-530 | for every interleaving: allowed only if the sides share an object, denied without an error only if they do not; never allowed with an error; a denial without an error is only given if no message received was an error, and after both sides were read to their end unless one of them has nothing to offer |
| `TwoSided.FanInKeeps` | internal/iterator/fan_in.go:24-56 | fan-in neither loses nor adds objects or errors |
| `FastTwoSided.FanIn` | internal/iterator/fan_in.go:24-56 | exactly the messages of all channels are delivered |
| `FastTwoSided.ParentsDerive` | internal/graph/check.go:1055-1117 | dispatching a check per parent derives nothing but whether some parent is streamed |
| `FastTwoSided.ParentsAnswer` | internal/graph/check.go:1055-1117 | so every unflagged answer of the slow path is whether some parent is streamed |
| `FastTwoSided.ParentsSettle` | internal/graph/check.go:1055-1117 | if all conditions evaluate, dispatching also settles to that |
| `FastTwoSided.ParentsInLfp` | internal/graph/check.go:1055-1117 | without exclusion some parent is in the least fixpoint exactly if some parent is streamed |
| `FastTwoSided.CheckTTUFastPathV2` | internal/graph/check_fast_path.go:590-618 | an answer without error says whether some parent is a member of the computed relation by what the leaf reads list; if they are complete, every unflagged answer of the slow path is the same, for every path, depth, order and cache, and without exclusion so is the least fixpoint; an error is only given if a read fails |
| `FastTwoSided.ParentChannels` | internal/graph/check_fast_path.go:532-564 | a channel per admitted parent type that defines the relation, each streaming its members; none is missing or cut short if all leaf reads succeed |
| `FastUserset.ObjectsSuffice` | pkg/storage/tuple_mappers.go:72-79 | comparing objects without their relation gives the answer of comparing usersets for all valid tuples over the model if and only if the admitted relations of each type are equal as truth functions of the direct assignments |
| `FastUserset.ForgetsRelation` | pkg/storage/tuple_mappers.go:72-79 | for every world in which one of two directly assigned relations of a type is assigned and the user has the other, the fast path is chosen and allows, while dispatching derives false |
| `FastUserset.TwoRelationsMislead` | pkg/storage/tuple_mappers.go:72-79 | a concrete such world |
| `FastUserset.UsersetsAnswer` | internal/graph/check.go:568-602 | every unflagged answer of dispatching a check per userset tuple is whether the user is in one of the usersets |
| `FastUserset.UsersetsSettle` | internal/graph/check.go:568-602 | if all conditions evaluate, dispatching also settles to that |
| `FastUserset.UsersetsInLfp` | internal/graph/check.go:568-602 | without exclusion some userset is in the least fixpoint exactly if the user is in one of them as streamed |
| `FastUserset.CheckUsersetFastPathV2` | internal/graph/check_fast_path.go:566-588 | an answer without error says whether the user has an admitted relation with the object of some userset tuple, by what the leaf reads list; if they are complete, and the answer is a denial or the admitted relations of each type are interchangeable, every unflagged answer of the slow path is the same, and without exclusion so is the least fixpoint; an error is only given if a read fails |
| `RecursiveMatch.ExpandLevel` | internal/graph/check_fast_path.go:651-695 | one level, expanded in any order, keeps the search invariant, visits no object twice, and leads exactly to what its unvisited objects lead to, as far as they can be read |
| `RecursiveMatch.BreadthFirstRecursiveMatch` | internal/graph/check_fast_path.go:633-756 | true only if an object beyond the first level is related to the user; false without error only after everything reachable was read; an error only for a failed read or if some object is about as many tuples away as levels are left; a related object reached through readable ones within that distance is always found; a search with something to expand on each of the levels left ends in an error unless it finds one, and if no read fails, it finds one exactly within that distance and only such a search ends in an error |
| `RecursiveMatch.RecursiveFastPath` | internal/graph/check_fast_path.go:764-842 | for every interleaving of the two loading channels: true exactly if a parent at any distance is related to the user, with the same limits on errors, in both directions, and on what is missed |
| `RecursiveMeaning.LeafAnswers` | internal/graph/check.go:1089-1117 | every unflagged answer of the slow path is whether the tuples that refer back to the relation lead to an object of its base, also if some conditions fail to evaluate |
| `RecursiveMeaning.GoalSettles` | internal/graph/check.go:1121-1199 | if all conditions evaluate, the relation is the least solution of its recursive definition: base operands or some parent |
| `RecursiveMeaning.OwnFindsSettles` | internal/graph/check.go:1121-1199 | then the tuples that refer back lead to an object of the base exactly if some parent is in the relation |
| `RecursiveMeaning.OwnFindsIsLfp` | internal/graph/check.go:1121-1199 | without exclusion, the tuples that refer back lead to an object of the base exactly if a userset or parent of the leaf is in the least fixpoint, also if some conditions fail to evaluate and for cyclic tuples |
| `RecursiveMeaning.SearchAndDefinition` | internal/graph/check_fast_path.go:633-695 | what the recursive definition asks for the search finds; without a detour in the model it finds nothing else |
| `Detours.DetoursMislead` | pkg/typesystem/typesystem.go:557-722 | over all valid tuples of a model the search finds exactly what the recursive definition asks for, if and only if the model admits no detour or the base can never hold |
| `DetourTaken.TakesDetour` | internal/graph/check_fast_path.go:846-909 | for every world with a drive between two documents, the recursive fast path is chosen and allows by way of the drive, while dispatching derives false |
| `DetourTaken.DriveMisleads` | internal/graph/check_fast_path.go:846-909 | a concrete such world |
| `RecursiveMeaning.IteratorsToUserset` | internal/graph/object_providers.go:97-150 | the user's side delivers exactly the streamed objects, and fails exactly if the stream does |
| `RecursiveMeaning.RecursiveFastPathV2` | internal/graph/check_fast_path.go:846-909 | an answer without error says whether following tuples leads to an object of the base by what the leaf reads list, cycles of tuples included; if they are complete, and the answer is a denial or the model admits no detour, every unflagged answer of the slow path is the same, and without exclusion so is the least fixpoint; an error is only given for a failed read or an object about as far away as levels are left |
| `TypeCycles.HasCycle` | pkg/typesystem/typesystem.go:1498-1509 | false exactly if neither a cycle of computed relations nor an undefined one is ahead; true only for a cycle, an error only for an undefined relation |
| `TypeCycles.HasCycleBelow` | pkg/typesystem/typesystem.go:1449-1496 | the same for one rewrite below a path; the caller's marks grow by the relation only, so diamonds raise no alarm |
| `TypeCycles.NoCycleBounded` | pkg/typesystem/typesystem.go:1449-1496 | without a cycle ahead, chains of references are no longer than the relations of the type |
| `TypeCycles.RankedIffAcyclic` | pkg/typesystem/typesystem.go:1449-1509 | the relations of a type can be ranked, as the fast path needs, exactly if no cycle exists |
| `TypeCycles.TypeSystem.ResolveComputedRelation` | pkg/typesystem/typesystem.go:290-309 | it ends on ranked relations and computes the specified lookup in the table keyed by text; where neither its key nor one a definition leads to has two answers it returns the relation at which the definitions end, or an error if they end at none, whatever the table holds |
| `TypeCycles.TableTransparent` | pkg/typesystem/typesystem.go:290-309 | the table never changes an answer, whatever was asked before, if and only if no shared key has two answers |
| `TypeCycles.TableTransparentWhenDefined` | pkg/typesystem/typesystem.go:290-309 | if only defined relations are asked for, the same with the keys of defined relations and of those a definition names |
| `TypeCycles.SharedKeyMisleads` | pkg/typesystem/typesystem.go:290-309 | two relations whose names share a key: after one is resolved the other gets its answer |
| `TypeCycles.EndsAtOne` | pkg/typesystem/typesystem.go:290-309 | that relation is unique |
| `Involves.HitAhead` | pkg/typesystem/typesystem.go:824-936 | a hit for an operator means that a reachable relation contains it |
| `Involves.RelationInvolves` | pkg/typesystem/typesystem.go:824-936 | the code with its shared marks computes the specified search |
| `Involves.WalkUsersetRewrite` | pkg/typesystem/typesystem.go:1712-1748 | the walk stops at the first verdict; handling a leaf twice changes nothing |
| `Involves.TogetherExact` | pkg/typesystem/typesystem.go:824-936 | one of the two searches hits exactly if a reachable relation contains an intersection or exclusion |
| `Involves.InvolvesIntersectionOrExclusion` | internal/graph/graph.go:251-267 | the combined query is exact, and an error exactly for an undefined relation |
| `Involves.IntersectionMissed` | pkg/typesystem/typesystem.go:901-904 | the search for intersections alone misses one behind an exclusion |
| `Involves.OneKindExact` | pkg/typesystem/typesystem.go:824-936 | where only one kind of operator can be reached its own query is exact |
| `PrunedEdges.RelationshipEdges` | internal/graph/graph.go:138-163 | the search with its shared marks returns what is gathered from the items of the relations |
| `PrunedEdges.RewriteEdges` | internal/graph/graph.go:166-347 | the same for a rewrite, with all edges below an operator flagged; what the items are is said by position in `EdgeItems` |
| `EdgeItems.ItemReferences` | internal/graph/graph.go:173-347 | the references among the items are exactly those at positions that pruning keeps, which follows every operand of a union, the first of an intersection and the base of an exclusion; raised if and only if inside an intersection or exclusion |
| `EdgeItems.ItemSpots` | internal/graph/graph.go:173-347 | the edges among the items are exactly those of the positions, and for a tuple-to-userset the type restrictions, at which the source occurs, one each |
| `PrunedEdges.GetPrunedRelationshipEdges` | internal/graph/graph.go:134-136 | up to flags exactly one edge per place, given by relation, position and restriction, at which the source occurs in a relation on a pruned path; each edge is flagged if and only if its place or the path it was found by is inside an intersection or exclusion, or its tuple-to-userset leads to one; an error exactly for an undefined target |
| `ReverseExpand.FindsDerived` | pkg/server/commands/reverseexpand/reverse_expand.go:458-515 | what the edges are for: following them from a user, by reading tuples for direct and tuple-to-userset edges, finds every object on which a relation on a pruned path is derivably true for the user |
| `ReverseExpand.EveryRelatedObjectFound` | pkg/server/commands/reverseexpand/reverse_expand.go:379-383 | so every object of the target type that has the target relation is a candidate |
| `ReverseExpand.StartsDirectly` | internal/graph/graph.go:173-187 | for a plain user this starts at a direct edge for the user's type into a relation on a pruned path |
| `ReverseExpand.UnflaggedIsDerived` | internal/graph/graph.go:126-133 | a candidate found by unflagged edges only is derivably related to the user, so it needs no further check |
| `PrunedEdges.GatherCounts` | internal/graph/graph.go:173-347 | up to flags, the edges are exactly the occurrences in the relations reached |
| `PrunedEdges.GatherExplained` | internal/graph/graph.go:173-347 | each edge lies at the end of a pruned path, and its flag is that of the path and the occurrence |
| `ConditionFilter.ConditionsFilteredTupleKeyIterator.Next` | pkg/storage/tuple_iterators.go:327-353 | returns what was upcoming, and takes exactly that |
| `ConditionFilter.ConditionsFilteredTupleKeyIterator.Head` | pkg/storage/tuple_iterators.go:367-398 | previews the following Next and changes nothing that later reads return |
| `ConditionFilter.ReadAll` | pkg/storage/tuple_iterators.go:327-400 | for every interleaving of previews: exactly the valid tuples in order, then a filter error if and only if no condition was met and some failed, unless the underlying iterator fails |
| `ConditionFilter.PassingVisible` | pkg/storage/tuple_iterators.go:327-400 | on the tuples of a check this is what the evaluator sees of them |
| `OrderedMerge.OrderedCombinedIterator.FindHead` | pkg/storage/tuple_iterators.go:473-523 | looks at every input, discarding copies of the last key, and picks the first with the least head |
| `OrderedMerge.OrderedCombinedIterator.Next` | pkg/storage/tuple_iterators.go:436-451 | keys ascend strictly; exactly the yielded tuple is taken if and only if no input continues behind a copy of the last key, and then it is the least one left; without repeated keys this goes on until nothing is left or an input fails |
| `OrderedMerge.OrderedCombinedIterator.Head` | pkg/storage/tuple_iterators.go:453-467 | without repeated keys it previews the following Next |
| `OrderedMerge.SweptConserves` | pkg/storage/tuple_iterators.go:480-511 | what looking at the inputs keeps and what it loses |
| `MergeRuns.Drain` | pkg/storage/tuple_iterators.go:436-529 | read to the end, with any previews: strictly ascending keys of the inputs; without repeated keys the sorted merge, or a first part of it before the failure of an input; of a single input exactly the specified run; of two inputs that neither fail nor repeat a key, all keys if and only if each maximal block of keys of the second that the first has and that is not at the end has even length, and then the tuples of the first are preferred |
| `RepeatedKeys.DeliversAllIff` | pkg/storage/tuple_iterators.go:473-523 | of one sorted input in which each key occurs at most twice every key is delivered if and only if each maximal block of doubled keys that is not at the end has even length |
| `RepeatedKeys.KeepsIff` | pkg/storage/tuple_iterators.go:473-523 | of one sorted input in which each key occurs at most twice every tuple whose condition is met is delivered if and only if none of them is dropped as a copy or behind one, as the specified check says |
| `RepeatedKeys.KeepsIsEven` | pkg/storage/tuple_iterators.go:473-523 | if all conditions are met, that is the case exactly if each maximal block of doubled keys that is not at the end has even length |
| `OrderedMerge.EndsEarly` | pkg/storage/tuple_iterators.go:495-511 | a repeated key makes the merge end with keys unread |
| `Invalidation.CacheController.FindChangesAndInvalidate` | internal/cachecontroller/cache_controller.go:202-317 | if the newest change is later than the one remembered, or none is, every change of the whole changelog within the lifetime of cached iterators is covered by the marker of the store or both its own markers; a failed read covers everything; otherwise only the newest change is remembered; nothing but the markers of young changes read is set, and that of the store only if even the oldest change read is young |
| `Invalidation.CacheController.Invalidate` | internal/cachecontroller/cache_controller.go:271-305 | the marker of the store if even the oldest change read is young, else exactly the markers of the young changes |
| `Invalidation.EveryYoungChangeCovered` | internal/cachecontroller/cache_controller.go:251-305 | every young change of the whole changelog is covered, also beyond the page read |
| `Invalidation.NoStaleIteratorSurvives` | pkg/storage/storagewrappers/cached_datastore.go:246-265 | a live cached iterator older than a change that concerns it is not used afterwards |
| `Invalidation.RunTracked` | internal/cachecontroller/cache_controller.go:202-317 | over any run of written changes, controller runs, failed reads and forgotten entries, every change up to the one remembered is covered or older than every cached iterator, and after each run of the controller every change is |
| `Invalidation.NoStaleIteratorEver` | pkg/storage/storagewrappers/cached_datastore.go:246-265 | so after each run of the controller no live iterator cached before a change it depends on is used, also if the newest change was known |
| `Invalidation.FreshIteratorSurvives` | pkg/storage/storagewrappers/cached_datastore.go:246-265 | an iterator cached since the last run is used |
| `Invalidation.SameTimeMissed` | internal/cachecontroller/cache_controller.go:260-269 | a change written at the time of the newest one remembered stays uncovered |
| `Invalidation.PageAloneInsufficient` | internal/cachecontroller/cache_controller.go:289-292 | why a page of young changes marks the store: marking its own changes leaves older young ones uncovered |
| `TupleText.ParsePrint` | pkg/tuple/tuple.go:351-357 | parsing the text of a valid tuple gives the tuple |
| `TupleText.PrintParse` | pkg/tuple/tuple.go:437-465 | only texts of valid tuples parse, and to the tuple they are the text of |
| `TupleText.PrintInjective` | pkg/tuple/tuple.go:351-357 | different valid tuples have different texts |
| `TupleText.UserRoundTrip` | pkg/tuple/tuple.go:472-490 | a user is rebuilt from its parts if and only if it neither begins with `:` nor ends with `#` |
| `TupleText.ValidUserRoundTrip` | pkg/tuple/tuple.go:381-387 | valid users are rebuilt from their parts |
| `TupleText.PartsRoundTrip` | pkg/tuple/tuple.go:472-490 | exactly which parts are recovered from the text of a user |
| `VisitedKeys.GoalKeyInjective` | internal/graph/check.go:542-555 | different well-named goals have different keys |
| `VisitedKeys.VisitedByKey` | internal/graph/check.go:542-555 | looking up the key of a goal among visited keys finds exactly a visited goal |

## Left out

- Context cancellation, deadlines, panics, goroutine leak handling, tracing, metrics and logging.
- The intersection merge on no streams: its loop does not end there, so at least one stream is required; validated models give every operator an operand.
- The weighted graph and the guards that choose a fast path: external or derived from it; they are preconditions (`WeightOne`, `FastReady`, `RecursiveReady`), and which leaves they choose is the domain of `World.fast`.
- Compilation and evaluation of conditions: external; a condition is met, not met or fails.
- `BuildCacheKey` and its hash: the cache is keyed by goals, which assumes that keys are injective.
- Expiry and eviction of cache entries: eviction is modelled as removal at any time, expiry by the same step.
- The wildcard short cut of produceUsersetDispatches: userset tuples are read by userset restrictions, so no wildcard reaches it.
- Edges of the relationship graph are values here; in the code they are shared objects whose flag is set in place. No edge is in two results, so setting flags on values gives the same outcome.
- Full (not pruned) mode of getRelationshipEdges, and errors for undefined relations inside it: valid models have none.
- `Involves.RelationInvolves`: stated for valid models; on others the walk's handler returns an error that the caller takes for a verdict.
- `Involves.OneKindExact`: gives a sufficient condition for a single query to be exact; which operator is met first in general depends on the order of the whole walk.
- `MergeRuns.Drain`: what a whole run delivers is given when no key is repeated, when only one input has tuples, and for two inputs that share keys; for keys repeated both within and across inputs the exact condition is stated for a single call of `Next`.
- `LeafRead.FastPathDirect`: the filter for tuples that the model no longer allows is left out; all tuples are valid.
- Tuples with a userset or a wildcard as user, read by the recursive search from a relation of another type that is named like the tupleset: they name no object that has tuples, and are left out of the search.
- Reverse expansion: its table of visited usersets, its depth limit and its weighted form; here it is the closure under following pruned edges. The model graph is assumed to know a path for every userset reached.
- hasEntrypoints, ListUsers, datastores, storage wrappers, server handlers, configuration, throttling, shadow resolvers and batch checks.
- Timeouts of the changelog read, after which the controller changes nothing, and markers leaving the cache.
- InvalidateIfNeeded's guard against parallel invalidations and DetermineInvalidationTime's grace period: they would only add easy members.
