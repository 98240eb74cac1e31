# Session types in C++ templates, modelled in Dafny

The repository encodes binary session types as C++ template types. A protocol is
built from `Z` (end), `Send<T,P>`, `Recv<T,P>`, `Rec<P>`, `Var<n>`, `Choose<A,B>`
and `Offer<A,B>`. Each state names its `dual`. A `Chan<P, IT, OT, E>` handle
offers only the operations its state allows:

- `>>` on `Recv`, `<<` on `Send`;
- `enter` on `Rec`, which pushes the loop onto the environment `E`;
- `ret` on `Var`, which pops the environment;
- `choose1`/`choose2` on `Choose`.

Each operation first checks a single-use flag, which turns a reused handle into a
`ChannelReusedError`, and returns a fresh handle. Two threads talk through
`ConcurrentMedium`, a one-slot mailbox guarded by a mutex and two condition
variables. Its storage type, `ProtocolTypes<P>`, is computed from the protocol by a
walk over the protocol followed by order-preserving dedup. `connect` pairs a handle
at `P` with one at `dual(P)` over a single mailbox. The example program runs two
"doubler" roles over it for five rounds. test.cc also holds type-list utilities:
`RenameType`, `RenameAllOccurences`, `Cat` and `Flatten`.

The model makes the template encoding explicit:

- `session_types.dfy` (`SessionTypes`): the protocol grammar as a datatype, `Dual`,
  and `Next`, the typestate rule. `Next` gives the handle type an operation
  returns: the result type the specialisation declares, or `None` when no
  specialisation provides the operation or the declared result has no `Chan`
  class. For `ret` on `Var(k+1)` under a `Rec` head, `Next` follows the declared
  result `Var(k)`, although that body does not compile as written (see
  "## Findings"). `HasChan`
  says which handle types have a class: not `Offer`, whose specialisation is
  commented out, and not a `Var` under the default environment `Z`, since both `ret`
  specialisations match only a `std::pair`. The module also holds the laws of
  duality and of environment push and pop.
- `type_lists.dfy` (`TypeLists`): `OneOf` and the dedup `Unique`/`UniqueVariant`,
  proved against a first-occurrence specification.
- `concurrent_medium.dfy` (`ConcurrentMedium`): `ProtocolTypes`, proved against a
  forward walk, and the mailbox.
  - The mailbox rules are pure guards and effects (`CanPut`, `CanTake`,
    `AfterPut`, `AfterTake`).
  - `Medium` is a class with the source's fields and a ghost history of
    completed operations.
  - Blocking is read as "the step is not enabled": each method requires the
    guard its wait loop waits for.
- `channel.dfy` (`Channel`): the `Chan` class with its `used` flag. Each specialised
  operation is a method whose result handle is the one `Next` prescribes. Reuse is
  an `Err(ChannelReusedError)` result; a `std::get` on the wrong alternative is
  `Err(BadVariantAccess)`.
- `type_utils.dfy` (`TypeUtils`): C++ types as trees, with the renaming,
  concatenation and flattening metafunctions of test.cc.
- `roles.dfy` (`Roles`): `connect`, and the doubler two ways.
  - `RunDoubler` drives the `Chan` and `Medium` objects through one schedule.
  - A `World` state machine covers every schedule: each enabled step keeps one
    invariant, no reachable state is deadlocked, and every long enough schedule
    ends with `t1` having read `0, 2, 4, 6, 8`.

Two behaviours of the code are kept as written rather than as session types are
usually defined:

- `Choose<A,B>::dual` is `Offer<A,B>` with the branches not dualised (sesstypes.hh:68-76).
- No protocol is checked when it is defined. A `Var` that points past its loops is
  accepted as a type. What fails to compile is the operation whose result would be
  that `Var` under the default environment, because that type has no `Chan` class.
  `WellFormed` states the intended condition, and the model proves that it is
  enough and that every step preserves it.

`ProtocolTypes` adds the `Z` marker only when the walk ends in `Z`, not when it
stops at a `Var` (concurrentmedium.hh:40-58). So `ProtocolTypes<Protocol>` of the
doubler is `{int}` alone.

## Model

| member | source | states |
|---|---|---|
| `SessionTypes.DualInvolutive` | sesstypes.hh:12-76 | `dual` is an involution on every protocol, the un-dualised choice branches included |
| `SessionTypes.DualOfChooseKeepsBranches` | sesstypes.hh:68-76 | the dual of `Choose<A,B>` is `Offer<A,B>` and back, with `A` and `B` unchanged, so a `Send` branch stays a `Send` |
| `SessionTypes.ClosedDual` | sesstypes.hh:45-76 | dualising neither adds nor removes dangling back-references |
| `SessionTypes.NoOperationsAtEndOrOffer` | sesstypes.hh:196-212 | a handle at `Z`, or one with no `Chan` class, offers no operation; a handle at `Offer` has no class, and no operation leads to one |
| `SessionTypes.Next` | sesstypes.hh:92-193 | a step exists only from a handle that has a `Chan` class to one that has; `send` only on `Send`, `recv` only on `Recv`, `enter` only on `Rec`, `ret` only on `Var`, `choose1`/`choose2` only on `Choose`; `enter` pushes the loop onto the environment, `ret` needs a non-empty environment and pops it, every other operation keeps it |
| `SessionTypes.IncompleteResultsRejected` | sesstypes.hh:142-170 | `Send<T, Var<Z>>` outside any loop cannot send, `Recv<T, Offer<..>>` cannot receive, and `ret` on `Var(1)` under one loop does not compile, while the same send inside a loop does |
| `SessionTypes.RunAppend` | sesstypes.hh:92-193 | running two operation sequences one after the other is running their concatenation |
| `SessionTypes.RetThenEnterReentersBody` | sesstypes.hh:127-155 | `enter` on `Rec(P)` gives `P` with `Rec(P)` pushed; `ret` on `Var(0)` pops it, so `ret().enter()` is back in the body with the same environment; both fail to compile exactly when the body is an `Offer` |
| `SessionTypes.RetResolvesJump` | sesstypes.hh:142-170 | `Var(k)` under at least `k+1` entries reaches, after `k+1` calls of `ret`, the `k`-th enclosing entry with every inner level dropped, unless that entry has no `Chan` class |
| `SessionTypes.RetConstructedDisagreesWithDeclared` | sesstypes.hh:157-170 | for `Var(k+1)` with a loop as the enclosing entry, the handle the body of `ret` builds is never the declared `Var(k)` one |
| `SessionTypes.StepPreservesWellFormed` | sesstypes.hh:127-193 | every operation keeps a handle closed under its environment, with only `Rec` entries on that environment |
| `SessionTypes.WellFormedRetAvailable` | sesstypes.hh:142-170 | in a well-formed handle a `Var` state always has a non-empty environment, so `ret` exists |
| `SessionTypes.HasChanDual` | sesstypes.hh:68-76 | the peer of a handle has a `Chan` class exactly when the handle is not at `Choose` and is not a `Var` under the default environment |
| `SessionTypes.DualStepsInLockstep` | sesstypes.hh:45-170 | whatever a send, receive, `enter` or `ret` does to one end, the mirrored operation does to the dual end, environment included, unless the peer's result has no `Chan` class |
| `SessionTypes.ChoosePeerIsStuck` | sesstypes.hh:68-76 | the peer of a `Choose` end is at `Offer`: it has no `Chan` class and can make no move |
| `Channel.Chan.constructor` | sesstypes.hh:80-90 | a new handle, of a type that has a `Chan` class, has the given state, environment and transports, and is unused |
| `Channel.Chan.Copy` | sesstypes.hh:80-90 | the implicit copy has the same state, environment and transports, and its own `used` flag with the original's value |
| `Channel.Chan.Receive` | sesstypes.hh:95-109 | a used handle gives `ChannelReusedError` and the input is untouched; otherwise the handle becomes used, reads the waiting value, and a new unused handle at the `Next` state shares the transports, the waiting counters unchanged; a value of another alternative gives `BadVariantAccess` with the handle still consumed |
| `Channel.Chan.Send` | sesstypes.hh:111-125 | a used handle gives `ChannelReusedError` and writes nothing; otherwise exactly one value is written to the output, the waiting counters are unchanged, and a new unused handle at `Next` is returned |
| `Channel.Chan.Enter` | sesstypes.hh:127-140 | reuse is refused; otherwise the new handle has the body as state and the `Rec` pushed on its environment |
| `Channel.Chan.Ret` | sesstypes.hh:142-170 | reuse is refused; otherwise the environment is popped and the state is the enclosing entry for `Var(0)`, `Var(k)` for `Var(k+1)` |
| `Channel.Chan.Choose1` | sesstypes.hh:172-184 | reuse is refused; otherwise the first branch with the same environment, and no transport effect |
| `Channel.Chan.Choose2` | sesstypes.hh:186-193 | reuse is refused; otherwise the second branch with the same environment, and no transport effect |
| `Channel.ChoiceIsFinal` | sesstypes.hh:172-193 | after `choose1` the same object cannot also take `choose2` |
| `Channel.CopyEscapesReuseGuard` | sesstypes.hh:83-89 | a copy taken before `choose1` still takes `choose2`: the guard is per object, so both branches succeed |
| `TypeLists.OneOf` | concurrentmedium.hh:63-72 | `OneOf<T, variant<Ts...>>` holds exactly when `T` is among `Ts` |
| `TypeLists.UniqueElements` | concurrentmedium.hh:12-16 | the result holds exactly the elements of the accumulator and of the rest |
| `TypeLists.UniqueNoDup` | concurrentmedium.hh:12-16 | the result of `Unique` has no duplicates when its accumulator has none |
| `TypeLists.UniqueFirstOccurrenceOrder` | concurrentmedium.hh:12-16 | the result lists elements in the order of their first occurrence |
| `TypeLists.UniqueOfDistinct` | concurrentmedium.hh:12-16 | `Unique` is the identity on a duplicate-free pack |
| `TypeLists.UniqueVariantSpec` | concurrentmedium.hh:21-30 | `UniqueVariant`, which is also what `MakeUniqueVariant` yields, holds every input element exactly once, in first-occurrence order, and changes nothing on a duplicate-free pack |
| `TypeLists.UniqueVariantPattern` | test.cc:344 | for any four distinct types `a, b, c, d`, `UniqueVariant<a, b, a, b, c, b, d>` is `(a, b, c, d)` |
| `TypeLists.UniqueVariantExample` | test.cc:344 | `UniqueVariant<int, char, int, char, float, char, string>` is `(int, char, float, string)` |
| `ConcurrentMedium.ProtocolTypesImplReversesWalk` | concurrentmedium.hh:32-58 | the accumulator ends up holding the forward walk in reverse, ahead of what it held: payloads prepended, `Rec` entered, stop at `Var`, `Z` prepended at `Z` |
| `ConcurrentMedium.ProtocolTypesSpec` | concurrentmedium.hh:60-61 | `ProtocolTypes<P>` holds each payload type the walk meets, once, in first-occurrence order of the reversed walk |
| `ConcurrentMedium.ProtocolTypesOfDual` | concurrentmedium.hh:35-61 | a choice-free protocol and its dual give the same mailbox storage type |
| `ConcurrentMedium.ReadsFollowWrites` | concurrentmedium.hh:77-138 | in any history the mailbox allows, the values read are the values written, in order, and lag by at most the one in the slot; half the operations are takes |
| `ConcurrentMedium.PutEnabledIffAllRead` | concurrentmedium.hh:99-119 | a put is enabled exactly when every value written so far has been read |
| `ConcurrentMedium.Medium.constructor` | concurrentmedium.hh:92-93 | over distinct alternatives, the new mailbox counts as read, no writer is recorded, the first alternative is value-initialised, and both waiting counters are 0 |
| `ConcurrentMedium.Medium.ForProtocol` | test.cc:172-176 | `ConcurrentChannel<P>` is the same mailbox with storage `ProtocolTypes<P>` |
| `ConcurrentMedium.Medium.Put` | concurrentmedium.hh:99-119 | enabled only when the slot was read; stores the value, marks it unread, records the writer, appends one put to the history; the invariant is kept |
| `ConcurrentMedium.Medium.Take` | concurrentmedium.hh:121-138 | enabled only for an unread value another thread wrote; returns it and marks it read, leaving the value and writer in place; a value of another alternative returns nothing and changes nothing |
| `TypeUtils.RenameTypeLaws` | test.cc:36-45 | only the outermost template is replaced, the arguments are kept, and renaming back restores the type |
| `TypeUtils.RenameAllKeepsShape` | test.cc:47-75 | renaming every occurrence changes template names only: the tree shape and its plain types are kept |
| `TypeUtils.RenameAllRemovesOld` | test.cc:50-55 | after renaming to a different name no node built by the old template remains, at any depth |
| `TypeUtils.RenameAllRoundTrip` | test.cc:47-75 | when the new name was unused, renaming back gives the original tree, so other templates are untouched |
| `TypeUtils.RenameAllIdentity` | test.cc:65-70 | a tree without the old template is left as it is |
| `TypeUtils.CatIsConcat` | test.cc:77-90 | `Cat` of tuples is their concatenation, left to right |
| `TypeUtils.CatExample` | test.cc:348-349 | `Cat<(int,long),(string,char),(double)>` is `(int,long,string,char,double)` |
| `TypeUtils.FlattenImplItems` | test.cc:92-111 | `FlattenImpl` after the renaming pass is the head followed by the items of each argument, with tuple arguments opened recursively |
| `TypeUtils.FlattenSpec` | test.cc:113-125 | `Flatten<A<Ts...>>` is `A` applied to the items of its arguments: every `A` or tuple node below the root is opened |
| `TypeUtils.FlattenIsFlat` | test.cc:113-125 | no argument of the result is an `A` or a tuple, and `A` occurs only at the root |
| `TypeUtils.FlattenOfFlat` | test.cc:113-125 | a flat input is returned unchanged |
| `TypeUtils.FlattenIdempotent` | test.cc:113-125 | flattening twice is flattening once |
| `TypeUtils.FlattenKeepsLeaves` | test.cc:92-125 | flattening keeps the plain types and their left-to-right order |
| `TypeUtils.FlattenExamples` | test.cc:351-367 | the listed cases: `tuple<>` stays empty, `variant<int>` is unchanged, nested variants of `int` and `double` become `variant<int, double>` or `variant<int>`, a flat variant is unchanged |
| `Roles.ProtocolFacts` | example_concurrent.cc:7-7 | `Protocol` and its peer are duals and well formed, and `ProtocolTypes` of either is `{int}` |
| `Roles.Connect` | concurrentmedium.hh:154-162 | for a `P` whose two ends both have a `Chan` class, one unused handle at `P` and one at `dual(P)`, both with the empty environment, both on the same medium, each the other's dual |
| `Roles.TracesAccepted` | example_concurrent.cc:17-53 | for any number of rounds `t1`'s trace on `Protocol` and `t2`'s on its dual are accepted and end in the loop body under one loop, never at `Z` |
| `Roles.DoublerLogAlternates` | example_concurrent.cc:23-46 | every prefix of the doubler's mailbox history is one the mailbox allows |
| `Roles.DoublerLogWriters` | example_concurrent.cc:23-46 | the writers alternate `T1`, `T2`, `T1`, ... |
| `Roles.DoublerLogFacts` | example_concurrent.cc:22-49 | the full run has ten puts and ten takes, and every value written is read |
| `Roles.Restart` | example_concurrent.cc:31 | `c2.ret().enter()` is back at the loop body under the same environment, on the same transports, with a fresh handle |
| `Roles.Exchange1` | example_concurrent.cc:24-43 | `t1` puts `i` and `t2` reads `i`; with the two handles moved on, two events appended |
| `Roles.Exchange2` | example_concurrent.cc:28-46 | `t2` puts `val * 2` and `t1` reads `2 * i`; two events appended |
| `Roles.DoublerRound` | example_concurrent.cc:23-49 | one round of both loops extends the history by the round's four events and brings both handles back, unused, to the loop body |
| `Roles.DoublerStart` | example_concurrent.cc:105-107 | `main`'s mailbox has storage `{int}`, and after `connect` and the first `enter` both handles are at their loop bodies |
| `Roles.RunDoubler` | example_concurrent.cc:105-110 | with no handle reused, `t1` reads `0, 2, 4, 6, 8`, both final handles are unused in the loop body, and the history is the doubler's twenty events |
| `Roles.HandlesDual` | example_concurrent.cc:19-39 | at every point of their programs the two handles are each other's duals |
| `Roles.HandleOffersOp` | example_concurrent.cc:22-49 | at every point of either role's program its handle type offers the operation the role performs next, and leads to the handle of the following point |
| `Roles.InitInv` | concurrentmedium.hh:158-161 | the state right after `connect` satisfies the invariant |
| `Roles.LeaderStepInv` | example_concurrent.cc:22-31 | every enabled step of `t1` keeps the invariant and advances `t1` alone by one step |
| `Roles.LeaderPutInv` | example_concurrent.cc:24 | `t1`'s put `c << i` at the loop head keeps the invariant |
| `Roles.LeaderTakeInv` | example_concurrent.cc:28 | `t1`'s take `c1 >> val` reads `2 * i` and keeps the invariant |
| `Roles.ReplierStepInv` | example_concurrent.cc:40-49 | every enabled step of `t2` keeps the invariant and advances `t2` alone by one step |
| `Roles.ReplierTakeInv` | example_concurrent.cc:43 | `t2`'s take `c >> val` reads the `i` that `t1` put and keeps the invariant |
| `Roles.ReplierPutInv` | example_concurrent.cc:46 | `t2`'s put `c1 << val * 2` keeps the invariant |
| `Roles.StepPreservesInv` | example_concurrent.cc:22-49 | any enabled step of either role keeps the invariant and leaves fewer steps to go |
| `Roles.SlotHoldsInt` | concurrentmedium.hh:130 | in every reachable state the mailbox holds an `int`, so `std::get<int>` never throws |
| `Roles.NoDeadlock` | example_concurrent.cc:105-109 | until both roles have left their loops one of them can move, so both joins are reached |
| `Roles.FinishedFacts` | example_concurrent.cc:22-49 | when both roles are done, `t1` has read `0, 2, 4, 6, 8`, `t2` has read `0, 1, 2, 3, 4`, and the history is the doubler's |
| `Roles.PickPreservesInv` | example_concurrent.cc:105-109 | whichever role the scheduler runs keeps the invariant and leaves fewer steps to go; when neither role can run, both are done |
| `Roles.ScheduleInv` | example_concurrent.cc:105-109 | whatever the scheduler picks the invariant holds, and enough picks finish both roles |
| `Roles.EverySchedule` | example_concurrent.cc:105-110 | every schedule of at least 42 picks ends with both roles done, `t2` having read `0, 1, 2, 3, 4`, `t1` having read `0, 2, 4, 6, 8`, both handles in their loop bodies, and the doubler's twenty-event history |

## Left out

- The mutex, the condition variables, `notify_one`, and the spurious-wakeup loops
  are not modelled: there is no real concurrency. A wait is a `requires` on the
  guard it waits for. In the `World` model, the scheduler simply does not pick a
  blocked role.
- `ConcurrentMedium.Medium.Put`, `ConcurrentMedium.Medium.Take`: the waiting
  counters are fields. Every completed operation leaves them as it found them,
  because each increment is undone after the wait it guards. The intermediate
  values seen by other threads are not modelled.
- Thread identities are plain numbers passed to each operation.
  `std::this_thread::get_id()` is that parameter. The default id stored before the
  first put is `None`.
- `std::thread` creation and joining inside `connect`, and copying the handles into
  the threads, are not modelled. `Roles.Connect` returns the two handles. A copy of
  a handle is `Channel.Chan.Copy`, whose reuse flag is its own.
- Logging (`log`, `printf`, `io_lock`) is output only and is left out.
- example_io.cc, main.cc and chan.hh are not part of this model. The first two are
  console drivers over `std::cin`/`std::cout`; chan.hh holds an unused, incomplete
  union.
- Channel operations at `Offer` do not exist in the source (the specialisation is
  commented out), so none are modelled. `choose1`/`choose2` send nothing.
- The operators of test.cc's `ConcurrentChannel` (test.cc:182-221) accept any `T`,
  so a value convertible to an alternative compiles there. The model has no
  conversions: `ConcurrentMedium.Medium.Put` and `Take` require the exact
  alternative, as concurrentmedium.hh's `AssignableToVariant` constraint does.
- C++ type-level machinery is not modelled: concepts, partial specialisation,
  overload resolution, and the `IsNat` check. Payload types are tags with equality,
  and the unary naturals are Dafny's `nat`. A missing specialisation is a `requires`
  on the state, or a `None` from `Next`.
- `SessionTypes.Next`, `Channel.Chan.Ret`: for `ret` on `Var(k+1)` under a `Rec`
  head (for example `Var(1)` under `[Rec(End), Rec(End)]`) the step gives the
  declared `Var(k)`. In the source that call does not compile, because the body
  builds a different type (see "## Findings"). The model keeps the declared type,
  which is the one the code evidently intends.
- The stream operators on the transports are read as a single put or take on the
  shared mailbox. `std::istream`/`std::ostream` and manipulator overloads are left out.
- Payload contents are unbounded integers. The doubler's values stay far below
  `int`'s range, so wrap-around plays no part.
- `t1_v3` has the same body as `t1`, so `Roles.TracesAccepted` and the `World`
  leader cover it too.
- `Roles.Exchange1`, `Roles.Exchange2`, `Roles.Restart`, and the other methods
  whose contracts use `fresh`: these state the new heap objects. Their properties as
  values are the lemmas about `Next` and `DoublerLog`.
- The type-list utilities work on type trees in which a template instance has only
  type arguments. Templates with non-type parameters, and the `std::basic_string`
  expansion behind `std::string`, are not modelled.

## Findings

| source | as written | input that shows it | evidently intended | confidence | as-written member | corrected member |
|---|---|---|---|---|---|---|
| sesstypes.hh:162-168 | `ret` on `Var<Succ<T>>` declares the result `Chan<Var<T>, IT, OT, E>` but returns `Chan<P, IT, OT, E>`, the enclosing loop entry (`SessionTypes.RetAsConstructed`). The two types differ and neither converts to the other, so a call of this `ret` fails to compile whenever the enclosing entry is a loop `Rec<..>`, as every entry pushed by `enter` is. Only a hand-built environment whose head is `Var<T>` itself escapes. | `Var(1)` under the environment `[Rec(End), Rec(End)]`: the body builds a handle at `Rec(End)`; the declared type is `Var(0)` | return the declared `Var<T>` with one environment level popped, so that `k+1` calls of `ret` resolve `Var(k)` | not executed | `SessionTypes.RetConstructedDisagreesWithDeclared` | `SessionTypes.RetResolvesJump` |
