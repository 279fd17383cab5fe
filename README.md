# Regression check of the Exceptionless event pipeline

This project models `CheckForRegressionAction`, the event-pipeline action
(priority 30, after stack resolution) that detects regressions. A regression is
a new occurrence of an error whose stack was marked fixed before the occurrence
happened.

For a batch of event contexts the action:

- keeps the contexts whose resolved stack has a fix date earlier than the
  event's date;
- groups them by the event's stack id;
- for each group, using the ids of the group's first context:
  - marks the stack as regressed;
  - marks the stack's stored events as regressed;
  - drops the cached copy of the stack;
- walks the group in batch order, clearing the event's `IsFixed` flag and
  setting `IsRegression` on the first context only.

The model has six modules.

- `Wrappers` (`wrappers.dfy`): `Option`, standing for a nullable stack and a
  nullable fix date.
- `RegressionSpec` (`regression_spec.dfy`): the value-level meaning of one run.
  - `ContextView` is what the action reads and writes of a context and its
    event.
  - `Qualifies` is the filter, and `GroupKeys`/`GroupByStack` are the grouping.
    Groups come in the order in which each stack first appears, and each group
    lists the positions of its contexts in batch order, as LINQ's `GroupBy`
    yields them.
  - `ProcessedBatch` is the state the batch is left in.
  - `StackCalls`/`EventCalls` are the calls made to the two repositories, in
    call order.
- `RegressionSteps` (`regression_steps.dfy`): the batch after the first `g`
  groups have been handled. These lemmas connect the action's loops, one group
  at a time, to the value-level meaning.
- `CheckForRegression` (`check_for_regression_action.dfy`): the imperative
  action.
  - `Event` and `EventContext` are classes whose flags the action writes in
    place.
  - The repositories are classes that record every call made to them.
  - `ProcessBatch` has the outer loop over the groups. Its body is
    `ProcessGroup`, and the inner loop over one group is `FlagGroup`.
  - Each method is proved against the value-level functions applied to a
    snapshot of the batch taken before the call.
- `RegressionProperties` (`regression_properties.dfy`) and `RegressionExamples`
  (`regression_examples.dfy`): what a run promises, stated over all batches,
  and three concrete batches in the spirit of the pipeline's tests.

The code fixes which context of a group is "first": `stackGroup.First()`,
and `GroupBy` keeps the order of the source sequence, so it is the earliest
qualifying context of its stack in the batch. The model follows the code. The
pipeline's tests assert only counts, so they do not pin this down.

The action's `ContinueOnError` is `true` and its priority is 30. Both are
recorded as constants of `CheckForRegressionAction`.

## Model

| member | source | states |
|---|---|---|
| RegressionSpec.Qualifies | Source/Core/Pipeline/030_CheckForRegressionAction.cs:34 | the filter: the context has a stack, the stack has a fix date, and the fix date is strictly earlier than the event's date |
| RegressionSpec.GroupKeys | Source/Core/Pipeline/030_CheckForRegressionAction.cs:34 | the group keys: the stack ids of the qualifying contexts, each once, in the order of their first appearance in the batch |
| RegressionSpec.GroupByStack | Source/Core/Pipeline/030_CheckForRegressionAction.cs:34 | one group per stack key, each non-empty and starting at a qualifying context |
| RegressionSpec.GroupMembers | Source/Core/Pipeline/030_CheckForRegressionAction.cs:34 | a group holds only qualifying contexts of its own stack, in strictly ascending batch order |
| RegressionSpec.GroupKeysDistinct | Source/Core/Pipeline/030_CheckForRegressionAction.cs:34 | no stack id yields two groups |
| RegressionSpec.GroupKeysComplete | Source/Core/Pipeline/030_CheckForRegressionAction.cs:34 | the stack of every context that passes the filter has a group |
| RegressionSpec.GroupKeysWitnessed | Source/Core/Pipeline/030_CheckForRegressionAction.cs:34 | every group's stack is the stack of some context that passes the filter |
| RegressionSpec.GroupByStackPartitions | Source/Core/Pipeline/030_CheckForRegressionAction.cs:34 | every group is non-empty, holds only qualifying contexts whose event has the group's stack id, in batch order |
| RegressionSpec.GroupMembersComplete | Source/Core/Pipeline/030_CheckForRegressionAction.cs:34 | every qualifying context of a stack is among that stack's members |
| RegressionSpec.GroupByStackComplete | Source/Core/Pipeline/030_CheckForRegressionAction.cs:34 | every qualifying context sits in the group of its own stack |
| RegressionSpec.FirstOfStack | Source/Core/Pipeline/030_CheckForRegressionAction.cs:36 | context `i` qualifies and no earlier context of the batch qualifies with the same stack id |
| RegressionSpec.Processed | Source/Core/Pipeline/030_CheckForRegressionAction.cs:43-50 | a qualifying context ends with its event no longer fixed and flagged exactly when it is the first of its stack; any other context is unchanged |
| RegressionSpec.ProcessedBatch | Source/Core/Pipeline/030_CheckForRegressionAction.cs:34-50 | only `IsFixed` and `IsRegression` change; every qualifying event is no longer fixed; a context that does not qualify is left exactly as it was |
| RegressionSpec.GroupStackCalls | Source/Core/Pipeline/030_CheckForRegressionAction.cs:38-41 | the stack-repository calls of one group: `MarkAsRegressed` with the first context's `Stack.Id`, then `InvalidateCache` with its event's `ProjectId`, its event's `StackId` and its `SignatureHash` |
| RegressionSpec.GroupEventCalls | Source/Core/Pipeline/030_CheckForRegressionAction.cs:39 | the event-repository call of one group: `MarkAsRegressedByStack` with the first context's event's `OrganizationId` and its `Stack.Id` |
| RegressionSpec.RegressionCount | Source/Api.Tests/Pipeline/EventPipelineTests.cs:161 | the number of contexts whose `IsRegression` is set, as the test counts them |
| RegressionSpec.StackCalls | Source/Core/Pipeline/030_CheckForRegressionAction.cs:35-41 | two stack-repository calls per group |
| RegressionSpec.EventCalls | Source/Core/Pipeline/030_CheckForRegressionAction.cs:35-39 | one event-repository call per group |
| RegressionSpec.ExpectedStackCalls | Source/Core/Pipeline/030_CheckForRegressionAction.cs:35-41 | the whole stack-repository log of a batch: for each group in order, `MarkAsRegressed` with the first context's stack id, then `InvalidateCache` with its project id, event stack id and signature hash |
| RegressionSpec.ExpectedEventCalls | Source/Core/Pipeline/030_CheckForRegressionAction.cs:35-39 | the whole event-repository log of a batch: for each group in order, `MarkAsRegressedByStack` with the first context's organization id and stack id |
| RegressionSpec.QualifyingRegressionCount | Source/Core/Pipeline/030_CheckForRegressionAction.cs:48 | the number of qualifying contexts that are flagged as the regression |
| RegressionSteps.GroupLeaderIsFirstOfStack | Source/Core/Pipeline/030_CheckForRegressionAction.cs:36 | within a group, exactly the member at its first position is the earliest qualifying context of its stack in the batch |
| RegressionSteps.GroupStartsAtItsStack | Source/Core/Pipeline/030_CheckForRegressionAction.cs:34-36 | the first member of group `g` is a qualifying context of the `g`-th stack |
| RegressionSteps.GroupAscends | Source/Core/Pipeline/030_CheckForRegressionAction.cs:44 | the inner loop visits valid batch positions in strictly ascending order |
| RegressionSteps.CallsStep | Source/Core/Pipeline/030_CheckForRegressionAction.cs:35-41 | handling one more group appends exactly that group's calls, taken from its first context |
| RegressionSteps.HandledStep | Source/Core/Pipeline/030_CheckForRegressionAction.cs:43-50 | walking group `g` after the groups before it leaves the batch with the first `g + 1` stacks handled |
| RegressionSteps.HandledAll | Source/Core/Pipeline/030_CheckForRegressionAction.cs:35-51 | once every group has been handled, the batch is the processed batch |
| CheckForRegression.Snapshot | Source/Core/Pipeline/030_CheckForRegressionAction.cs:34-35 | the batch as the query sees it, one view per context in collection order; taken once on entry, before any flag is written |
| CheckForRegression.StackRepository.MarkAsRegressed | Source/Core/Pipeline/030_CheckForRegressionAction.cs:38 | the call is recorded with the stack's id and nothing else changes |
| CheckForRegression.EventRepository.MarkAsRegressedByStack | Source/Core/Pipeline/030_CheckForRegressionAction.cs:39 | the call is recorded with the organization id and the stack's id |
| CheckForRegression.StackRepository.InvalidateCache | Source/Core/Pipeline/030_CheckForRegressionAction.cs:41 | the call is recorded with the project id, the event's stack id and the signature hash |
| CheckForRegression.CheckForRegressionAction.constructor | Source/Core/Pipeline/030_CheckForRegressionAction.cs:26-29 | the action keeps the two repositories it is given |
| CheckForRegression.CheckForRegressionAction.ProcessBatch | Source/Core/Pipeline/030_CheckForRegressionAction.cs:33-52 | the contexts end in the processed state of the batch as it was on entry; each repository's log grows by exactly the calls of the groups, in group order |
| CheckForRegression.CheckForRegressionAction.ProcessGroup | Source/Core/Pipeline/030_CheckForRegressionAction.cs:36-50 | one group: the three calls carry the ids of the context at the group's first position, read from that context as it was on entry; then the group's flags are set as `FlagGroup` states |
| CheckForRegression.CheckForRegressionAction.FlagGroup | Source/Core/Pipeline/030_CheckForRegressionAction.cs:43-50 | every event of the group is no longer fixed, only the first context is the regression, and every context outside the group is unchanged |
| CheckForRegression.CheckForRegressionAction.Process | Source/Core/Pipeline/030_CheckForRegressionAction.cs:54 | the per-event step changes nothing |
| RegressionProperties.SelectedIffQualifies | Source/Core/Pipeline/030_CheckForRegressionAction.cs:34 | a context is in some group if and only if its stack has a fix date earlier than its event's date |
| RegressionProperties.FixedClearedExactlyWhenQualifying | Source/Core/Pipeline/030_CheckForRegressionAction.cs:45 | after the run an event is still fixed if and only if it was fixed and its context does not qualify |
| RegressionProperties.ProcessedKeepsGroups | Source/Core/Pipeline/030_CheckForRegressionAction.cs:34-50 | the run changes neither which contexts qualify nor their stack ids |
| RegressionProperties.OneRegressionPerStack | Source/Core/Pipeline/030_CheckForRegressionAction.cs:43-50 | for every stack with a qualifying context, exactly one of its qualifying contexts is the regression, and it is the earliest |
| RegressionProperties.ProcessedPrefix | Source/Core/Pipeline/030_CheckForRegressionAction.cs:34-50 | a context's outcome depends only on the contexts before it in the batch |
| RegressionProperties.LastIsFirstIffNewKey | Source/Core/Pipeline/030_CheckForRegressionAction.cs:34-36 | the last context is the first of its stack if and only if it qualifies and its stack has no group among the earlier contexts |
| RegressionProperties.FirstsInKeyOrder | Source/Core/Pipeline/030_CheckForRegressionAction.cs:34 | of two contexts that each come first for their stack, the earlier one's stack has the earlier group key |
| RegressionProperties.GroupsInFirstAppearanceOrder | Source/Core/Pipeline/030_CheckForRegressionAction.cs:34-35 | the groups are enumerated in the order in which their stacks first appear in the batch: group `g` starts before group `h` whenever `g < h` |
| RegressionProperties.QualifyingRegressionCountIsStackCount | Source/Core/Pipeline/030_CheckForRegressionAction.cs:43-50 | whatever the flags were before, the number of qualifying contexts flagged after the run equals the number of distinct stacks with a qualifying context |
| RegressionProperties.CountsAgree | Source/Core/Pipeline/030_CheckForRegressionAction.cs:48 | when only qualifying contexts are flagged, counting all flagged contexts gives the same number as counting the qualifying ones |
| RegressionProperties.RegressionCountIsStackCount | Source/Core/Pipeline/030_CheckForRegressionAction.cs:43-50 | with no context flagged beforehand, the number of regressions equals the number of distinct stacks with a qualifying context |
| RegressionProperties.CallsAt | Source/Core/Pipeline/030_CheckForRegressionAction.cs:36-41 | the calls for the `g`-th group carry the ids of that group's first context |
| RegressionProperties.CallsUseFirstContext | Source/Core/Pipeline/030_CheckForRegressionAction.cs:36-41 | the `g`-th group belongs to the `g`-th stack and starts at that stack's earliest qualifying context, whose stack id, organization id, project id and signature hash the three calls carry |
| RegressionProperties.CallCounts | Source/Core/Pipeline/030_CheckForRegressionAction.cs:35-41 | two stack-repository calls and one event-repository call per distinct qualifying stack |
| RegressionProperties.NoCallsIffNothingQualifies | Source/Core/Pipeline/030_CheckForRegressionAction.cs:34-41 | neither repository is called if and only if no context qualifies |
| RegressionProperties.StackTargetsAppend | Source/Core/Pipeline/030_CheckForRegressionAction.cs:38-41 | the stacks addressed by a sequence of calls split along concatenation |
| RegressionProperties.EventTargetsAppend | Source/Core/Pipeline/030_CheckForRegressionAction.cs:39 | the stacks addressed by a sequence of event calls split along concatenation |
| RegressionProperties.InvalidationsOfPrefix | Source/Core/Pipeline/030_CheckForRegressionAction.cs:35-41 | the cache invalidations for the first `n` groups address the first `n` stacks, in order |
| RegressionProperties.MarksOfPrefix | Source/Core/Pipeline/030_CheckForRegressionAction.cs:35-39 | with resolved stack ids, the regression marks for the first `n` groups address the first `n` stacks, in order, in both repositories |
| RegressionProperties.InvalidatesEachStackOnce | Source/Core/Pipeline/030_CheckForRegressionAction.cs:41 | the cached copy of each stack with a qualifying context is dropped exactly once, in group order, and no other cache entry is dropped |
| RegressionProperties.MarksEachStackOnce | Source/Core/Pipeline/030_CheckForRegressionAction.cs:38-39 | when contexts' stacks match their events' stack ids, each stack with a qualifying context, and its stored events, are marked as regressed exactly once, in group order |
| RegressionExamples.TwoOccurrencesAfterFix | Source/Api.Tests/Pipeline/EventPipelineTests.cs:150-162 | two new occurrences of a stack fixed earlier: one regression, one not, both events no longer fixed, one set of three calls |
| RegressionExamples.NewStackIsNoRegression | Source/Api.Tests/Pipeline/EventPipelineTests.cs:119-132 | two occurrences of one new stack, never fixed, are not regressions, are left unchanged and cause no calls |
| RegressionExamples.OccurrenceAtFixTime | Source/Core/Pipeline/030_CheckForRegressionAction.cs:34 | an event dated exactly at its stack's fix date does not qualify, because the comparison is strict |

## Left out

- The pipeline engine, its base-class error handling and the job host (`Source/JobRunner/Program.cs`) are not modelled. `ContinueOnError` is kept as the constant `true` and nothing else.
- What the repositories do with the calls is not modelled: storage, search and the cache. Each repository only records the calls made to it, in order. The two repositories keep separate logs, so the interleaving of their calls is not recorded. In the source, each group's event-repository call (line 39) comes between its two stack-repository calls (lines 38 and 41), and all three calls of one group come before any call of the next group.
- Because the repositories are not modelled, the test's second batch, which expects zero further regressions (`Source/Api.Tests/Pipeline/EventPipelineTests.cs:164-170`), is out of scope. That result depends on what the stored stack looks like after `MarkAsRegressed`.
- Trace logging (line 37) has no effect on state and is left out.
- `DateTimeOffset.UtcDateTime` conversion is not modelled. Event dates and fix dates are integers already on one UTC time line.
- A fault thrown by a repository is not modelled. The model covers only runs in which every call returns. In the source, such a fault leaves the loop over the groups, so the groups after the faulting one are neither marked nor flagged; only the pipeline's later actions go on.
- A null context in the collection, or a null event on a context whose stack has a fix date, makes the query on line 34 throw. The query is deferred, so it throws when the loop on line 35 first enumerates it, before any repository call or flag write. A null event on any other context is skipped without a fault, because the conditions short-circuit and the grouping key is read only for contexts that pass the filter. The model's class types are non-null, so none of these cases is modelled.
- CheckForRegression.CheckForRegressionAction.ProcessBatch: requires every context and every event to appear once in the batch. The source accepts any collection. If the same context appeared twice, its second visit would reset `IsRegression` to false; that case is not modelled.
- RegressionProperties.MarksEachStackOnce: requires that each context's resolved stack has the stack id its event names, as stack resolution earlier in the pipeline guarantees. The action itself groups by the event's stack id but passes the resolved stack's id.
- RegressionProperties.RegressionCountIsStackCount: requires that no context is flagged beforehand, as a fresh `EventContext` is. A context already flagged that does not qualify keeps its flag and is counted too. The count of flagged qualifying contexts needs no such condition (`QualifyingRegressionCountIsStackCount`).
