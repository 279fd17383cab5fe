/**
 * The pipeline action that detects regressions: events that arrive for a stack
 * after that stack was marked fixed. Event contexts and events are objects whose
 * flags the action sets in place; the two repositories are objects that record
 * the calls made to them.
 */
module CheckForRegression {
  import opened Wrappers
  import opened RegressionSpec
  import opened RegressionSteps

  /** An event occurrence; the action only ever writes `isFixed`. */
  class Event {
    var date: int
    var stackId: Id
    var organizationId: Id
    var projectId: Id
    var isFixed: bool

    constructor (date: int, stackId: Id, organizationId: Id, projectId: Id, isFixed: bool)
      ensures this.date == date && this.stackId == stackId && this.isFixed == isFixed
      ensures this.organizationId == organizationId && this.projectId == projectId
    {
      this.date := date;
      this.stackId := stackId;
      this.organizationId := organizationId;
      this.projectId := projectId;
      this.isFixed := isFixed;
    }
  }

  /** The per-event wrapper of one pipeline run; the action only ever writes `isRegression`. */
  class EventContext {
    const event: Event
    var stack: Option<Stack>
    var signatureHash: string
    var isRegression: bool

    constructor (event: Event)
      ensures this.event == event && stack == None && signatureHash == "" && !isRegression
    {
      this.event := event;
      stack := None;
      signatureHash := "";
      isRegression := false;
    }
  }

  /** What the action sees of `c` and of its event. */
  function View(c: EventContext): ContextView
    reads c, c.event
  {
    ContextView(c.stack, c.event.date, c.event.stackId, c.event.organizationId, c.event.projectId,
                c.signatureHash, c.event.isFixed, c.isRegression)
  }

  /** The events wrapped by a batch of contexts. */
  function Events(contexts: seq<EventContext>): set<Event> {
    set c | c in contexts :: c.event
  }

  /** The current state of a batch, position by position. */
  function Snapshot(contexts: seq<EventContext>): (s: seq<ContextView>)
    reads contexts, Events(contexts)
    ensures |s| == |contexts|
  {
    if contexts == [] then []
    else
      var prefix := contexts[..|contexts| - 1];
      assert Events(prefix) <= Events(contexts);
      Snapshot(prefix) + [View(contexts[|contexts| - 1])]
  }

  /** Position `i` of the snapshot is what the action sees of the context at position `i`. */
  lemma {:induction false} SnapshotAt(contexts: seq<EventContext>, i: nat)
    requires i < |contexts|
    ensures Snapshot(contexts)[i] == View(contexts[i])
  {
    if i < |contexts| - 1 {
      var prefix := contexts[..|contexts| - 1];
      assert prefix[i] == contexts[i];
      SnapshotAt(prefix, i);
    }
  }

  /** Every context of the batch, and every event, appears once: each context wraps its own event. */
  predicate DistinctContexts(contexts: seq<EventContext>) {
    forall i, j :: 0 <= i < |contexts| && 0 <= j < |contexts| && i != j ==>
      contexts[i] != contexts[j] && contexts[i].event != contexts[j].event
  }

  /** The stack store as far as this action uses it: it records every call made to it. */
  class StackRepository {
    var calls: seq<StackCall>

    constructor ()
      ensures calls == []
    {
      calls := [];
    }

    method MarkAsRegressed(stackId: Id)
      modifies this
      ensures calls == old(calls) + [MarkAsRegressedCall(stackId)]
    {
      calls := calls + [MarkAsRegressedCall(stackId)];
    }

    method InvalidateCache(projectId: Id, stackId: Id, signatureHash: string)
      modifies this
      ensures calls == old(calls) + [InvalidateCacheCall(projectId, stackId, signatureHash)]
    {
      calls := calls + [InvalidateCacheCall(projectId, stackId, signatureHash)];
    }
  }

  /** The event store as far as this action uses it: it records every call made to it. */
  class EventRepository {
    var calls: seq<EventCall>

    constructor ()
      ensures calls == []
    {
      calls := [];
    }

    method MarkAsRegressedByStack(organizationId: Id, stackId: Id)
      modifies this
      ensures calls == old(calls) + [MarkAsRegressedByStackCall(organizationId, stackId)]
    {
      calls := calls + [MarkAsRegressedByStackCall(organizationId, stackId)];
    }
  }

  class CheckForRegressionAction {
    /** The action runs at priority 30, after stack resolution. */
    const Priority: int := 30
    /**
     * A fault is left to the pipeline, which goes on with its later actions; the
     * groups of this batch after the faulting one are then neither marked nor flagged.
     */
    const ContinueOnError: bool := true

    const stackRepository: StackRepository
    const eventRepository: EventRepository

    constructor (stackRepository: StackRepository, eventRepository: EventRepository)
      ensures this.stackRepository == stackRepository && this.eventRepository == eventRepository
    {
      this.stackRepository := stackRepository;
      this.eventRepository := eventRepository;
    }

    /**
     * Selects the contexts whose stack was fixed before their event, groups them by
     * the event's stack id and, per group, marks the stack and its stored events as
     * regressed and drops the cached stack, all with the ids of the group's first
     * context; then clears `isFixed` on every event of the group and flags only the
     * group's first context as the regression.
     */
    method ProcessBatch(contexts: seq<EventContext>)
      requires DistinctContexts(contexts)
      modifies contexts, Events(contexts), stackRepository, eventRepository
      ensures Snapshot(contexts) == ProcessedBatch(old(Snapshot(contexts)))
      ensures stackRepository.calls == old(stackRepository.calls) + ExpectedStackCalls(old(Snapshot(contexts)))
      ensures eventRepository.calls == old(eventRepository.calls) + ExpectedEventCalls(old(Snapshot(contexts)))
    {
      // The selection is evaluated once, before any flag is written; the loop
      // never writes a field the selection reads.
      var batch := Snapshot(contexts);
      var stacks := GroupByStack(batch);
      ghost var keys := GroupKeys(batch);
      ghost var stackCalls0, eventCalls0 := stackRepository.calls, eventRepository.calls;
      assert HandledUpTo(batch, keys[..0]) == batch;
      var g := 0;
      while g < |stacks|
        invariant 0 <= g <= |stacks|
        invariant stackRepository.calls == stackCalls0 + StackCalls(batch, stacks[..g])
        invariant eventRepository.calls == eventCalls0 + EventCalls(batch, stacks[..g])
        invariant Snapshot(contexts) == HandledUpTo(batch, keys[..g])
      {
        var stackGroup := stacks[g];
        ghost var first := batch[stackGroup[0]];
        ghost var view := View(contexts[stackGroup[0]]);
        SnapshotAt(contexts, stackGroup[0]);
        HandledKeepsIds(batch, keys[..g], stackGroup[0]);
        assert view.(isFixed := first.isFixed, isRegression := first.isRegression) == first;
        GroupAscends(batch, g);
        ProcessGroup(contexts, stackGroup);
        assert GroupStackCalls(view) == GroupStackCalls(first) && GroupEventCalls(view) == GroupEventCalls(first);
        CallsStep(batch, g);
        AppendAssociates(stackCalls0, StackCalls(batch, stacks[..g]), GroupStackCalls(first));
        AppendAssociates(eventCalls0, EventCalls(batch, stacks[..g]), GroupEventCalls(first));
        HandledStep(batch, g);
        g := g + 1;
      }
      HandledAll(batch);
      assert keys[..g] == keys && stacks[..g] == stacks;
    }

    /**
     * The body of the loop over the stack groups. With the ids of the group's
     * first context, the stack and the group's stored events are marked as
     * regressed and the cached stack is dropped; then every event of the group
     * is no longer fixed and only the group's first context is the regression.
     */
    method ProcessGroup(contexts: seq<EventContext>, stackGroup: seq<nat>)
      requires DistinctContexts(contexts)
      requires |stackGroup| > 0 && forall a :: 0 <= a < |stackGroup| ==> stackGroup[a] < |contexts|
      requires forall a, b :: 0 <= a < b < |stackGroup| ==> stackGroup[a] < stackGroup[b]
      requires contexts[stackGroup[0]].stack.Some?
      modifies contexts, Events(contexts), stackRepository, eventRepository
      ensures Snapshot(contexts) == FlaggedGroup(old(Snapshot(contexts)), stackGroup)
      ensures stackRepository.calls == old(stackRepository.calls) + GroupStackCalls(old(View(contexts[stackGroup[0]])))
      ensures eventRepository.calls == old(eventRepository.calls) + GroupEventCalls(old(View(contexts[stackGroup[0]])))
    {
      // The stack, ids and signature hash of the group's first context; the
      // action never writes these fields.
      var context := contexts[stackGroup[0]];
      label Start:
      stackRepository.MarkAsRegressed(context.stack.value.id);
      eventRepository.MarkAsRegressedByStack(context.event.organizationId, context.stack.value.id);
      stackRepository.InvalidateCache(context.event.projectId, context.event.stackId, context.signatureHash);
      assert unchanged@Start(contexts) && unchanged@Start(Events(contexts));
      assert Snapshot(contexts) == old(Snapshot(contexts));
      label Calls:
      FlagGroup(contexts, stackGroup);
      assert unchanged@Calls(stackRepository, eventRepository);
    }

    /**
     * The inner loop over one group: every event of the group is no longer fixed
     * and only the context at the group's first position is the regression.
     */
    method FlagGroup(contexts: seq<EventContext>, stackGroup: seq<nat>)
      requires DistinctContexts(contexts)
      requires forall a :: 0 <= a < |stackGroup| ==> stackGroup[a] < |contexts|
      requires forall a, b :: 0 <= a < b < |stackGroup| ==> stackGroup[a] < stackGroup[b]
      modifies contexts, Events(contexts)
      ensures Snapshot(contexts) == FlaggedGroup(old(Snapshot(contexts)), stackGroup)
    {
      ghost var before := Snapshot(contexts);
      forall i | 0 <= i < |contexts| ensures before[i] == View(contexts[i]) {
        SnapshotAt(contexts, i);
      }
      var isFirstEvent := true;
      var j := 0;
      while j < |stackGroup|
        invariant 0 <= j <= |stackGroup|
        invariant isFirstEvent == (j == 0)
        invariant forall i :: 0 <= i < |contexts| ==>
          View(contexts[i]) == if i in stackGroup[..j]
            then before[i].(isFixed := false, isRegression := i == stackGroup[0])
            else before[i]
      {
        var ctx := contexts[stackGroup[j]];
        ctx.event.isFixed := false;
        ctx.isRegression := isFirstEvent;
        isFirstEvent := false;
        assert stackGroup[..j + 1] == stackGroup[..j] + [stackGroup[j]];
        j := j + 1;
      }
      assert stackGroup[..j] == stackGroup;
      forall i | 0 <= i < |contexts| ensures Snapshot(contexts)[i] == FlaggedGroup(before, stackGroup)[i] {
        SnapshotAt(contexts, i);
      }
    }

    /** The per-event step does nothing: the whole effect of the action is in `ProcessBatch`. */
    method Process(ctx: EventContext)
      ensures View(ctx) == old(View(ctx))
    {
    }
  }

  lemma AppendAssociates<T>(a: seq<T>, b: seq<T>, c: seq<T>)
    ensures (a + b) + c == a + (b + c)
  {
  }
}
