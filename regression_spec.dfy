/**
 * The value-level meaning of the regression check of the event pipeline.
 *
 * One batch is a sequence of `ContextView`s, the part of each event context the
 * action reads or writes. The selection on line 34 of the action (keep the
 * contexts whose stack was fixed before the event happened, then group them by
 * the event's stack id) is `GroupKeys` / `GroupByStack`; the state the batch is
 * left in is `ProcessedBatch`; the repository calls issued are `StackCalls` and
 * `EventCalls`.
 */
module RegressionSpec {
  import opened Wrappers

  type Id = string

  /** The part of a stack the action reads: its id and when it was marked fixed (UTC ticks). */
  datatype Stack = Stack(id: Id, dateFixed: Option<int>)

  /** What the action sees of one event context and of the event it wraps. */
  datatype ContextView = ContextView(
    stack: Option<Stack>,    // EventContext.Stack (None for null)
    date: int,               // Event.Date, already normalised to UTC ticks
    stackId: Id,             // Event.StackId, the grouping key
    organizationId: Id,      // Event.OrganizationId
    projectId: Id,           // Event.ProjectId
    signatureHash: string,   // EventContext.SignatureHash
    isFixed: bool,           // Event.IsFixed
    isRegression: bool)      // EventContext.IsRegression

  /** A context takes part in the check when its stack was fixed strictly before the event's date. */
  predicate Qualifies(v: ContextView) {
    v.stack.Some? && v.stack.value.dateFixed.Some? && v.stack.value.dateFixed.value < v.date
  }

  /** A qualifying context whose event belongs to stack `k`. */
  predicate InGroup(v: ContextView, k: Id) {
    Qualifies(v) && v.stackId == k
  }

  /**
   * The keys of the stack groups, in the order in which each first occurs
   * among the qualifying contexts (the order in which grouping yields its groups).
   */
  function GroupKeys(s: seq<ContextView>): seq<Id> {
    if s == [] then []
    else
      var ks := GroupKeys(s[..|s| - 1]);
      var last := s[|s| - 1];
      if Qualifies(last) && last.stackId !in ks then ks + [last.stackId] else ks
  }

  /** No stack has two groups. */
  lemma {:induction false} GroupKeysDistinct(s: seq<ContextView>)
    ensures forall a, b :: 0 <= a < b < |GroupKeys(s)| ==> GroupKeys(s)[a] != GroupKeys(s)[b]
  {
    if s != [] {
      GroupKeysDistinct(s[..|s| - 1]);
    }
  }

  /** The stack of every qualifying context has a group. */
  lemma {:induction false} GroupKeysComplete(s: seq<ContextView>, i: nat)
    requires i < |s| && Qualifies(s[i])
    ensures s[i].stackId in GroupKeys(s)
  {
    var p := s[..|s| - 1];
    if i < |s| - 1 {
      assert p[i] == s[i];
      GroupKeysComplete(p, i);
    }
  }

  /** Every group's stack is the stack of some qualifying context. */
  lemma {:induction false} GroupKeysWitnessed(s: seq<ContextView>, k: Id)
    requires k in GroupKeys(s)
    ensures exists i :: 0 <= i < |s| && InGroup(s[i], k)
  {
    var p := s[..|s| - 1];
    if k in GroupKeys(p) {
      GroupKeysWitnessed(p, k);
      var i :| 0 <= i < |p| && InGroup(p[i], k);
      assert p[i] == s[i];
    } else {
      assert InGroup(s[|s| - 1], k);
    }
  }

  /** The positions of the contexts in the group of stack `k`, in batch order. */
  function GroupMembers(s: seq<ContextView>, k: Id): (m: seq<nat>)
    ensures forall a :: 0 <= a < |m| ==> m[a] < |s| && InGroup(s[m[a]], k)
    ensures forall a, b :: 0 <= a < b < |m| ==> m[a] < m[b]
  {
    if s == [] then []
    else
      var p := s[..|s| - 1];
      var m := GroupMembers(p, k);
      assert forall i :: 0 <= i < |p| ==> p[i] == s[i];
      if InGroup(s[|s| - 1], k) then m + [|s| - 1] else m
  }

  /**
   * The filter-then-group selection: one group per key of `GroupKeys`, each
   * holding the positions of that stack's contexts in batch order.
   * `GroupByStackPartitions` states what the groups hold.
   */
  function GroupByStack(s: seq<ContextView>): (groups: seq<seq<nat>>)
    ensures |groups| == |GroupKeys(s)|
    ensures GroupsStartQualifying(s, groups)
  {
    var ks := GroupKeys(s);
    assert forall g :: 0 <= g < |ks| ==> |GroupMembers(s, ks[g])| > 0 by {
      forall g | 0 <= g < |ks| ensures |GroupMembers(s, ks[g])| > 0 {
        assert ks[g] in ks;
        GroupKeysWitnessed(s, ks[g]);
        var i :| 0 <= i < |s| && InGroup(s[i], ks[g]);
        GroupMembersComplete(s, ks[g], i);
      }
    }
    seq(|ks|, g requires 0 <= g < |ks| => GroupMembers(s, ks[g]))
  }

  /**
   * Every group is non-empty and holds only contexts of its own key, in batch
   * order; `GroupByStackComplete` adds that it holds all of them.
   */
  lemma GroupByStackPartitions(s: seq<ContextView>)
    ensures forall g :: 0 <= g < |GroupByStack(s)| ==> |GroupByStack(s)[g]| > 0
    ensures forall g, a :: 0 <= g < |GroupByStack(s)| && 0 <= a < |GroupByStack(s)[g]| ==>
      GroupByStack(s)[g][a] < |s| && InGroup(s[GroupByStack(s)[g][a]], GroupKeys(s)[g])
    ensures forall g, a, b :: 0 <= g < |GroupByStack(s)| && 0 <= a < b < |GroupByStack(s)[g]| ==>
      GroupByStack(s)[g][a] < GroupByStack(s)[g][b]
  {
  }

  /** Every context of stack `k` is a member of that stack's group. */
  lemma {:induction false} GroupMembersComplete(s: seq<ContextView>, k: Id, i: nat)
    requires i < |s| && InGroup(s[i], k)
    ensures i in GroupMembers(s, k)
  {
    var p := s[..|s| - 1];
    if i < |s| - 1 {
      assert p[i] == s[i];
      GroupMembersComplete(p, k, i);
    }
  }

  /** A qualifying context sits in the group of its own stack. */
  lemma GroupByStackComplete(s: seq<ContextView>, g: nat, i: nat)
    requires g < |GroupByStack(s)| && i < |s| && InGroup(s[i], GroupKeys(s)[g])
    ensures i in GroupByStack(s)[g]
  {
    GroupMembersComplete(s, GroupKeys(s)[g], i);
  }

  /** Context `i` qualifies and no earlier context of the batch qualifies for the same stack. */
  predicate FirstOfStack(s: seq<ContextView>, i: nat)
    requires i < |s|
  {
    Qualifies(s[i]) && forall j :: 0 <= j < i ==> !InGroup(s[j], s[i].stackId)
  }

  /** The state of context `i` once the batch has been processed. */
  function Processed(s: seq<ContextView>, i: nat): ContextView
    requires i < |s|
  {
    if Qualifies(s[i]) then s[i].(isFixed := false, isRegression := FirstOfStack(s, i)) else s[i]
  }

  /**
   * The batch once processed: only the two flags can change, every qualifying
   * event is no longer fixed, and a context that does not qualify is left as it was.
   */
  function ProcessedBatch(s: seq<ContextView>): (r: seq<ContextView>)
    ensures |r| == |s|
    ensures forall i :: 0 <= i < |s| ==> r[i].(isFixed := s[i].isFixed, isRegression := s[i].isRegression) == s[i]
    ensures forall i :: 0 <= i < |s| && Qualifies(s[i]) ==> !r[i].isFixed
    ensures forall i :: 0 <= i < |s| && !Qualifies(s[i]) ==> r[i] == s[i]
  {
    seq(|s|, i requires 0 <= i < |s| => Processed(s, i))
  }

  /** The number of contexts flagged as a regression. */
  function RegressionCount(r: seq<ContextView>): nat {
    if r == [] then 0
    else RegressionCount(r[..|r| - 1]) + (if r[|r| - 1].isRegression then 1 else 0)
  }

  /** The number of qualifying contexts flagged as a regression. */
  function QualifyingRegressionCount(r: seq<ContextView>): nat {
    if r == [] then 0
    else
      var last := r[|r| - 1];
      QualifyingRegressionCount(r[..|r| - 1]) + (if Qualifies(last) && last.isRegression then 1 else 0)
  }

  /** A call made to the stack repository. */
  datatype StackCall =
    | MarkAsRegressedCall(stackId: Id)
    | InvalidateCacheCall(projectId: Id, stackId: Id, signatureHash: string)

  /** A call made to the event repository. */
  datatype EventCall = MarkAsRegressedByStackCall(organizationId: Id, stackId: Id)

  /** Every group is non-empty and starts at a qualifying position of `s`. */
  predicate GroupsStartQualifying(s: seq<ContextView>, groups: seq<seq<nat>>) {
    forall g :: 0 <= g < |groups| ==> |groups[g]| > 0 && groups[g][0] < |s| && Qualifies(s[groups[g][0]])
  }

  /** The stack-repository calls of one group, all taken from its first context. */
  function GroupStackCalls(first: ContextView): seq<StackCall>
    requires first.stack.Some?
  {
    [MarkAsRegressedCall(first.stack.value.id),
     InvalidateCacheCall(first.projectId, first.stackId, first.signatureHash)]
  }

  /** The event-repository call of one group, taken from its first context. */
  function GroupEventCalls(first: ContextView): seq<EventCall>
    requires first.stack.Some?
  {
    [MarkAsRegressedByStackCall(first.organizationId, first.stack.value.id)]
  }

  /** The stack-repository calls for `groups`, group after group. */
  function StackCalls(s: seq<ContextView>, groups: seq<seq<nat>>): (calls: seq<StackCall>)
    requires GroupsStartQualifying(s, groups)
    ensures |calls| == 2 * |groups|
  {
    if groups == [] then []
    else StackCalls(s, groups[..|groups| - 1]) + GroupStackCalls(s[groups[|groups| - 1][0]])
  }

  /** The event-repository calls for `groups`, group after group. */
  function EventCalls(s: seq<ContextView>, groups: seq<seq<nat>>): (calls: seq<EventCall>)
    requires GroupsStartQualifying(s, groups)
    ensures |calls| == |groups|
  {
    if groups == [] then []
    else EventCalls(s, groups[..|groups| - 1]) + GroupEventCalls(s[groups[|groups| - 1][0]])
  }

  /** Everything the batch asks of the stack repository. */
  function ExpectedStackCalls(s: seq<ContextView>): seq<StackCall> {
    StackCalls(s, GroupByStack(s))
  }

  /** Everything the batch asks of the event repository. */
  function ExpectedEventCalls(s: seq<ContextView>): seq<EventCall> {
    EventCalls(s, GroupByStack(s))
  }
}
