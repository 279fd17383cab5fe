/**
 * What one run of the regression check promises about a batch: which contexts
 * take part, which flags change, how many regressions are reported and which
 * repository calls are made.
 */
module RegressionProperties {
  import opened Wrappers
  import opened RegressionSpec
  import opened RegressionSteps

  /** A context lands in one of the stack groups exactly when it qualifies. */
  lemma SelectedIffQualifies(s: seq<ContextView>, i: nat)
    requires i < |s|
    ensures Qualifies(s[i]) <==> exists g :: 0 <= g < |GroupByStack(s)| && i in GroupByStack(s)[g]
  {
    GroupByStackPartitions(s);
    if Qualifies(s[i]) {
      GroupKeysComplete(s, i);
      var keys := GroupKeys(s);
      var g :| 0 <= g < |keys| && keys[g] == s[i].stackId;
      GroupByStackComplete(s, g, i);
    }
  }

  /** After the run an event is still fixed exactly when it was fixed and does not qualify. */
  lemma FixedClearedExactlyWhenQualifying(s: seq<ContextView>, i: nat)
    requires i < |s|
    ensures ProcessedBatch(s)[i].isFixed <==> s[i].isFixed && !Qualifies(s[i])
  {
  }

  /** Processing changes neither which contexts qualify nor the stack a context belongs to. */
  lemma ProcessedKeepsGroups(s: seq<ContextView>, i: nat)
    requires i < |s|
    ensures Qualifies(ProcessedBatch(s)[i]) == Qualifies(s[i])
    ensures ProcessedBatch(s)[i].stackId == s[i].stackId
  {
    assert ProcessedBatch(s)[i].(isFixed := s[i].isFixed, isRegression := s[i].isRegression) == s[i];
  }

  /**
   * For every stack with a qualifying context, exactly one of its qualifying
   * contexts is flagged as the regression, and it is the earliest of them.
   */
  lemma OneRegressionPerStack(s: seq<ContextView>, k: Id)
    requires exists i :: 0 <= i < |s| && InGroup(s[i], k)
    ensures exists i :: 0 <= i < |s| && InGroup(s[i], k) &&
                        forall j :: 0 <= j < |s| && InGroup(s[j], k) ==>
                          i <= j && (ProcessedBatch(s)[j].isRegression <==> j == i)
  {
    var w :| 0 <= w < |s| && InGroup(s[w], k);
    GroupKeysComplete(s, w);
    GroupByStackPartitions(s);
    var keys, groups := GroupKeys(s), GroupByStack(s);
    var g :| 0 <= g < |keys| && keys[g] == k;
    var group := groups[g];
    var i := group[0];
    forall j | 0 <= j < |s| && InGroup(s[j], k)
      ensures i <= j && (ProcessedBatch(s)[j].isRegression <==> j == i)
    {
      GroupByStackComplete(s, g, j);
      var a :| 0 <= a < |group| && group[a] == j;
      GroupLeaderIsFirstOfStack(s, g, a);
      assert a == 0 || group[0] < group[a];
    }
  }

  /** The batch without its last context is processed exactly as before the last context arrived. */
  lemma {:induction false} ProcessedPrefix(s: seq<ContextView>)
    requires s != []
    ensures ProcessedBatch(s)[..|s| - 1] == ProcessedBatch(s[..|s| - 1])
  {
    var p := s[..|s| - 1];
    forall i | 0 <= i < |p| ensures ProcessedBatch(s)[i] == ProcessedBatch(p)[i] {
      assert forall j :: 0 <= j <= i ==> p[j] == s[j];
      assert FirstOfStack(s, i) == FirstOfStack(p, i);
    }
  }

  /** The last context is the first of its stack exactly when it opens a new group. */
  lemma LastIsFirstIffNewKey(s: seq<ContextView>)
    requires s != []
    ensures FirstOfStack(s, |s| - 1) <==>
      Qualifies(s[|s| - 1]) && s[|s| - 1].stackId !in GroupKeys(s[..|s| - 1])
  {
    var p, last := s[..|s| - 1], s[|s| - 1];
    if Qualifies(last) {
      if last.stackId in GroupKeys(p) {
        GroupKeysWitnessed(p, last.stackId);
        var j :| 0 <= j < |p| && InGroup(p[j], last.stackId);
        assert !InGroup(s[j], last.stackId) ==> !FirstOfStack(s, |s| - 1);
      } else {
        forall j | 0 <= j < |p| ensures !InGroup(s[j], last.stackId) {
          if InGroup(s[j], last.stackId) {
            assert p[j] == s[j];
            GroupKeysComplete(p, j);
          }
        }
      }
    }
  }

  /** Of two contexts that each come first for their stack, the earlier one's stack has the earlier key. */
  lemma {:induction false} FirstsInKeyOrder(s: seq<ContextView>, i: nat, j: nat)
    requires i < j < |s| && FirstOfStack(s, i) && FirstOfStack(s, j)
    ensures exists g, h :: 0 <= g < h < |GroupKeys(s)| && GroupKeys(s)[g] == s[i].stackId && GroupKeys(s)[h] == s[j].stackId
  {
    var p := s[..|s| - 1];
    var kp := GroupKeys(p);
    assert GroupKeys(s)[..|kp|] == kp;
    assert forall x :: 0 <= x < |p| ==> p[x] == s[x];
    if j < |s| - 1 {
      assert FirstOfStack(p, i) && FirstOfStack(p, j);
      FirstsInKeyOrder(p, i, j);
      var g, h :| 0 <= g < h < |kp| && kp[g] == s[i].stackId && kp[h] == s[j].stackId;
      assert GroupKeys(s)[g] == kp[g] && GroupKeys(s)[h] == kp[h];
    } else {
      LastIsFirstIffNewKey(s);
      GroupKeysComplete(p, i);
      var g :| 0 <= g < |kp| && kp[g] == s[i].stackId;
      assert GroupKeys(s) == kp + [s[j].stackId];
      assert GroupKeys(s)[g] == kp[g] && GroupKeys(s)[|kp|] == s[j].stackId;
    }
  }

  /** The groups come in the order in which their stacks first appear in the batch. */
  lemma GroupsInFirstAppearanceOrder(s: seq<ContextView>, g: nat, h: nat)
    requires g < h < |GroupByStack(s)|
    ensures GroupByStack(s)[g][0] < GroupByStack(s)[h][0]
  {
    GroupStartsAtItsStack(s, g);
    GroupStartsAtItsStack(s, h);
    GroupLeaderIsFirstOfStack(s, g, 0);
    GroupLeaderIsFirstOfStack(s, h, 0);
    GroupKeysDistinct(s);
    var a, b := GroupByStack(s)[g][0], GroupByStack(s)[h][0];
    if b < a {
      FirstsInKeyOrder(s, b, a);
    }
  }

  /**
   * Whatever the flags were before, the run leaves as many qualifying contexts
   * flagged as there are stacks with a qualifying context.
   */
  lemma {:induction false} QualifyingRegressionCountIsStackCount(s: seq<ContextView>)
    ensures QualifyingRegressionCount(ProcessedBatch(s)) == |GroupKeys(s)|
  {
    if s != [] {
      var p := s[..|s| - 1];
      var r := ProcessedBatch(s);
      ProcessedPrefix(s);
      LastIsFirstIffNewKey(s);
      ProcessedKeepsGroups(s, |s| - 1);
      QualifyingRegressionCountIsStackCount(p);
      assert r[..|r| - 1] == ProcessedBatch(p);
      assert Qualifies(r[|r| - 1]) ==> r[|r| - 1].isRegression == FirstOfStack(s, |s| - 1);
    }
  }

  /** When only qualifying contexts are flagged, the two counts agree. */
  lemma {:induction false} CountsAgree(r: seq<ContextView>)
    requires forall i :: 0 <= i < |r| && r[i].isRegression ==> Qualifies(r[i])
    ensures RegressionCount(r) == QualifyingRegressionCount(r)
  {
    if r != [] {
      var p := r[..|r| - 1];
      assert forall i :: 0 <= i < |p| ==> p[i] == r[i];
      CountsAgree(p);
    }
  }

  /**
   * With no context flagged beforehand, the run flags as many contexts as
   * there are stacks with a qualifying context.
   */
  lemma RegressionCountIsStackCount(s: seq<ContextView>)
    requires forall i :: 0 <= i < |s| ==> !s[i].isRegression
    ensures RegressionCount(ProcessedBatch(s)) == |GroupKeys(s)|
  {
    var r := ProcessedBatch(s);
    forall i | 0 <= i < |r| && r[i].isRegression ensures Qualifies(r[i]) {
      ProcessedKeepsGroups(s, i);
    }
    CountsAgree(r);
    QualifyingRegressionCountIsStackCount(s);
  }

  /** The repository calls for the `g`-th group are made with the ids of that group's first context. */
  lemma {:induction false} CallsAt(s: seq<ContextView>, groups: seq<seq<nat>>, g: nat)
    requires GroupsStartQualifying(s, groups) && g < |groups|
    ensures StackCalls(s, groups)[2 * g] == MarkAsRegressedCall(s[groups[g][0]].stack.value.id)
    ensures StackCalls(s, groups)[2 * g + 1]
         == InvalidateCacheCall(s[groups[g][0]].projectId, s[groups[g][0]].stackId, s[groups[g][0]].signatureHash)
    ensures EventCalls(s, groups)[g]
         == MarkAsRegressedByStackCall(s[groups[g][0]].organizationId, s[groups[g][0]].stack.value.id)
  {
    var prefix := groups[..|groups| - 1];
    if g < |groups| - 1 {
      assert prefix[g] == groups[g];
      CallsAt(s, prefix, g);
    }
  }

  /**
   * Group by group: the `g`-th group belongs to the `g`-th stack, starts at the
   * first context of that stack, and its three calls carry that context's ids.
   */
  lemma CallsUseFirstContext(s: seq<ContextView>, g: nat)
    requires g < |GroupKeys(s)|
    ensures var first := GroupByStack(s)[g][0];
      first < |s| && FirstOfStack(s, first) && s[first].stackId == GroupKeys(s)[g] &&
      ExpectedStackCalls(s)[2 * g] == MarkAsRegressedCall(s[first].stack.value.id) &&
      ExpectedStackCalls(s)[2 * g + 1] == InvalidateCacheCall(s[first].projectId, s[first].stackId, s[first].signatureHash) &&
      ExpectedEventCalls(s)[g] == MarkAsRegressedByStackCall(s[first].organizationId, s[first].stack.value.id)
  {
    GroupByStackPartitions(s);
    GroupLeaderIsFirstOfStack(s, g, 0);
    CallsAt(s, GroupByStack(s), g);
  }

  /** Two calls per group go to the stack repository and one to the event repository. */
  lemma CallCounts(s: seq<ContextView>)
    ensures |ExpectedStackCalls(s)| == 2 * |GroupKeys(s)|
    ensures |ExpectedEventCalls(s)| == |GroupKeys(s)|
  {
  }

  /** No repository is called at all exactly when no context of the batch qualifies. */
  lemma NoCallsIffNothingQualifies(s: seq<ContextView>)
    ensures ExpectedStackCalls(s) == [] <==> forall i :: 0 <= i < |s| ==> !Qualifies(s[i])
    ensures ExpectedEventCalls(s) == [] <==> forall i :: 0 <= i < |s| ==> !Qualifies(s[i])
  {
    var keys := GroupKeys(s);
    if keys == [] {
      forall i | 0 <= i < |s| ensures !Qualifies(s[i]) {
        if Qualifies(s[i]) {
          GroupKeysComplete(s, i);
        }
      }
    } else {
      assert keys[0] in keys;
      GroupKeysWitnessed(s, keys[0]);
    }
  }

  /** The stack ids passed to the stack repository by calls of one kind, in call order. */
  function StackTargets(calls: seq<StackCall>, invalidations: bool): (ids: seq<Id>)
    ensures |ids| <= |calls|
  {
    if calls == [] then []
    else
      var last := calls[|calls| - 1];
      StackTargets(calls[..|calls| - 1], invalidations)
        + if last.InvalidateCacheCall? == invalidations then [last.stackId] else []
  }

  /** The stack ids passed to the event repository, in call order. */
  function EventTargets(calls: seq<EventCall>): (ids: seq<Id>)
    ensures |ids| == |calls|
  {
    if calls == [] then [] else EventTargets(calls[..|calls| - 1]) + [calls[|calls| - 1].stackId]
  }

  lemma {:induction false} StackTargetsAppend(a: seq<StackCall>, b: seq<StackCall>, invalidations: bool)
    ensures StackTargets(a + b, invalidations) == StackTargets(a, invalidations) + StackTargets(b, invalidations)
  {
    if b != [] {
      assert (a + b)[..|a + b| - 1] == a + b[..|b| - 1];
      StackTargetsAppend(a, b[..|b| - 1], invalidations);
    } else {
      assert a + b == a;
    }
  }

  lemma {:induction false} EventTargetsAppend(a: seq<EventCall>, b: seq<EventCall>)
    ensures EventTargets(a + b) == EventTargets(a) + EventTargets(b)
  {
    if b != [] {
      assert (a + b)[..|a + b| - 1] == a + b[..|b| - 1];
      EventTargetsAppend(a, b[..|b| - 1]);
    } else {
      assert a + b == a;
    }
  }

  /** Every context's resolved stack is the stack its event names. */
  predicate StackIdsResolved(s: seq<ContextView>) {
    forall i :: 0 <= i < |s| && s[i].stack.Some? ==> s[i].stack.value.id == s[i].stackId
  }

  /** The stacks addressed by the calls of one group. */
  lemma GroupTargets(first: ContextView)
    requires first.stack.Some?
    ensures StackTargets(GroupStackCalls(first), true) == [first.stackId]
    ensures StackTargets(GroupStackCalls(first), false) == [first.stack.value.id]
    ensures EventTargets(GroupEventCalls(first)) == [first.stack.value.id]
  {
    assert GroupStackCalls(first)[..1] == [MarkAsRegressedCall(first.stack.value.id)];
  }

  /** The cache invalidations for the first `n` groups address the first `n` stacks, in order. */
  lemma {:induction false} InvalidationsOfPrefix(s: seq<ContextView>, n: nat)
    requires n <= |GroupByStack(s)|
    ensures GroupsStartQualifying(s, GroupByStack(s)[..n])
    ensures StackTargets(StackCalls(s, GroupByStack(s)[..n]), true) == GroupKeys(s)[..n]
  {
    var groups, keys := GroupByStack(s), GroupKeys(s);
    if n > 0 {
      InvalidationsOfPrefix(s, n - 1);
      CallsStep(s, n - 1);
      GroupStartsAtItsStack(s, n - 1);
      var first := s[groups[n - 1][0]];
      assert first.stackId == keys[n - 1];
      StackTargetsAppend(StackCalls(s, groups[..n - 1]), GroupStackCalls(first), true);
      GroupTargets(first);
      TakeOneMore(keys, n);
    }
  }

  /**
   * When stack ids are resolved, the regression marks for the first `n` groups
   * address the first `n` stacks, in order, in both repositories.
   */
  lemma {:induction false} MarksOfPrefix(s: seq<ContextView>, n: nat)
    requires StackIdsResolved(s) && n <= |GroupByStack(s)|
    ensures GroupsStartQualifying(s, GroupByStack(s)[..n])
    ensures StackTargets(StackCalls(s, GroupByStack(s)[..n]), false) == GroupKeys(s)[..n]
    ensures EventTargets(EventCalls(s, GroupByStack(s)[..n])) == GroupKeys(s)[..n]
  {
    var groups, keys := GroupByStack(s), GroupKeys(s);
    if n > 0 {
      MarksOfPrefix(s, n - 1);
      CallsStep(s, n - 1);
      GroupStartsAtItsStack(s, n - 1);
      var first := s[groups[n - 1][0]];
      assert first.stack.value.id == first.stackId == keys[n - 1];
      StackTargetsAppend(StackCalls(s, groups[..n - 1]), GroupStackCalls(first), false);
      EventTargetsAppend(EventCalls(s, groups[..n - 1]), GroupEventCalls(first));
      GroupTargets(first);
      TakeOneMore(keys, n);
    }
  }

  /** The cache of every stack with a qualifying context is dropped exactly once, in group order. */
  lemma InvalidatesEachStackOnce(s: seq<ContextView>)
    ensures StackTargets(ExpectedStackCalls(s), true) == GroupKeys(s)
  {
    InvalidationsOfPrefix(s, |GroupByStack(s)|);
    assert GroupByStack(s)[..|GroupByStack(s)|] == GroupByStack(s);
  }

  /**
   * When every context's stack is the stack its event names, each stack with a
   * qualifying context, and the stored events of each, are marked as regressed
   * exactly once, in group order.
   */
  lemma MarksEachStackOnce(s: seq<ContextView>)
    requires StackIdsResolved(s)
    ensures StackTargets(ExpectedStackCalls(s), false) == GroupKeys(s)
    ensures EventTargets(ExpectedEventCalls(s)) == GroupKeys(s)
  {
    MarksOfPrefix(s, |GroupByStack(s)|);
    assert GroupByStack(s)[..|GroupByStack(s)|] == GroupByStack(s);
  }
}
