/**
 * The batch part-way through the action: after some of its stack groups have
 * been handled. These are the steps that connect the action's loops, one group
 * at a time, to `ProcessedBatch`, `StackCalls` and `EventCalls`.
 */
module RegressionSteps {
  import opened RegressionSpec

  /** The batch once the groups of `keys`, and no other, have been handled. */
  function HandledUpTo(s: seq<ContextView>, keys: seq<Id>): (r: seq<ContextView>)
    ensures |r| == |s|
  {
    seq(|s|, i requires 0 <= i < |s| =>
      if Qualifies(s[i]) && s[i].stackId in keys then Processed(s, i) else s[i])
  }

  /**
   * `t` once the inner loop has walked `group`: every event at a position of the
   * group is no longer fixed and only the context at the group's first position
   * is the regression; every other position is left as it was.
   */
  function FlaggedGroup(t: seq<ContextView>, group: seq<nat>): (r: seq<ContextView>)
    ensures |r| == |t|
  {
    seq(|t|, i requires 0 <= i < |t| =>
      if i in group then t[i].(isFixed := false, isRegression := i == group[0]) else t[i])
  }

  /** Within a group, exactly the first member is the first context of its stack in the batch. */
  lemma GroupLeaderIsFirstOfStack(s: seq<ContextView>, g: nat, a: nat)
    requires g < |GroupByStack(s)| && a < |GroupByStack(s)[g]|
    ensures FirstOfStack(s, GroupByStack(s)[g][a]) <==> a == 0
  {
    GroupByStackPartitions(s);
    var m := GroupByStack(s)[g];
    var k := GroupKeys(s)[g];
    if a == 0 {
      assert forall b :: 0 <= b < |m| ==> m[0] <= m[b];
      forall j | 0 <= j < m[0] && InGroup(s[j], k) ensures j in m {
        GroupByStackComplete(s, g, j);
      }
    } else {
      assert m[0] < m[a] && InGroup(s[m[0]], k);
    }
  }

  /** The positions of group `g` are positions of the batch, in ascending order. */
  lemma GroupAscends(s: seq<ContextView>, g: nat)
    requires g < |GroupByStack(s)|
    ensures forall a :: 0 <= a < |GroupByStack(s)[g]| ==> GroupByStack(s)[g][a] < |s|
    ensures forall a, b :: 0 <= a < b < |GroupByStack(s)[g]| ==> GroupByStack(s)[g][a] < GroupByStack(s)[g][b]
  {
    GroupByStackPartitions(s);
  }

  /** Group `g` starts at a qualifying context of the `g`-th stack. */
  lemma GroupStartsAtItsStack(s: seq<ContextView>, g: nat)
    requires g < |GroupByStack(s)|
    ensures GroupByStack(s)[g][0] < |s| && InGroup(s[GroupByStack(s)[g][0]], GroupKeys(s)[g])
  {
    GroupByStackPartitions(s);
  }

  /** Handling one more group appends that group's calls, taken from its first context. */
  lemma CallsStep(s: seq<ContextView>, g: nat)
    requires g < |GroupByStack(s)|
    ensures GroupsStartQualifying(s, GroupByStack(s)[..g + 1])
    ensures StackCalls(s, GroupByStack(s)[..g + 1])
         == StackCalls(s, GroupByStack(s)[..g]) + GroupStackCalls(s[GroupByStack(s)[g][0]])
    ensures EventCalls(s, GroupByStack(s)[..g + 1])
         == EventCalls(s, GroupByStack(s)[..g]) + GroupEventCalls(s[GroupByStack(s)[g][0]])
  {
    var groups := GroupByStack(s);
    assert groups[..g + 1][..g] == groups[..g];
  }

  /** Walking group `g` after the groups before it leaves the batch with the first `g + 1` groups handled. */
  lemma HandledStep(s: seq<ContextView>, g: nat)
    requires g < |GroupByStack(s)|
    ensures FlaggedGroup(HandledUpTo(s, GroupKeys(s)[..g]), GroupByStack(s)[g]) == HandledUpTo(s, GroupKeys(s)[..g + 1])
  {
    GroupByStackPartitions(s);
    GroupKeysDistinct(s);
    var groups, keys := GroupByStack(s), GroupKeys(s);
    var group := groups[g];
    var before, after := HandledUpTo(s, keys[..g]), HandledUpTo(s, keys[..g + 1]);
    TakeOneMore(keys, g + 1);
    assert keys[g] !in keys[..g];
    forall i | 0 <= i < |s| ensures FlaggedGroup(before, group)[i] == after[i] {
      if InGroup(s[i], keys[g]) {
        GroupByStackComplete(s, g, i);
        var a :| 0 <= a < |group| && group[a] == i;
        GroupLeaderIsFirstOfStack(s, g, a);
      } else {
        assert i !in group;
      }
    }
  }

  /** With every group handled, the batch is the processed batch. */
  lemma HandledAll(s: seq<ContextView>)
    ensures HandledUpTo(s, GroupKeys(s)) == ProcessedBatch(s)
  {
    forall i | 0 <= i < |s| && Qualifies(s[i]) ensures s[i].stackId in GroupKeys(s) {
      GroupKeysComplete(s, i);
    }
  }

  /** Handling groups changes only the two flags of a context. */
  lemma HandledKeepsIds(s: seq<ContextView>, keys: seq<Id>, i: nat)
    requires i < |s|
    ensures HandledUpTo(s, keys)[i].(isFixed := s[i].isFixed, isRegression := s[i].isRegression) == s[i]
  {
  }

  /** A prefix one longer is the prefix followed by the next element. */
  lemma TakeOneMore<T>(xs: seq<T>, n: nat)
    requires 0 < n <= |xs|
    ensures xs[..n] == xs[..n - 1] + [xs[n - 1]]
  {
  }
}
