/**
 * Concrete batches in the spirit of the pipeline's own scenarios: a stack that
 * regresses, stacks that are new, and an event dated exactly at the fix.
 */
module RegressionExamples {
  import opened Wrappers
  import opened RegressionSpec
  import opened RegressionProperties

  /** An occurrence of `stack`, dated `date`, that names `stack` as its stack. */
  function Occurrence(stack: Stack, date: int): ContextView {
    ContextView(Some(stack), date, stack.id, "org", "project", "hash", true, false)
  }

  /**
   * Two occurrences of a stack fixed before them: the first is the one
   * regression, neither event is still fixed, and the stack, its events and
   * its cached copy are each dealt with once.
   */
  lemma TwoOccurrencesAfterFix()
    ensures var batch := [Occurrence(Stack("s", Some(100)), 160), Occurrence(Stack("s", Some(100)), 160)];
      var r := ProcessedBatch(batch);
      r[0].isRegression && !r[1].isRegression && !r[0].isFixed && !r[1].isFixed &&
      RegressionCount(r) == 1 &&
      ExpectedStackCalls(batch) == [MarkAsRegressedCall("s"), InvalidateCacheCall("project", "s", "hash")] &&
      ExpectedEventCalls(batch) == [MarkAsRegressedByStackCall("org", "s")]
  {
    var batch := [Occurrence(Stack("s", Some(100)), 160), Occurrence(Stack("s", Some(100)), 160)];
    assert Qualifies(batch[0]) && Qualifies(batch[1]);
    assert FirstOfStack(batch, 0) && !FirstOfStack(batch, 1);
    assert batch[..1] == [batch[0]];
    assert GroupKeys(batch) == ["s"];
    RegressionCountIsStackCount(batch);
    CallsUseFirstContext(batch, 0);
  }

  /** Two occurrences of one new stack, never fixed: nothing is flagged, changed or called. */
  lemma NewStackIsNoRegression()
    ensures var batch := [Occurrence(Stack("a", None), 160), Occurrence(Stack("a", None), 170)];
      ProcessedBatch(batch) == batch && RegressionCount(ProcessedBatch(batch)) == 0 &&
      ExpectedStackCalls(batch) == [] && ExpectedEventCalls(batch) == []
  {
    var batch := [Occurrence(Stack("a", None), 160), Occurrence(Stack("a", None), 170)];
    assert !Qualifies(batch[0]) && !Qualifies(batch[1]);
    NoCallsIffNothingQualifies(batch);
    RegressionCountIsStackCount(batch);
  }

  /** An event dated exactly when its stack was fixed is not a regression: the fix date must be earlier. */
  lemma OccurrenceAtFixTime()
    ensures var batch := [Occurrence(Stack("s", Some(160)), 160)];
      ProcessedBatch(batch) == batch && ExpectedStackCalls(batch) == []
  {
    var batch := [Occurrence(Stack("s", Some(160)), 160)];
    assert !Qualifies(batch[0]);
    NoCallsIffNothingQualifies(batch);
  }
}
