/**
 * Effort scores (src/lib/effort.ts): the allowed scale and the roll-up of the
 * effort of open tasks shown for a project.
 */
module Effort {
  import opened Wrappers
  import Tables

  /** The allowed effort scores, in scale order. */
  const EffortValues: seq<int> := [1, 2, 3, 5, 8, 13]

  /** The part of a task the roll-up reads: its optional effort and its status. */
  datatype EffortItem = EffortItem(effort: Option<int>, status: string)

  /** The tasks the roll-up keeps: open and scored. */
  predicate IsOpenScored(t: EffortItem) {
    t.status == "OPEN" && t.effort.Some?
  }

  function OpenScored(): EffortItem -> bool {
    t => IsOpenScored(t)
  }

  /** `reduce((sum, t) => sum + t.effort, acc)`: a left fold. */
  function SumFrom(acc: int, tasks: seq<EffortItem>): int
    decreases tasks
  {
    if tasks == [] then acc
    else SumFrom(acc + tasks[0].effort.GetOr(0), tasks[1..])
  }

  /** computeEffortSum: filter to open scored tasks, then sum their effort from 0. */
  function ComputeEffortSum(tasks: seq<EffortItem>): int {
    SumFrom(0, Tables.Filter(tasks, OpenScored()))
  }

  // ---------------------------------------------------------------------------
  // the reference definition: each task contributes its effort if it is open
  // and scored, and nothing otherwise
  // ---------------------------------------------------------------------------

  function Contribution(t: EffortItem): int {
    if IsOpenScored(t) then t.effort.value else 0
  }

  function TotalContribution(tasks: seq<EffortItem>): int {
    if tasks == [] then 0 else Contribution(tasks[0]) + TotalContribution(tasks[1..])
  }

  lemma {:induction false} SumFromShift(acc: int, tasks: seq<EffortItem>)
    ensures SumFrom(acc, tasks) == acc + SumFrom(0, tasks)
    decreases tasks
  {
    if tasks != [] {
      SumFromShift(acc + tasks[0].effort.GetOr(0), tasks[1..]);
      SumFromShift(tasks[0].effort.GetOr(0), tasks[1..]);
    }
  }

  /** The roll-up is the sum of the contributions of all tasks. */
  lemma {:induction false} EffortSumIsTotalContribution(tasks: seq<EffortItem>)
    ensures ComputeEffortSum(tasks) == TotalContribution(tasks)
  {
    if tasks != [] {
      var rest := Tables.Filter(tasks[1..], OpenScored());
      EffortSumIsTotalContribution(tasks[1..]);
      if IsOpenScored(tasks[0]) {
        assert Tables.Filter(tasks, OpenScored()) == [tasks[0]] + rest;
        assert ([tasks[0]] + rest)[1..] == rest;
        SumFromShift(tasks[0].effort.value, rest);
      } else {
        assert Tables.Filter(tasks, OpenScored()) == rest;
      }
    }
  }

  lemma {:induction false} TotalContributionAppend(a: seq<EffortItem>, b: seq<EffortItem>)
    ensures TotalContribution(a + b) == TotalContribution(a) + TotalContribution(b)
  {
    if a == [] {
      assert a + b == b;
    } else {
      assert (a + b)[1..] == a[1..] + b;
      TotalContributionAppend(a[1..], b);
    }
  }

  /** The roll-up of two lists is the sum of their roll-ups. */
  lemma EffortSumAppend(a: seq<EffortItem>, b: seq<EffortItem>)
    ensures ComputeEffortSum(a + b) == ComputeEffortSum(a) + ComputeEffortSum(b)
  {
    EffortSumIsTotalContribution(a + b);
    EffortSumIsTotalContribution(a);
    EffortSumIsTotalContribution(b);
    TotalContributionAppend(a, b);
  }

  /** The roll-up seen one task at a time. */
  lemma EffortSumCons(t: EffortItem, rest: seq<EffortItem>)
    ensures ComputeEffortSum([t] + rest) == Contribution(t) + ComputeEffortSum(rest)
  {
    EffortSumIsTotalContribution([t] + rest);
    EffortSumIsTotalContribution(rest);
    assert ([t] + rest)[1..] == rest;
  }

  /** A task that is not open, or has no effort, adds nothing wherever it stands. */
  lemma IgnoredTaskAddsNothing(a: seq<EffortItem>, t: EffortItem, b: seq<EffortItem>)
    requires t.status != "OPEN" || t.effort.None?
    ensures ComputeEffortSum(a + [t] + b) == ComputeEffortSum(a + b)
  {
    EffortSumAppend(a + [t], b);
    EffortSumAppend(a, [t]);
    EffortSumAppend(a, b);
    assert Tables.Filter([t], OpenScored()) == [];
  }

  /** An open scored task adds exactly its effort. */
  lemma OpenScoredTaskAddsItsEffort(a: seq<EffortItem>, e: int, b: seq<EffortItem>)
    ensures ComputeEffortSum(a + [EffortItem(Some(e), "OPEN")] + b)
         == ComputeEffortSum(a + b) + e
  {
    var t := EffortItem(Some(e), "OPEN");
    EffortSumAppend(a + [t], b);
    EffortSumAppend(a, [t]);
    EffortSumAppend(a, b);
    EffortSumCons(t, []);
    assert [t] + [] == [t];
  }

  /** A list with no open scored task sums to 0; in particular an empty, an
      all-completed or an all-unscored list. */
  lemma {:induction false} NothingOpenScoredSumsToZero(tasks: seq<EffortItem>)
    requires forall i :: 0 <= i < |tasks| ==> tasks[i].status != "OPEN" || tasks[i].effort.None?
    ensures ComputeEffortSum(tasks) == 0
  {
    Tables.FilterNone(tasks, OpenScored());
  }

  /** With every effort on the scale, the roll-up is between 0 and 13 per task. */
  lemma {:induction false} EffortSumBounds(tasks: seq<EffortItem>)
    requires forall i :: 0 <= i < |tasks| && tasks[i].effort.Some? ==> tasks[i].effort.value in EffortValues
    ensures 0 <= ComputeEffortSum(tasks) <= 13 * |tasks|
  {
    EffortSumIsTotalContribution(tasks);
    TotalContributionBounds(tasks);
  }

  lemma {:induction false} TotalContributionBounds(tasks: seq<EffortItem>)
    requires forall i :: 0 <= i < |tasks| && tasks[i].effort.Some? ==> tasks[i].effort.value in EffortValues
    ensures 0 <= TotalContribution(tasks) <= 13 * |tasks|
  {
    if tasks != [] {
      TotalContributionBounds(tasks[1..]);
    }
  }

  // ---------------------------------------------------------------------------
  // the cases of src/__tests__/effort-rollup.test.ts
  // ---------------------------------------------------------------------------

  function Open(e: int): EffortItem { EffortItem(Some(e), "OPEN") }
  function Completed(e: int): EffortItem { EffortItem(Some(e), "COMPLETED") }
  const OpenUnscored := EffortItem(None, "OPEN")
  const CompletedUnscored := EffortItem(None, "COMPLETED")

  lemma OpenOnlyExample()
    ensures ComputeEffortSum([Open(3), Completed(5), Open(8)]) == 11
  {
    EffortSumCons(Open(8), []);
    EffortSumCons(Completed(5), [Open(8)]);
    EffortSumCons(Open(3), [Completed(5), Open(8)]);
    assert [Open(8)] == [Open(8)] + [];
  }

  lemma UnscoredExcludedExample()
    ensures ComputeEffortSum([OpenUnscored, Open(5)]) == 5
  {
    OpenScoredTaskAddsItsEffort([OpenUnscored], 5, []);
    IgnoredTaskAddsNothing([], OpenUnscored, []);
    assert [OpenUnscored] + [Open(5)] + [] == [OpenUnscored, Open(5)];
    assert [] + [OpenUnscored] + [] == [OpenUnscored];
  }

  lemma ZeroExamples()
    ensures ComputeEffortSum([]) == 0
    ensures ComputeEffortSum([Completed(3), Completed(5)]) == 0
    ensures ComputeEffortSum([OpenUnscored, OpenUnscored]) == 0
  {
    NothingOpenScoredSumsToZero([]);
    NothingOpenScoredSumsToZero([Completed(3), Completed(5)]);
    NothingOpenScoredSumsToZero([OpenUnscored, OpenUnscored]);
  }

  /** The roll-up of three tasks is the sum of their contributions. */
  lemma EffortSumOfThree(t1: EffortItem, t2: EffortItem, t3: EffortItem)
    ensures ComputeEffortSum([t1, t2, t3]) == Contribution(t1) + Contribution(t2) + Contribution(t3)
  {
    EffortSumCons(t3, []);
    assert [t3] == [t3] + [];
    EffortSumCons(t2, [t3]);
    EffortSumCons(t1, [t2, t3]);
    assert [t1] + ([t2] + [t3]) == [t1, t2, t3];
  }

  lemma TotalContributionAt(s: seq<EffortItem>, i: nat)
    requires i < |s|
    ensures TotalContribution(s[i..]) == Contribution(s[i]) + TotalContribution(s[i + 1..])
  {
    assert s[i..][1..] == s[i + 1..];
  }

  /** The roll-up of six tasks is the sum of their six contributions. */
  lemma EffortSumOfSix(s: seq<EffortItem>)
    requires |s| == 6
    ensures ComputeEffortSum(s)
         == Contribution(s[0]) + Contribution(s[1]) + Contribution(s[2])
          + Contribution(s[3]) + Contribution(s[4]) + Contribution(s[5])
  {
    EffortSumIsTotalContribution(s);
    assert s[0..] == s && s[6..] == [];
    TotalContributionAt(s, 0);
    TotalContributionAt(s, 1);
    TotalContributionAt(s, 2);
    TotalContributionAt(s, 3);
    TotalContributionAt(s, 4);
    TotalContributionAt(s, 5);
  }

  lemma MixedExample()
    ensures ComputeEffortSum([Open(1), OpenUnscored, Completed(13), Open(5), CompletedUnscored, Open(8)]) == 14
  {
    EffortSumOfSix([Open(1), OpenUnscored, Completed(13), Open(5), CompletedUnscored, Open(8)]);
  }

  lemma SingleExample()
    ensures ComputeEffortSum([Open(13)]) == 13
  {
    EffortSumCons(Open(13), []);
    assert [Open(13)] == [Open(13)] + [];
  }

  /** The scale is exactly 1, 2, 3, 5, 8, 13, and one open task per value sums to 32. */
  lemma EffortScale()
    ensures EffortValues == [1, 2, 3, 5, 8, 13]
    ensures forall i :: 0 < i < |EffortValues| ==> EffortValues[i - 1] < EffortValues[i]
    ensures ComputeEffortSum(Tables.MapRows(EffortValues, Open)) == 32
  {
    var all := Tables.MapRows(EffortValues, Open);
    assert all == [Open(1), Open(2), Open(3), Open(5), Open(8), Open(13)] by {
      assert |all| == 6;
      forall i | 0 <= i < 6 ensures all[i] == Open(EffortValues[i]) { }
    }
    EffortSumOfSix(all);
  }
}
