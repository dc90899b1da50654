/** What the check-all-then-apply machine guarantees for any list of steps. */
module Runs {
  import opened Wrappers
  import opened Host
  import opened Setup
  import opened Steps
  import opened Reconcile

  /** The plan once the first `k` steps have been checked. */
  ghost function PlanAfter(steps: seq<Step>, k: nat, check: Checker, p: Plan): Plan
    requires k <= |steps|
  {
    if k == 0 then p else check(steps[k - 1], PlanAfter(steps, k - 1, check, p)).plan
  }

  ghost function FoundAt(steps: seq<Step>, k: nat, check: Checker, p: Plan): Found
    requires k < |steps|
  {
    check(steps[k], PlanAfter(steps, k, check, p)).found
  }

  lemma {:induction false} SurveyDecides(steps: seq<Step>, k: nat, check: Checker, p: Plan)
    requires k <= |steps|
    ensures var s := Surveyed(steps, k, check, p);
            && (s.failed <==> exists i :: 0 <= i < k && FoundAt(steps, i, check, p).CheckFailed?)
            && (!s.failed ==> s.plan == PlanAfter(steps, k, check, p))
  {
    if k > 0 {
      SurveyDecides(steps, k - 1, check, p);
      assert FoundAt(steps, k - 1, check, p) == check(steps[k - 1], PlanAfter(steps, k - 1, check, p)).found;
    }
  }

  lemma {:induction false} SurveyBlocks(steps: seq<Step>, k: nat, check: Checker, p: Plan)
    requires k <= |steps| && !Surveyed(steps, k, check, p).failed
    ensures Surveyed(steps, k, check, p).blocked == [] <==> forall i :: 0 <= i < k ==> !FoundAt(steps, i, check, p).Blocked?
  {
    if k > 0 {
      SurveyBlocks(steps, k - 1, check, p);
      SurveyDecides(steps, k - 1, check, p);
      var found := check(steps[k - 1], Surveyed(steps, k - 1, check, p).plan).found;
      assert FoundAt(steps, k - 1, check, p) == found;
      assert Surveyed(steps, k, check, p).blocked ==
             Surveyed(steps, k - 1, check, p).blocked + if found.Blocked? then [steps[k - 1]] else [];
    }
  }

  lemma {:induction false} SurveyRecords(steps: seq<Step>, k: nat, check: Checker, p: Plan)
    requires k <= |steps| && !Surveyed(steps, k, check, p).failed
    ensures forall i :: 0 <= i < k ==>
              Surveyed(steps, k, check, p).entries[i] == StepResult(steps[i], FoundAt(steps, i, check, p), false, false)
  {
    if k > 0 {
      SurveyRecords(steps, k - 1, check, p);
      SurveyDecides(steps, k - 1, check, p);
    }
  }

  lemma SurveyIsChain(steps: seq<Step>, k: nat, check: Checker, p: Plan)
    requires k <= |steps|
    ensures var s := Surveyed(steps, k, check, p);
            && (s.failed <==> exists i :: 0 <= i < k && FoundAt(steps, i, check, p).CheckFailed?)
            && (!s.failed ==>
                  && s.plan == PlanAfter(steps, k, check, p)
                  && (s.blocked == [] <==> forall i :: 0 <= i < k ==> !FoundAt(steps, i, check, p).Blocked?)
                  && forall i :: 0 <= i < k ==> s.entries[i] == StepResult(steps[i], FoundAt(steps, i, check, p), false, false))
  {
    SurveyDecides(steps, k, check, p);
    if !Surveyed(steps, k, check, p).failed {
      SurveyBlocks(steps, k, check, p);
      SurveyRecords(steps, k, check, p);
    }
  }

  /** Every Check decided, nothing refused, and the run not a dry one: the only
      way a run gets to apply anything. */
  ghost predicate Proceeds(steps: seq<Step>, check: Checker, dryRun: bool, p: Plan) {
    && !dryRun
    && forall i :: 0 <= i < |steps| ==> var f := FoundAt(steps, i, check, p); f.Satisfied? || f.Pending?
  }

  lemma {:induction false} SurveyAppliesNothing(steps: seq<Step>, k: nat, check: Checker, p: Plan)
    requires k <= |steps|
    ensures forall i :: 0 <= i < |Surveyed(steps, k, check, p).entries| ==> !Surveyed(steps, k, check, p).entries[i].applied
  {
    if k > 0 {
      SurveyAppliesNothing(steps, k - 1, check, p);
    }
  }

  /** A blocked verdict, a check that could not be determined, or a dry run:
      the host is untouched, and the run is an error exactly in the second case. */
  lemma RefusalTouchesNothing(steps: seq<Step>, check: Checker, apply: Applier, dryRun: bool, h: Host, p: Plan)
    requires !Proceeds(steps, check, dryRun, p)
    ensures var (result, after) := OutcomeOf(steps, check, apply, dryRun, h, p);
            && after == h
            && (forall i :: 0 <= i < |result.steps| ==> !result.steps[i].applied)
            && (result.failed <==> exists i :: 0 <= i < |steps| && FoundAt(steps, i, check, p).CheckFailed?)
  {
    SurveyIsChain(steps, |steps|, check, p);
    SurveyAppliesNothing(steps, |steps|, check, p);
  }

  ghost function ProgressAt(steps: seq<Step>, k: nat, check: Checker, apply: Applier, h: Host, p: Plan): Progress
    requires k <= |steps| && Proceeds(steps, check, false, p)
  {
    SurveyIsChain(steps, |steps|, check, p);
    var s := Surveyed(steps, |steps|, check, p);
    Progressed(steps, k, apply, h, s.entries, s.plan)
  }

  /** The steps a run applied: every pending one before `n`, and if it failed,
      step `n` is the pending one it failed at. */
  ghost predicate AppliedTo(entries: seq<StepResult>, n: nat, failed: bool) {
    && n <= |entries|
    && (failed ==> n < |entries| && entries[n].found.Pending?)
    && forall i :: 0 <= i < |entries| ==>
         && (entries[i].applied <==> entries[i].found.Pending? && i < n)
         && (entries[i].failed <==> failed && i == n)
  }

  lemma {:induction false} ProgressIsPrefix(steps: seq<Step>, k: nat, apply: Applier, h: Host, entries: seq<StepResult>, p: Plan) returns (n: nat)
    requires k <= |steps| == |entries|
    requires forall i :: 0 <= i < |steps| ==> !entries[i].applied && !entries[i].failed
    ensures var g := Progressed(steps, k, apply, h, entries, p);
            && (if g.failed then n < k else n == k)
            && (forall i :: 0 <= i < |steps| ==> g.entries[i].step == entries[i].step && g.entries[i].found == entries[i].found)
            && AppliedTo(g.entries, n, g.failed)
  {
    n := 0;
    if k > 0 {
      n := ProgressIsPrefix(steps, k - 1, apply, h, entries, p);
      if !Progressed(steps, k, apply, h, entries, p).failed {
        n := k;
      }
    }
  }

  /** For every list of steps: what a run applied is a prefix of its pending
      steps, and a failure is recorded against the next pending one alone. */
  lemma AppliedIsPrefixOfPending(steps: seq<Step>, check: Checker, apply: Applier, h: Host, p: Plan)
    requires Proceeds(steps, check, false, p)
    ensures var (result, _) := OutcomeOf(steps, check, apply, false, h, p);
            && |result.steps| == |steps|
            && (forall i :: 0 <= i < |steps| ==> result.steps[i].step == steps[i] && result.steps[i].found == FoundAt(steps, i, check, p))
            && exists n: nat :: AppliedTo(result.steps, n, result.failed) && (!result.failed ==> n == |steps|)
  {
    SurveyIsChain(steps, |steps|, check, p);
    var s := Surveyed(steps, |steps|, check, p);
    var n := ProgressIsPrefix(steps, |steps|, apply, h, s.entries, s.plan);
  }

  lemma {:induction false} EntriesSettle(steps: seq<Step>, k: nat, m: nat, apply: Applier, h: Host, entries: seq<StepResult>, p: Plan)
    requires k <= m <= |steps| == |entries|
    ensures forall i :: 0 <= i < k ==>
              Progressed(steps, m, apply, h, entries, p).entries[i] == Progressed(steps, k, apply, h, entries, p).entries[i]
    ensures forall i :: m <= i < |entries| ==> Progressed(steps, m, apply, h, entries, p).entries[i] == entries[i]
    decreases m
  {
    if m > k {
      EntriesSettle(steps, k, m - 1, apply, h, entries, p);
    } else if m > 0 {
      EntriesSettle(steps, k - 1, m - 1, apply, h, entries, p);
    }
  }

  /** Step `k` had its turn, and the Result records what came of it. */
  ghost predicate Told(k: nat, steps: seq<Step>, apply: Applier, f: seq<Found>, g: seq<Progress>, entries: seq<StepResult>)
    requires k < |steps| == |f| == |entries| && |g| == |f| + 1
  {
    && Turn(f[k], apply(steps[k], g[k].host, g[k].plan), g[k], g[k + 1])
    && entries[k].found == f[k]
    && (entries[k].applied <==> f[k].Pending? && !g[k + 1].failed)
    && (entries[k].failed <==> g[k + 1].failed && !g[k].failed)
  }

  /** A run that goes ahead, told step by step: the verdicts, the progress
      before and after each turn, and the Result and host it ends with. */
  ghost predicate Story(steps: seq<Step>, check: Checker, apply: Applier, h: Host, p: Plan, f: seq<Found>, g: seq<Progress>) {
    var (result, after) := OutcomeOf(steps, check, apply, false, h, p);
    && |f| == |steps| == |result.steps| && |g| == |steps| + 1
    && (forall k :: 0 <= k < |steps| ==> f[k] == FoundAt(steps, k, check, p))
    && (forall k :: 0 <= k < |steps| ==> Told(k, steps, apply, f, g, result.steps))
    && g[0].host == h && g[0].plan == PlanAfter(steps, |steps|, check, p) && !g[0].failed
    && after == g[|steps|].host && result.failed == g[|steps|].failed && result.token == g[|steps|].plan.token
    && result.blocked == [] && result.configWritten == !g[|steps|].plan.configExists
  }

  lemma StepTold(steps: seq<Step>, k: nat, check: Checker, apply: Applier, h: Host, p: Plan)
    requires k < |steps| && Proceeds(steps, check, false, p)
    ensures var (result, _) := OutcomeOf(steps, check, apply, false, h, p);
            var f, g, g' := FoundAt(steps, k, check, p), ProgressAt(steps, k, check, apply, h, p), ProgressAt(steps, k + 1, check, apply, h, p);
            && |result.steps| == |steps|
            && Turn(f, apply(steps[k], g.host, g.plan), g, g')
            && result.steps[k].found == f
            && (result.steps[k].applied <==> f.Pending? && !g'.failed)
            && (result.steps[k].failed <==> g'.failed && !g.failed)
  {
    SurveyIsChain(steps, |steps|, check, p);
    var s := Surveyed(steps, |steps|, check, p);
    EntriesSettle(steps, k + 1, |steps|, apply, h, s.entries, s.plan);
    EntriesSettle(steps, k, k, apply, h, s.entries, s.plan);
  }

  lemma ToldAt(steps: seq<Step>, k: nat, check: Checker, apply: Applier, h: Host, p: Plan,
               f: seq<Found>, g: seq<Progress>, entries: seq<StepResult>)
    requires k < |steps| == |f| == |entries| && |g| == |f| + 1 && Proceeds(steps, check, false, p)
    requires entries == OutcomeOf(steps, check, apply, false, h, p).0.steps && f[k] == FoundAt(steps, k, check, p)
    requires g[k] == ProgressAt(steps, k, check, apply, h, p) && g[k + 1] == ProgressAt(steps, k + 1, check, apply, h, p)
    ensures Told(k, steps, apply, f, g, entries)
  {
    StepTold(steps, k, check, apply, h, p);
  }

  /** Where the story begins and ends. */
  lemma StoryEnds(steps: seq<Step>, check: Checker, apply: Applier, h: Host, p: Plan)
    requires Proceeds(steps, check, false, p)
    ensures var (result, after) := OutcomeOf(steps, check, apply, false, h, p);
            var g0, g := ProgressAt(steps, 0, check, apply, h, p), ProgressAt(steps, |steps|, check, apply, h, p);
            && g0.host == h && g0.plan == PlanAfter(steps, |steps|, check, p) && !g0.failed && |result.steps| == |steps|
            && after == g.host && result.failed == g.failed && result.token == g.plan.token
            && result.blocked == [] && result.configWritten == !g.plan.configExists
  {
    SurveyIsChain(steps, |steps|, check, p);
  }

  lemma StoryOf(steps: seq<Step>, check: Checker, apply: Applier, h: Host, p: Plan) returns (f: seq<Found>, g: seq<Progress>)
    requires Proceeds(steps, check, false, p)
    ensures Story(steps, check, apply, h, p, f, g)
  {
    f := seq(|steps|, k requires 0 <= k < |steps| => FoundAt(steps, k, check, p));
    g := seq(|steps| + 1, k requires 0 <= k <= |steps| => ProgressAt(steps, k, check, apply, h, p));
    StoryEnds(steps, check, apply, h, p);
    var entries := OutcomeOf(steps, check, apply, false, h, p).0.steps;
    forall k | 0 <= k < |steps|
      ensures Told(k, steps, apply, f, g, entries)
    {
      ToldAt(steps, k, check, apply, h, p, f, g, entries);
    }
  }

  /** A Result that is not an error records every step's verdict. */
  lemma FoundsOf(steps: seq<Step>, check: Checker, apply: Applier, dryRun: bool, h: Host, p: Plan)
    ensures var (result, _) := OutcomeOf(steps, check, apply, dryRun, h, p);
            !result.failed || Proceeds(steps, check, dryRun, p) ==>
              |result.steps| == |steps| && forall k :: 0 <= k < |steps| ==> result.steps[k].found == FoundAt(steps, k, check, p)
  {
    SurveyIsChain(steps, |steps|, check, p);
    if Proceeds(steps, check, dryRun, p) {
      forall k | 0 <= k < |steps|
        ensures OutcomeOf(steps, check, apply, dryRun, h, p).0.steps[k].found == FoundAt(steps, k, check, p)
      {
        StepTold(steps, k, check, apply, h, p);
      }
    }
  }
}
