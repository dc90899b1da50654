/** Theorems about whole provisioning runs of the seven steps, over every
    combination of options, every host and every set of failing calls. */
module Provisioning {
  import opened Wrappers
  import opened Text
  import opened ConfigKey
  import opened Render
  import opened Resolve
  import opened Host
  import opened Setup
  import opened Steps
  import opened Reconcile
  import opened Runs
  import TokenStore

  // ---- the seven checks, in order ------------------------------------------

  ghost function AtDirectory(o: Options, r: Run, h: Host): Checked { CheckDirectory(o, r, h, NewPlan(o)) }
  ghost function AtConfig(o: Options, r: Run, h: Host): Checked { CheckConfig(o, r, h, AtDirectory(o, r, h).plan) }
  ghost function AtToken(o: Options, r: Run, h: Host): Checked { CheckToken(o, r, h, AtConfig(o, r, h).plan) }
  ghost function AtBinary(o: Options, r: Run, h: Host): Checked { CheckBinary(o, r, h, AtToken(o, r, h).plan) }
  ghost function AtInstall(o: Options, r: Run, h: Host): Checked { CheckInstall(o, r, h, AtBinary(o, r, h).plan) }
  ghost function AtStart(o: Options, r: Run, h: Host): Checked { CheckStart(o, r, h, AtInstall(o, r, h).plan) }

  /** The run gets to apply: every step decided, and not a dry run. */
  ghost predicate Goes(o: Options, r: Run, h: Host) {
    Proceeds(STEPS, Checks(o, r, h), o.dryRun, NewPlan(o))
  }

  lemma OneCheck(k: nat, c: Checker, p: Plan, q: Plan)
    requires k < 7 && PlanAfter(STEPS, k, c, p) == q
    ensures FoundAt(STEPS, k, c, p) == c(STEPS[k], q).found && PlanAfter(STEPS, k + 1, c, p) == c(STEPS[k], q).plan
  {
  }

  lemma Dispatched(o: Options, r: Run, h: Host, q: Plan)
    ensures var c := Checks(o, r, h);
            && c(STEPS[0], q) == CheckDirectory(o, r, h, q) && c(STEPS[1], q) == CheckConfig(o, r, h, q)
            && c(STEPS[2], q) == CheckToken(o, r, h, q)
  {
  }

  lemma FirstChecks(o: Options, r: Run, h: Host)
    ensures var c, p := Checks(o, r, h), NewPlan(o);
            && FoundAt(STEPS, 0, c, p) == AtDirectory(o, r, h).found
            && FoundAt(STEPS, 1, c, p) == AtConfig(o, r, h).found
            && FoundAt(STEPS, 2, c, p) == AtToken(o, r, h).found
            && PlanAfter(STEPS, 3, c, p) == AtToken(o, r, h).plan
  {
    var c, p := Checks(o, r, h), NewPlan(o);
    Dispatched(o, r, h, p);
    OneCheck(0, c, p, p);
    Dispatched(o, r, h, AtDirectory(o, r, h).plan);
    OneCheck(1, c, p, AtDirectory(o, r, h).plan);
    Dispatched(o, r, h, AtConfig(o, r, h).plan);
    OneCheck(2, c, p, AtConfig(o, r, h).plan);
  }

  lemma LastChecks(o: Options, r: Run, h: Host, q: Plan)
    requires PlanAfter(STEPS, 3, Checks(o, r, h), NewPlan(o)) == q
    ensures var c, p := Checks(o, r, h), NewPlan(o);
            var b := CheckBinary(o, r, h, q);
            var i := CheckInstall(o, r, h, b.plan);
            var s := CheckStart(o, r, h, i.plan);
            && FoundAt(STEPS, 3, c, p) == b.found
            && FoundAt(STEPS, 4, c, p) == i.found
            && FoundAt(STEPS, 5, c, p) == s.found
            && FoundAt(STEPS, 6, c, p) == Pending
            && PlanAfter(STEPS, 7, c, p) == s.plan
  {
    var c, p := Checks(o, r, h), NewPlan(o);
    var b := CheckBinary(o, r, h, q);
    var i := CheckInstall(o, r, h, b.plan);
    OneCheck(3, c, p, q);
    OneCheck(4, c, p, b.plan);
    OneCheck(5, c, p, i.plan);
    OneCheck(6, c, p, CheckStart(o, r, h, i.plan).plan);
  }

  lemma ChainOfChecks(o: Options, r: Run, h: Host)
    ensures var c, p := Checks(o, r, h), NewPlan(o);
            && FoundAt(STEPS, 0, c, p) == AtDirectory(o, r, h).found
            && FoundAt(STEPS, 1, c, p) == AtConfig(o, r, h).found
            && FoundAt(STEPS, 2, c, p) == AtToken(o, r, h).found
            && FoundAt(STEPS, 3, c, p) == AtBinary(o, r, h).found
            && FoundAt(STEPS, 4, c, p) == AtInstall(o, r, h).found
            && FoundAt(STEPS, 5, c, p) == AtStart(o, r, h).found
            && FoundAt(STEPS, 6, c, p) == Pending
            && PlanAfter(STEPS, 7, c, p) == AtStart(o, r, h).plan
  {
    FirstChecks(o, r, h);
    LastChecks(o, r, h, AtToken(o, r, h).plan);
  }

  lemma DecidedEach(c: Checker, p: Plan)
    requires Proceeds(STEPS, c, false, p)
    ensures Decided(FoundAt(STEPS, 0, c, p)) && Decided(FoundAt(STEPS, 1, c, p)) && Decided(FoundAt(STEPS, 2, c, p))
    ensures Decided(FoundAt(STEPS, 3, c, p)) && Decided(FoundAt(STEPS, 4, c, p)) && Decided(FoundAt(STEPS, 5, c, p))
  {
  }

  lemma SevenDecided(c: Checker, p: Plan)
    requires Decided(FoundAt(STEPS, 0, c, p)) && Decided(FoundAt(STEPS, 1, c, p)) && Decided(FoundAt(STEPS, 2, c, p))
    requires Decided(FoundAt(STEPS, 3, c, p)) && Decided(FoundAt(STEPS, 4, c, p)) && Decided(FoundAt(STEPS, 5, c, p))
    requires Decided(FoundAt(STEPS, 6, c, p))
    ensures Proceeds(STEPS, c, false, p)
  {
  }

  lemma GoesDecided(o: Options, r: Run, h: Host)
    requires Goes(o, r, h)
    ensures Decided(AtDirectory(o, r, h).found) && Decided(AtConfig(o, r, h).found) && Decided(AtToken(o, r, h).found)
    ensures Decided(AtBinary(o, r, h).found) && Decided(AtInstall(o, r, h).found) && Decided(AtStart(o, r, h).found)
  {
    ChainOfChecks(o, r, h);
    DecidedEach(Checks(o, r, h), NewPlan(o));
  }

  // ---- what each verdict says about the host --------------------------------

  /** The verdicts of a run that goes ahead, the plan they projected, and the
      progress after each step's turn. */
  datatype Trail = Trail(d: Found, c: Found, t: Found, b: Found, i: Found, s: Found, plan: Plan, g: seq<Progress>)

  ghost predicate Verdicts(o: Options, r: Run, h: Host, w: Trail) {
    && DirectoryVerdict(o, h, w.d) && ConfigVerdict(o, h, w.c, w.plan) && TokenVerdict(o, r, h, w.t, w.plan.values.value)
    && BinaryVerdict(o, h, w.b) && InstallVerdict(o, h, w.i) && StartVerdict(o, h, w.s, w.plan)
    && w.plan.binPath == ChosenBin(o) && w.plan.token.None?
    && (w.plan.restartWanted <==> w.t.Pending? || (w.b.Pending? && IsRunning(h) && BinaryAt(h, o.absDest).Some?))
  }

  /** The trail's verdicts are the checks'. */
  ghost predicate Trails(o: Options, r: Run, h: Host, w: Trail) {
    && w.d == AtDirectory(o, r, h).found && w.c == AtConfig(o, r, h).found && w.t == AtToken(o, r, h).found
    && w.b == AtBinary(o, r, h).found && w.i == AtInstall(o, r, h).found && w.s == AtStart(o, r, h).found
  }

  lemma VerdictsHold(o: Options, r: Run, h: Host, f: seq<Found>, g: seq<Progress>) returns (w: Trail)
    requires Goes(o, r, h) && |f| == 7
    requires forall k :: 0 <= k < 7 ==> f[k] == FoundAt(STEPS, k, Checks(o, r, h), NewPlan(o))
    ensures w == Trail(f[0], f[1], f[2], f[3], f[4], f[5], PlanAfter(STEPS, 7, Checks(o, r, h), NewPlan(o)), g)
    ensures Verdicts(o, r, h, w) && Trails(o, r, h, w)
  {
    GoesDecided(o, r, h);
    ChainOfChecks(o, r, h);
    w := Trail(AtDirectory(o, r, h).found, AtConfig(o, r, h).found, AtToken(o, r, h).found, AtBinary(o, r, h).found,
               AtInstall(o, r, h).found, AtStart(o, r, h).found, AtStart(o, r, h).plan, g);
    DirectoryChecked(o, r, h, NewPlan(o));
    ConfigChecked(o, r, h, AtDirectory(o, r, h).plan);
    TokenChecked(o, r, h, AtConfig(o, r, h).plan);
    BinaryChecked(o, r, h, AtToken(o, r, h).plan);
    InstallChecked(o, r, h, AtBinary(o, r, h).plan);
    StartChecked(o, r, h, AtInstall(o, r, h).plan);
  }

  /** The first three turns: files and nothing else. */
  ghost predicate Beginning(o: Options, r: Run, h: Host, w: Trail) {
    && |w.g| == 8 && w.g[0].host == h && w.g[0].plan == w.plan && !w.g[0].failed
    && DirectoryTurn(o, w.d, w.g[0], w.g[1]) && ConfigTurn(o, r, w.c, w.g[1], w.g[2]) && TokenTurn(o, r, w.t, w.g[2], w.g[3])
  }

  /** Everything a run that goes ahead saw and did. */
  ghost predicate Tale(o: Options, r: Run, h: Host, w: Trail) {
    && Verdicts(o, r, h, w) && Beginning(o, r, h, w)
    && BinaryTurn(o, w.b, w.g[3], w.g[4])
    && InstallTurn(o, r, w.i, w.g[4], w.g[5]) && StartTurn(o, r, w.s, w.g[5], w.g[6]) && VerifyTurn(o, r, w.g[6], w.g[7])
  }

  // ---- the whole run ---------------------------------------------------------

  lemma EarlyTurns(o: Options, r: Run, f: seq<Found>, g: seq<Progress>, e: seq<StepResult>)
    requires |f| == 7 == |e| && |g| == 8
    requires forall k :: 0 <= k < 7 ==> Told(k, STEPS, Applies(o, r), f, g, e)
    ensures DirectoryTurn(o, f[0], g[0], g[1]) && ConfigTurn(o, r, f[1], g[1], g[2]) && TokenTurn(o, r, f[2], g[2], g[3])
  {
    assert Told(0, STEPS, Applies(o, r), f, g, e);
    DirectoryApplied(o, r, f[0], g[0], g[1]);
    assert Told(1, STEPS, Applies(o, r), f, g, e);
    ConfigApplied(o, r, f[1], g[1], g[2]);
    assert Told(2, STEPS, Applies(o, r), f, g, e);
    TokenApplied(o, r, f[2], g[2], g[3]);
  }

  lemma MiddleTurns(o: Options, r: Run, f: seq<Found>, g: seq<Progress>, e: seq<StepResult>)
    requires |f| == 7 == |e| && |g| == 8
    requires forall k :: 0 <= k < 7 ==> Told(k, STEPS, Applies(o, r), f, g, e)
    ensures BinaryTurn(o, f[3], g[3], g[4]) && InstallTurn(o, r, f[4], g[4], g[5])
  {
    assert Told(3, STEPS, Applies(o, r), f, g, e);
    BinaryApplied(o, r, f[3], g[3], g[4]);
    assert Told(4, STEPS, Applies(o, r), f, g, e);
    InstallApplied(o, r, f[4], g[4], g[5]);
  }

  lemma LateTurns(o: Options, r: Run, f: seq<Found>, g: seq<Progress>, e: seq<StepResult>)
    requires |f| == 7 == |e| && |g| == 8 && f[6] == Pending
    requires forall k :: 0 <= k < 7 ==> Told(k, STEPS, Applies(o, r), f, g, e)
    ensures StartTurn(o, r, f[5], g[5], g[6]) && VerifyTurn(o, r, g[6], g[7])
  {
    assert Told(5, STEPS, Applies(o, r), f, g, e);
    StartApplied(o, r, f[5], g[5], g[6]);
    assert Told(6, STEPS, Applies(o, r), f, g, e);
    VerifyApplied(o, r, g[6], g[7]);
  }

  /** What the Result records of step `k`. */
  ghost predicate Recorded(w: Trail, k: nat, f: Found, e: StepResult)
    requires |w.g| == 8 && k < 7
  {
    && e.found == f
    && (e.applied <==> f.Pending? && !w.g[k + 1].failed)
    && (e.failed <==> w.g[k + 1].failed && !w.g[k].failed)
  }

  ghost predicate Ends(w: Trail, result: Reconcile.Result, after: Host) {
    && |w.g| == 8 && |result.steps| == 7
    && after == w.g[7].host && result.failed == w.g[7].failed && result.token == w.g[7].plan.token
    && result.blocked == [] && result.configWritten == !w.g[7].plan.configExists
    && Recorded(w, 0, w.d, result.steps[0]) && Recorded(w, 1, w.c, result.steps[1]) && Recorded(w, 2, w.t, result.steps[2])
    && Recorded(w, 3, w.b, result.steps[3]) && Recorded(w, 4, w.i, result.steps[4]) && Recorded(w, 5, w.s, result.steps[5])
    && Recorded(w, 6, Pending, result.steps[6])
  }

  lemma Records(w: Trail, apply: Applier, f: seq<Found>, result: Reconcile.Result, after: Host)
    requires |f| == 7 == |result.steps| && |w.g| == 8
    requires w == Trail(f[0], f[1], f[2], f[3], f[4], f[5], w.plan, w.g) && f[6] == Pending
    requires forall k :: 0 <= k < 7 ==> Told(k, STEPS, apply, f, w.g, result.steps)
    requires after == w.g[7].host && result.failed == w.g[7].failed && result.token == w.g[7].plan.token
    requires result.blocked == [] && result.configWritten == !w.g[7].plan.configExists
    ensures Ends(w, result, after)
  {
    var e := result.steps;
    assert Told(0, STEPS, apply, f, w.g, e) && Told(1, STEPS, apply, f, w.g, e) && Told(2, STEPS, apply, f, w.g, e);
    assert Told(3, STEPS, apply, f, w.g, e) && Told(4, STEPS, apply, f, w.g, e) && Told(5, STEPS, apply, f, w.g, e);
    assert Told(6, STEPS, apply, f, w.g, e);
  }

  /** A run that goes ahead, with the turns its tale was made from. */
  lemma RunStory(o: Options, r: Run, h: Host) returns (w: Trail, f: seq<Found>)
    requires Goes(o, r, h)
    ensures Tale(o, r, h, w) && Trails(o, r, h, w)
    ensures Ends(w, Outcome(o, r, h).0, Outcome(o, r, h).1)
    ensures |f| == 7 && w == Trail(f[0], f[1], f[2], f[3], f[4], f[5], w.plan, w.g)
    ensures forall k :: 0 <= k < 7 ==> Told(k, STEPS, Applies(o, r), f, w.g, Outcome(o, r, h).0.steps)
  {
    var g;
    f, g := StoryOf(STEPS, Checks(o, r, h), Applies(o, r), h, NewPlan(o));
    var result := Outcome(o, r, h).0;
    w := VerdictsHold(o, r, h, f, g);
    EarlyTurns(o, r, f, g, result.steps);
    MiddleTurns(o, r, f, g, result.steps);
    VerifyPends(o, r, h);
    LateTurns(o, r, f, g, result.steps);
    Records(w, Applies(o, r), f, result, Outcome(o, r, h).1);
  }

  /** A run that goes ahead is its seven turns, and its Result reports them. */
  lemma RunTale(o: Options, r: Run, h: Host) returns (w: Trail)
    requires Goes(o, r, h)
    ensures Tale(o, r, h, w) && Trails(o, r, h, w)
    ensures Ends(w, Outcome(o, r, h).0, Outcome(o, r, h).1)
  {
    var f;
    w, f := RunStory(o, r, h);
  }

  lemma VerifyPends(o: Options, r: Run, h: Host)
    ensures FoundAt(STEPS, 6, Checks(o, r, h), NewPlan(o)) == Pending
  {
    ChainOfChecks(o, r, h);
  }

  /** A run that does not go ahead touches nothing and hands nothing over. */
  lemma Refused(o: Options, r: Run, h: Host)
    requires !Goes(o, r, h)
    ensures var (result, after) := Outcome(o, r, h);
            && after == h && result.token.None?
            && (!result.failed ==> o.dryRun || result.blocked != [])
            && forall i :: 0 <= i < |result.steps| ==> !result.steps[i].applied
  {
    var c, p := Checks(o, r, h), NewPlan(o);
    RefusalTouchesNothing(STEPS, c, Applies(o, r), o.dryRun, h, p);
    SurveyIsChain(STEPS, 7, c, p);
    ChecksKeepToken(STEPS, 7, o, r, h);
  }

  lemma {:induction false} ChecksKeepToken(steps: seq<Step>, k: nat, o: Options, r: Run, h: Host)
    requires k <= |steps|
    ensures PlanAfter(steps, k, Checks(o, r, h), NewPlan(o)).token.None?
  {
    if k > 0 {
      ChecksKeepToken(steps, k - 1, o, r, h);
    }
  }

  lemma SixDecide(o: Options, r: Run, h: Host)
    requires !o.dryRun
    requires Decided(AtDirectory(o, r, h).found) && Decided(AtConfig(o, r, h).found) && Decided(AtToken(o, r, h).found)
    requires Decided(AtBinary(o, r, h).found) && Decided(AtInstall(o, r, h).found) && Decided(AtStart(o, r, h).found)
    ensures Goes(o, r, h)
  {
    ChainOfChecks(o, r, h);
    SevenDecided(Checks(o, r, h), NewPlan(o));
  }

  lemma StepsRecorded(o: Options, r: Run, h: Host)
    requires Goes(o, r, h)
    ensures var e := Outcome(o, r, h).0.steps;
            && |e| == 7
            && e[2].found == AtToken(o, r, h).found && e[3].found == AtBinary(o, r, h).found
            && e[4].found == AtInstall(o, r, h).found && e[5].found == AtStart(o, r, h).found
  {
    var w := RunTale(o, r, h);
  }
}
