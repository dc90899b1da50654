/** The check-all-then-apply machine (internal/core/setup/reconcile.go). */
module Reconcile {
  import opened Wrappers
  import opened Text
  import opened ConfigKey
  import opened Render
  import opened Resolve
  import opened Host
  import opened Setup
  import opened Steps
  import TokenStore

  datatype Result = Result(
    steps: seq<StepResult>,
    blocked: seq<Step>,
    dryRun: bool,
    health: Health,
    token: Option<string>,
    configWritten: bool,
    failed: bool)

  // ---- the machine as a function -------------------------------------------

  /** The steps as the machine sees them: any Check over a plan, and any Apply
      over a host and a plan. */
  type Checker = (Step, Plan) -> Checked
  type Applier = (Step, Host, Plan) -> Applied

  /** The first `k` Checks, stopping at one that fails. */
  datatype Survey = Survey(entries: seq<StepResult>, blocked: seq<Step>, plan: Plan, failed: bool)

  function Surveyed(steps: seq<Step>, k: nat, check: Checker, p: Plan): (s: Survey)
    requires k <= |steps|
    ensures |s.entries| <= k && (!s.failed ==> |s.entries| == k)
  {
    if k == 0 then Survey([], [], p, false)
    else
      var s := Surveyed(steps, k - 1, check, p);
      if s.failed then s
      else
        var c := check(steps[k - 1], s.plan);
        var failed := c.found.CheckFailed?;
        Survey(
          s.entries + [StepResult(steps[k - 1], c.found, false, failed)],
          s.blocked + if c.found.Blocked? then [steps[k - 1]] else [],
          c.plan,
          failed)
  }

  /** The Pending ones of the first `k` steps applied, stopping at one that fails. */
  function Progressed(steps: seq<Step>, k: nat, apply: Applier, h: Host, entries: seq<StepResult>, p: Plan): (g: Progress)
    requires k <= |steps| == |entries|
    ensures |g.entries| == |entries|
  {
    if k == 0 then Progress(entries, h, p, false)
    else
      var g := Progressed(steps, k - 1, apply, h, entries, p);
      if g.failed || !entries[k - 1].found.Pending? then g
      else
        var a := apply(steps[k - 1], g.host, g.plan);
        Progress(g.entries[k - 1 := g.entries[k - 1].(applied := a.ok, failed := !a.ok)], a.host, a.plan, !a.ok)
  }

  /** fill: what the run produced, copied onto the Result on every exit past
      the checks. */
  function Filled(entries: seq<StepResult>, blocked: seq<Step>, dryRun: bool, p: Plan, failed: bool): Result {
    Result(entries, blocked, dryRun, p.health, p.token, !p.configExists, failed)
  }

  function OutcomeOf(steps: seq<Step>, check: Checker, apply: Applier, dryRun: bool, h: Host, p: Plan): (Result, Host) {
    var s := Surveyed(steps, |steps|, check, p);
    if s.failed then (Result(s.entries, s.blocked, dryRun, Health(false, false, false, false), None, false, true), h)
    else if dryRun || s.blocked != [] then (Filled(s.entries, s.blocked, dryRun, s.plan, false), h)
    else
      var g := Progressed(steps, |steps|, apply, h, s.entries, s.plan);
      (Filled(g.entries, s.blocked, dryRun, g.plan, g.failed), g.host)
  }

  function Checks(o: Options, r: Run, h: Host): Checker {
    (s, p) => Check(s, o, r, h, p)
  }

  function Applies(o: Options, r: Run): Applier {
    (s, h, p) => Apply(s, o, r, h, p)
  }

  /** A whole run of the seven steps: its Result, and the host it leaves. */
  function Outcome(o: Options, r: Run, h: Host): (Result, Host) {
    OutcomeOf(STEPS, Checks(o, r, h), Applies(o, r), o.dryRun, h, NewPlan(o))
  }

  // ---- the machine ---------------------------------------------------------

  class Provisioner {
    const o: Options
    const r: Run
    var host: Host
    var plan: Plan
    var steps: seq<StepResult>
    var blocked: seq<Step>

    constructor (o: Options, r: Run, host: Host)
      ensures this.o == o && this.r == r && this.host == host && plan == NewPlan(o)
    {
      this.o, this.r, this.host := o, r, host;
      plan, steps, blocked := NewPlan(o), [], [];
    }

    /** runOver: check every step; apply the pending ones in order only when
        nothing is blocked and the run is not a dry one. */
    method RunOver(list: seq<Step>) returns (result: Result)
      requires plan == NewPlan(o)
      modifies this
      ensures (result, host) == OutcomeOf(list, Checks(o, r, old(host)), Applies(o, r), o.dryRun, old(host), NewPlan(o))
      ensures list == STEPS ==> (result, host) == Outcome(o, r, old(host))
    {
      steps, blocked := [], [];
      ghost var check := Checks(o, r, host);
      for i := 0 to |list|
        invariant host == old(host)
        invariant Surveyed(list, i, check, NewPlan(o)) == Survey(steps, blocked, plan, false)
      {
        var found := CheckStep(list[i]);
        steps := steps + [StepResult(list[i], found, false, found.CheckFailed?)];
        assert blocked + [] == blocked;
        if found.CheckFailed? {
          SurveyStops(list, i + 1, check, NewPlan(o));
          return Result(steps, blocked, o.dryRun, Health(false, false, false, false), None, false, true);
        }
        if found.Blocked? {
          blocked := blocked + [list[i]];
        }
      }
      if o.dryRun || blocked != [] {
        return Filled(steps, blocked, o.dryRun, plan, false);
      }
      var failed := ApplyPending(list);
      result := Filled(steps, blocked, o.dryRun, plan, failed);
    }

    /** applyPending: each pending step's Apply, stopping at the first failure
        and recording it against the step that failed. */
    method ApplyPending(list: seq<Step>) returns (failed: bool)
      requires |steps| == |list|
      modifies this`host, this`plan, this`steps
      ensures Progressed(list, |list|, Applies(o, r), old(host), old(steps), old(plan)) == Progress(steps, host, plan, failed)
    {
      ghost var apply := Applies(o, r);
      ghost var entries, h, p := steps, host, plan;
      for i := 0 to |list|
        invariant |steps| == |list| && forall j :: i <= j < |list| ==> steps[j] == entries[j]
        invariant Progressed(list, i, apply, h, entries, p) == Progress(steps, host, plan, false)
      {
        ProgressNext(list, i, apply, h, entries, p, Progress(steps, host, plan, false));
        if steps[i].found.Pending? {
          var ok := ApplyStep(list[i]);
          steps := steps[i := steps[i].(applied := ok, failed := !ok)];
          if !ok {
            ProgressStops(list, i + 1, apply, h, entries, p);
            return true;
          }
        }
      }
      failed := false;
    }

    method CheckStep(s: Step) returns (found: Found)
      modifies this`plan
      ensures Checked(found, plan) == Check(s, o, r, host, old(plan))
    {
      match s
      case DirectoryStep => found := CheckDirectoryStep();
      case ConfigStep => found := CheckConfigStep();
      case TokenStep => found := CheckTokenStep();
      case BinaryStep => found := CheckBinaryStep();
      case InstallStep => found := CheckInstallStep();
      case StartStep => found := CheckStartStep();
      case VerifyStep => found := Pending;
    }

    method ApplyStep(s: Step) returns (ok: bool)
      modifies this`host, this`plan
      ensures Applied(ok, host, plan) == Apply(s, o, r, old(host), old(plan))
    {
      match s
      case DirectoryStep => ok := ApplyDirectoryStep();
      case ConfigStep => ok := ApplyConfigStep();
      case TokenStep => ok := ApplyTokenStep();
      case BinaryStep => ok := ApplyBinaryStep();
      case InstallStep => ok := ApplyInstallStep();
      case StartStep => ok := ApplyStartStep();
      case VerifyStep => ok := ApplyVerifyStep();
    }

    method CheckDirectoryStep() returns (found: Found)
      modifies this`plan
      ensures Checked(found, plan) == CheckDirectory(o, r, host, old(plan))
      ensures !found.Blocked? && (Decided(found) ==> DirectoryVerdict(o, host, found))
    {
      DirectoryChecked(o, r, host, plan);
      if !Owns(o) {
        return Satisfied;
      }
      if StatDir in r.faults || host.dir.Redirected? || host.dir.NotADirectory? {
        return CheckFailed;
      }
      if host.dir.Missing? || !host.dir.locked {
        return Pending;
      }
      found := Satisfied;
    }

    method ApplyDirectoryStep() returns (ok: bool)
      modifies this`host
      ensures Applied(ok, host, plan) == ApplyDirectory(o, r, old(host), plan)
      ensures DirectoryTurn(o, Pending, Begun(old(host), old(plan)), Reached(Applied(ok, host, plan)))
    {
      DirectoryApplied(o, r, Pending, Begun(host, plan), Reached(ApplyDirectory(o, r, host, plan)));
      if !Owns(o) {
        return true;
      }
      if MakeDir in r.faults || host.dir.NotADirectory? {
        return false;
      }
      if host.dir.Missing? {
        host := host.(dir := Present(false));
      }
      if LockDir in r.faults {
        return false;
      }
      if host.dir.Present? {
        host := host.(dir := Present(true));
      }
      ok := true;
    }

    /** refuseDisagreements: every provisioned value that differs from what the
        existing configuration resolves to. An unregistered one ends the scan. */
    method RefuseDisagreements(v: Values) returns (errs: seq<string>)
      ensures errs == [] <==> !Disagrees(o, v)
      ensures forall k :: k in errs ==> exists i :: 0 <= i < |o.provisioned| && o.provisioned[i].key == k && Disagreement(o, v, o.provisioned[i])
    {
      errs := [];
      for i := 0 to |o.provisioned|
        invariant errs == [] <==> forall j :: 0 <= j < i ==> !Disagreement(o, v, o.provisioned[j])
        invariant forall k :: k in errs ==> exists j :: 0 <= j < i && o.provisioned[j].key == k && Disagreement(o, v, o.provisioned[j])
      {
        var given := o.provisioned[i];
        if given.key !in v {
          assert Disagreement(o, v, o.provisioned[i]);
          return [given.key];
        }
        if !o.equivalent(given.key, given.value, v[given.key]) {
          assert Disagreement(o, v, o.provisioned[i]);
          errs := errs + [given.key];
        }
      }
    }

    method CheckConfigStep() returns (found: Found)
      modifies this`plan
      ensures Checked(found, plan) == CheckConfig(o, r, host, old(plan))
      ensures ConfigJudged(o, host, found, plan)
    {
      ConfigChecked(o, r, host, plan);
      if StatConfig in r.faults {
        return CheckFailed;
      }
      var existing := ConfigAt(host, o.configPath);
      if existing.Some? {
        if ReadConfig in r.faults {
          return CheckFailed;
        }
        var v := Startable(o, existing.value);
        if v.None? {
          return CheckFailed;
        }
        var errs := RefuseDisagreements(v.value);
        if errs != [] {
          return CheckFailed;
        }
        plan := plan.(values := v, configExists := true);
        return Satisfied;
      }
      var data := RenderConfig(o.spec, o.provisioned, o.dialect);
      if data.Failure? {
        return CheckFailed;
      }
      var v := Startable(o, data.value);
      if v.None? {
        return CheckFailed;
      }
      plan := plan.(values := v, configExists := false);
      found := Pending;
    }

    method ApplyConfigStep() returns (ok: bool)
      modifies this`host, this`plan
      ensures Applied(ok, host, plan) == ApplyConfig(o, r, old(host), old(plan))
      ensures ConfigTurn(o, r, Pending, Begun(old(host), old(plan)), Reached(Applied(ok, host, plan)))
    {
      ConfigApplied(o, r, Pending, Begun(host, plan), Reached(ApplyConfig(o, r, host, plan)));
      var data := RenderConfig(o.spec, o.provisioned, o.dialect);
      if data.Failure? {
        return false;
      }
      var path := Lower(o.configPath);
      if path in host.configs || CreateConfig in r.faults {
        return false;
      }
      if WriteConfig in r.faults {
        host := host.(configs := host.configs[path := r.torn]);
        return false;
      }
      host := host.(configs := host.configs[path := data.value]);
      if RereadConfig in r.faults {
        return false;
      }
      var v := ResolveBytes(o.spec, data.value, o.dialect);
      if v.Failure? {
        return false;
      }
      plan := plan.(values := Some(v.value));
      ok := true;
    }

    method CheckTokenStep() returns (found: Found)
      modifies this`plan
      ensures Checked(found, plan) == CheckToken(o, r, host, old(plan))
      ensures plan.values.Some? ==> TokenJudged(o, r, host, found, plan.values.value)
    {
      if plan.values.Some? {
        TokenChecked(o, r, host, plan);
      }
      if plan.values.None? {
        return CheckFailed;
      }
      if AuthDisabled(plan.values.value) {
        return Satisfied;
      }
      if ReadStore in r.faults {
        return CheckFailed;
      }
      var tokens := LoadOrEmpty(host, StorePath(plan.values.value));
      if tokens.None? {
        return CheckFailed;
      }
      var store := new TokenStore.Store(tokens.value);
      var usable := store.AnyUsable(r.now);
      if usable {
        return Satisfied;
      }
      var taken := store.Find(o.tokenLabel);
      if taken.Some? {
        return CheckFailed;
      }
      plan := plan.(restartWanted := true);
      found := Pending;
    }

    method ApplyTokenStep() returns (ok: bool)
      modifies this`host, this`plan
      ensures Applied(ok, host, plan) == ApplyToken(o, r, old(host), old(plan))
      ensures TokenTurn(o, r, Pending, Begun(old(host), old(plan)), Reached(Applied(ok, host, plan)))
    {
      TokenApplied(o, r, Pending, Begun(host, plan), Reached(ApplyToken(o, r, host, plan)));
      if plan.values.None? || RereadStore in r.faults {
        return false;
      }
      var path := StorePath(plan.values.value);
      var tokens := LoadOrEmpty(host, path);
      var expiry := ExpiryOf(o, r.now);
      if tokens.None? || expiry.None? || RandomToken in r.faults {
        return false;
      }
      var store := new TokenStore.Store(tokens.value);
      var err := store.Add(MintedEntry(o, r, expiry.value));
      if err.Some? || SaveStore in r.faults {
        return false;
      }
      host := host.(stores := host.stores[Lower(path) := Holding(store.tokens)]);
      if FlushFails(o, r) {
        return false;
      }
      plan := plan.(token := Some(r.minted));
      ok := LockStore !in r.faults;
    }

    method CheckBinaryStep() returns (found: Found)
      modifies this`plan
      ensures Checked(found, plan) == CheckBinary(o, r, host, old(plan))
      ensures BinaryJudged(o, host, found) && plan.binPath == ChosenBin(o)
      ensures found.Pending? && IsRunning(host) && BinaryAt(host, o.absDest).Some? ==> plan.restartWanted
    {
      BinaryChecked(o, r, host, plan);
      if o.noCopy {
        plan := plan.(binPath := o.source);
        return Satisfied;
      }
      plan := plan.(binPath := o.dest);
      if SameFile(o, host) {
        return Satisfied;
      }
      if ReadDest in r.faults {
        return CheckFailed;
      }
      var dest, source := BinaryAt(host, o.absDest), BinaryAt(host, o.source);
      if dest.None? {
        return Pending;
      }
      if ReadSource in r.faults || source.None? {
        return CheckFailed;
      }
      if o.sum(source.value) == o.sum(dest.value) {
        return Satisfied;
      }
      if ScmAtBinary in r.faults {
        return CheckFailed;
      }
      if !IsRunning(host) {
        return Pending;
      }
      if o.restart {
        plan := plan.(restartWanted := true);
        return Pending;
      }
      found := Blocked(Restart);
    }

    method ApplyBinaryStep() returns (ok: bool)
      modifies this`host
      ensures Applied(ok, host, plan) == ApplyBinary(o, r, old(host), plan)
      ensures BinaryTurn(o, Pending, Begun(old(host), old(plan)), Reached(Applied(ok, host, plan)))
    {
      BinaryApplied(o, r, Pending, Begun(host, plan), Reached(ApplyBinary(o, r, host, plan)));
      if o.noCopy || SameFile(o, host) {
        return true;
      }
      if MakeBinDir in r.faults {
        return false;
      }
      var source := BinaryAt(host, o.source);
      if BinaryAt(host, o.absDest).Some? {
        if StopOld in r.faults {
          return false;
        }
        host := Stopped(host);
      }
      if CopyBinary in r.faults || source.None? {
        return false;
      }
      host := host.(binaries := host.binaries[Lower(o.absDest) := if SumCopy in r.faults then r.torn else source.value]);
      ok := SumCopy !in r.faults;
    }

    method CheckInstallStep() returns (found: Found)
      modifies this`plan
      ensures Checked(found, plan) == CheckInstall(o, r, host, old(plan))
      ensures old(plan).binPath == ChosenBin(o) ==> InstallJudged(o, host, found) && plan.definition == Wanted(o)
    {
      if plan.binPath == ChosenBin(o) {
        InstallChecked(o, r, host, plan);
      }
      var want := [plan.binPath, CONFIG_FLAG, o.configPath];
      plan := plan.(definition := want);
      if ScmAtInstall in r.faults {
        return CheckFailed;
      }
      if host.service.None? {
        return Pending;
      }
      var command := host.service.value.command;
      if command.None? {
        return Blocked(Reinstall);
      }
      if SameCommand(command.value, want) {
        return Satisfied;
      }
      found := if o.reinstall then Pending else Blocked(Reinstall);
    }

    method RemoveExisting() returns (ok: bool)
      modifies this`host
      ensures (ok, host) == Removed(r, old(host))
      ensures ok ==> host == old(host).(service := None)
      ensures !ok ==> host == old(host) || host == Stopped(old(host))
    {
      if ScmAtRemove in r.faults {
        return false;
      }
      if host.service.None? {
        return true;
      }
      if RemoveStop in r.faults {
        return false;
      }
      host := Stopped(host);
      if RemoveDelete in r.faults {
        return false;
      }
      host := host.(service := None);
      ok := true;
    }

    method Install() returns (ok: bool)
      modifies this`host, this`plan
      ensures Applied(ok, host, plan) == Installed(o, r, old(host), old(plan))
      ensures ok ==> old(host).service.None? && host.service == Registration(o, old(plan)) && Vetted(o, old(host))
      ensures !ok && SecureFiles !in r.faults ==> host == old(host)
      ensures host != old(host) ==> host == old(host).(service := Registration(o, old(plan))) && Vetted(o, old(host))
    {
      var text := ConfigAt(host, o.configPath);
      if InstallRead in r.faults || text.None? {
        return false;
      }
      if Startable(o, text.value).None? || !o.binDirSafe {
        return false;
      }
      if host.service.Some? || ScmInstall in r.faults {
        return false;
      }
      var command := [AbsBin(o, plan.binPath), CONFIG_FLAG, o.configPath];
      host := host.(service := Some(Service(Some(command), NotRunning)));
      if SecureFiles in r.faults {
        return false;
      }
      plan := plan.(binPath := AbsBin(o, plan.binPath), definition := command);
      ok := true;
    }

    method ApplyInstallStep() returns (ok: bool)
      modifies this`host, this`plan
      ensures Applied(ok, host, plan) == ApplyInstall(o, r, old(host), old(plan))
      ensures InstallTurn(o, r, Pending, Begun(old(host), old(plan)), Reached(Applied(ok, host, plan)))
    {
      InstallApplied(o, r, Pending, Begun(host, plan), Reached(ApplyInstall(o, r, host, plan)));
      if o.reinstall {
        var removed := RemoveExisting();
        if !removed {
          return false;
        }
      }
      ok := Install();
    }

    method CheckStartStep() returns (found: Found)
      modifies this`plan
      ensures Checked(found, plan) == CheckStart(o, r, host, old(plan))
      ensures StartJudged(o, host, found, plan) && plan == old(plan)
    {
      StartChecked(o, r, host, plan);
      if ScmAtStart in r.faults {
        return CheckFailed;
      }
      if !IsRunning(host) {
        return Pending;
      }
      if plan.restartWanted {
        return if o.restart then Pending else Blocked(Restart);
      }
      found := Satisfied;
    }

    method ApplyStartStep() returns (ok: bool)
      modifies this`host
      ensures Applied(ok, host, plan) == ApplyStart(o, r, old(host), plan)
      ensures StartTurn(o, r, Pending, Begun(old(host), old(plan)), Reached(Applied(ok, host, plan)))
    {
      StartApplied(o, r, Pending, Begun(host, plan), Reached(ApplyStart(o, r, host, plan)));
      if ScmAtApply in r.faults {
        return false;
      }
      if plan.restartWanted {
        if host.service.Some? && StopForStart in r.faults {
          return false;
        }
        host := Stopped(host);
      }
      if host.service.None? {
        return false;
      }
      if IsRunning(host) {
        return true;
      }
      var process := Launched(o, host, r.now);
      if StartService in r.faults || process.None? {
        return false;
      }
      host := host.(service := Some(host.service.value.(state := Running(process.value))));
      ok := true;
    }

    method ApplyVerifyStep() returns (ok: bool)
      modifies this`plan
      ensures Applied(ok, host, plan) == ApplyVerify(o, r, host, old(plan))
      ensures VerifyTurn(o, r, Begun(host, old(plan)), Reached(Applied(ok, host, plan)))
    {
      VerifyApplied(o, r, Begun(host, plan), Reached(ApplyVerify(o, r, host, plan)));
      if plan.values.None? || Cancelled in r.faults {
        return false;
      }
      var reachable := IsRunning(host) && HealthDown !in r.faults;
      plan := plan.(health := Health(true, reachable, false, false));
      if !reachable {
        return false;
      }
      if AuthDisabled(plan.values.value) || !o.protectedPath || plan.token.None? || AuthUnreachable in r.faults {
        plan := plan.(health := plan.health.(authSkipped := true));
        return true;
      }
      ok := Accepts(o, host.service.value.state.process, plan.token.value);
      plan := plan.(health := plan.health.(authProved := ok));
    }
  }

  /** A failed Check ends the survey. */
  lemma {:induction false} SurveyStops(steps: seq<Step>, k: nat, check: Checker, p: Plan)
    requires k <= |steps| && Surveyed(steps, k, check, p).failed
    ensures Surveyed(steps, |steps|, check, p) == Surveyed(steps, k, check, p)
    decreases |steps| - k
  {
    if k < |steps| {
      SurveyStops(steps, k + 1, check, p);
    }
  }

  /** One turn of the apply loop. */
  lemma ProgressNext(steps: seq<Step>, k: nat, apply: Applier, h: Host, entries: seq<StepResult>, p: Plan, g: Progress)
    requires k < |steps| == |entries| && Progressed(steps, k, apply, h, entries, p) == g && !g.failed && g.entries[k] == entries[k]
    ensures Progressed(steps, k + 1, apply, h, entries, p) ==
            if !g.entries[k].found.Pending? then g
            else
              var a := apply(steps[k], g.host, g.plan);
              Progress(g.entries[k := g.entries[k].(applied := a.ok, failed := !a.ok)], a.host, a.plan, !a.ok)
  {
  }

  /** A failed Apply ends the run. */
  lemma {:induction false} ProgressStops(steps: seq<Step>, k: nat, apply: Applier, h: Host, entries: seq<StepResult>, p: Plan)
    requires k <= |steps| == |entries| && Progressed(steps, k, apply, h, entries, p).failed
    ensures Progressed(steps, |steps|, apply, h, entries, p) == Progressed(steps, k, apply, h, entries, p)
    decreases |steps| - k
  {
    if k < |steps| {
      ProgressStops(steps, k + 1, apply, h, entries, p);
    }
  }
}
