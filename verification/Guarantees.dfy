/** What a provisioning run guarantees, over every combination of options, every
    host and every set of failing calls; and what it does not. */
module Guarantees {
  import opened Wrappers
  import opened Text
  import opened ConfigKey
  import opened Render
  import opened Resolve
  import opened Host
  import opened Setup
  import opened Steps
  import opened Reconcile
  import opened Runs
  import opened Provisioning
  import TokenStore
  import RoundTrip

  // ---- an operator who asked for nothing loses nothing ------------------------

  /** Without --restart and --reinstall no run stops a running service, or
      touches its registration, whatever fails. */
  lemma RunningServiceIsLeftAlone(o: Options, r: Run, h: Host)
    requires !o.restart && !o.reinstall && IsRunning(h)
    ensures Outcome(o, r, h).1.service == h.service
  {
    if Goes(o, r, h) {
      var w := RunTale(o, r, h);
      BeforeBinary(o, r, h, w);
    } else {
      Refused(o, r, h);
    }
  }

  /** Up to the binary step's turn nothing but files has been touched. */
  lemma BeforeBinary(o: Options, r: Run, h: Host, w: Trail)
    requires Beginning(o, r, h, w)
    ensures w.g[3].host == h.(dir := w.g[1].host.dir, configs := w.g[2].host.configs, stores := w.g[3].host.stores)
    ensures w.g[3].plan == w.plan.(values := w.g[2].plan.values, token := w.g[3].plan.token)
  {
  }

  // ---- the token ----------------------------------------------------------------

  /** The store at `path` gained the run's token and nothing else changed. */
  ghost predicate Minted(o: Options, r: Run, h: Host, path: string, after: Host) {
    exists tokens, expiry ::
      && LoadOrEmpty(h, path) == Some(tokens) && ExpiryOf(o, r.now) == Some(expiry) && !TokenStore.HasLabel(tokens, o.tokenLabel)
      && after.stores == h.stores[Lower(path) := Holding(tokens + [MintedEntry(o, r, expiry)])]
  }

  /** On every exit, a failed one included, the Result carries a token exactly
      when a store was changed and the directory flush that followed did not
      fail; a changed store gained the run's token and nothing else. */
  lemma TokenIsReportedOnEveryExit(o: Options, r: Run, h: Host)
    ensures var (result, after) := Outcome(o, r, h);
            && (result.token.Some? <==> after.stores != h.stores && !FlushFails(o, r))
            && (result.token.Some? ==> result.token.value == r.minted)
            && (after.stores != h.stores ==> exists path :: Minted(o, r, h, path, after))
            && (after.stores != h.stores && FlushFails(o, r) ==> result.failed)
  {
    if Goes(o, r, h) {
      var w := RunTale(o, r, h);
      BeforeBinary(o, r, h, w);
      if Acts(w.t, w.g[2]) && w.g[3] != w.g[2] && w.g[3].host != w.g[2].host {
        var path := StorePath(w.g[2].plan.values.value);
        SavedIsMinted(o, r, h, path, w.g[2], w.g[3]);
        assert Minted(o, r, h, path, w.g[7].host);
      }
      TokenKept(o, r, h, w);
    } else {
      Refused(o, r, h);
    }
  }

  /** On Windows nothing is lost: the token is reported exactly when a store changed. */
  lemma TokenIsReportedOnWindows(o: Options, r: Run, h: Host)
    requires o.windows
    ensures Outcome(o, r, h).0.token.Some? <==> Outcome(o, r, h).1.stores != h.stores
  {
    TokenIsReportedOnEveryExit(o, r, h);
  }

  /** The token step alone writes the store, and decides what the plan holds. */
  lemma TokenKept(o: Options, r: Run, h: Host, w: Trail)
    requires Tale(o, r, h, w)
    ensures w.g[7].host.stores == w.g[3].host.stores && w.g[7].plan.token == w.g[3].plan.token
    ensures w.g[3].failed ==> w.g[7].failed
    ensures w.g[2].host.stores == h.stores
    ensures w.g[3].host.stores == h.stores ==> w.g[3].plan.token.None?
    ensures w.g[3].host.stores != h.stores ==>
              w.g[3].plan.token == (if FlushFails(o, r) then None else Some(r.minted)) && (FlushFails(o, r) ==> w.g[3].failed)
  {
    BeforeBinary(o, r, h, w);
    if w.g[3].host.stores == h.stores && w.g[3].plan.token.Some? {
      SavedIsMinted(o, r, h, StorePath(w.g[2].plan.values.value), w.g[2], w.g[3]);
    }
  }

  lemma SavedIsMinted(o: Options, r: Run, h: Host, path: string, g: Progress, g': Progress)
    requires SavedToken(o, r, path, g, g') && g.host.stores == h.stores
    ensures Minted(o, r, h, path, g'.host) && g'.host.stores != h.stores
  {
    var tokens, expiry :|
      && LoadOrEmpty(g.host, path) == Some(tokens) && ExpiryOf(o, r.now) == Some(expiry)
      && !TokenStore.HasLabel(tokens, o.tokenLabel)
      && g'.host.stores == g.host.stores[Lower(path) := Holding(tokens + [MintedEntry(o, r, expiry)])];
    assert LoadOrEmpty(h, path) == Some(tokens);
    assert |tokens + [MintedEntry(o, r, expiry)]| != |tokens|;
  }

  /** The file is there and resolves to `v`. */
  ghost predicate Configured(o: Options, h: Host, v: Values) {
    ConfigAt(h, o.configPath).Some? && Startable(o, ConfigAt(h, o.configPath).value) == Some(v)
  }

  /** Past the config step the file is there and holds what the run projected. */
  lemma ConfigSettled(o: Options, r: Run, h: Host, f: Found, p: Plan, g: Progress, g': Progress)
    requires ConfigVerdict(o, h, f, p) && ConfigTurn(o, r, f, g, g')
    requires g.host.configs == h.configs && g.plan == p && !g'.failed && !g.failed
    ensures Configured(o, g'.host, p.values.value) && g'.plan == p
  {
  }

  /** The registration names this run's configuration. */
  ghost predicate Registered(o: Options, h: Host) {
    && h.service.Some? && h.service.value.command.Some?
    && |h.service.value.command.value| == 3 && Lower(h.service.value.command.value[2]) == Lower(o.configPath)
  }

  lemma InstallSettled(o: Options, r: Run, h: Host, f: Found, g: Progress, g': Progress)
    requires InstallVerdict(o, h, f) && InstallTurn(o, r, f, g, g') && !g'.failed && !g.failed
    requires g.host.service == h.service || g.host.service == Stopped(h).service
    ensures Registered(o, g'.host)
  {
    if f.Satisfied? {
      assert SameCommand(h.service.value.command.value, Wanted(o));
    }
  }

  /** A process launched from such a registration read the configuration and,
      unless it disables authentication, the store that names. */
  lemma LaunchReads(o: Options, h: Host, v: Values, now: int)
    requires Registered(o, h) && Configured(o, h, v) && Launched(o, h, now).Some?
    ensures Launched(o, h, now).value.config == ConfigAt(h, o.configPath).value
    ensures Launched(o, h, now).value.tokens == if AuthDisabled(v) then [] else Tokens(h, StorePath(v))
  {
  }

  lemma SavedIsAccepted(o: Options, r: Run, path: string, g: Progress, g': Progress, p: Process)
    requires SavedToken(o, r, path, g, g') && p.tokens == Tokens(g'.host, path)
    ensures Accepts(o, p, r.minted)
  {
    var tokens, expiry :|
      && LoadOrEmpty(g.host, path) == Some(tokens) && ExpiryOf(o, r.now) == Some(expiry)
      && !TokenStore.HasLabel(tokens, o.tokenLabel)
      && g'.host.stores == g.host.stores[Lower(path) := Holding(tokens + [MintedEntry(o, r, expiry)])];
    assert p.tokens[|tokens|] == MintedEntry(o, r, expiry);
  }

  /** No step up to and including start failed. */
  ghost predicate PassedStart(result: Reconcile.Result) {
    |result.steps| == 7 && forall i :: 0 <= i <= 5 ==> !result.steps[i].failed
  }

  lemma PassedTurns(w: Trail, result: Reconcile.Result, after: Host)
    requires Ends(w, result, after) && PassedStart(result) && !w.g[0].failed
    ensures !w.g[1].failed && !w.g[2].failed && !w.g[3].failed && !w.g[4].failed && !w.g[5].failed && !w.g[6].failed
  {
    assert !result.steps[0].failed && !result.steps[1].failed && !result.steps[2].failed;
    assert !result.steps[3].failed && !result.steps[4].failed && !result.steps[5].failed;
  }

  /** Where a run stands once its start step has passed. */
  lemma StandsAfterStart(o: Options, r: Run, h: Host, w: Trail)
    requires Tale(o, r, h, w)
    requires !w.g[1].failed && !w.g[2].failed && !w.g[3].failed && !w.g[4].failed && !w.g[5].failed && !w.g[6].failed
    ensures w.g[2].plan == w.plan && w.g[5].plan.restartWanted == w.plan.restartWanted
    ensures Configured(o, w.g[5].host, w.plan.values.value) && Registered(o, w.g[5].host)
    ensures w.g[5].host.configs == w.g[2].host.configs && w.g[5].host.stores == w.g[3].host.stores
  {
    BeforeBinary(o, r, h, w);
    ConfigSettled(o, r, h, w.c, w.plan, w.g[1], w.g[2]);
    InstallSettled(o, r, h, w.i, w.g[4], w.g[5]);
  }

  lemma StartedAnew(o: Options, r: Run, f: Found, g: Progress, g': Progress, v: Values)
    requires StartTurn(o, r, f, g, g') && f.Pending? && !g.failed && !g'.failed && !IsRunning(StartBase(g))
    requires Configured(o, g.host, v) && Registered(o, g.host)
    ensures IsRunning(g'.host)
    ensures g'.host.service.value.state.process.config == ConfigAt(g'.host, o.configPath).value
    ensures g'.host.service.value.state.process.tokens == if AuthDisabled(v) then [] else Tokens(g'.host, StorePath(v))
  {
    LaunchReads(o, StartBase(g), v, r.now);
  }

  /** A run that minted a token and got past its start step has started the
      service after the save: the running process accepts the token. So its
      verification never finds the token refused. */
  lemma MintedTokenIsLive(o: Options, r: Run, h: Host)
    requires var result := Outcome(o, r, h).0; result.token.Some? && PassedStart(result)
    ensures var (result, after) := Outcome(o, r, h);
            && result.steps[5].applied && IsRunning(after)
            && Accepts(o, after.service.value.state.process, result.token.value)
            && (Cancelled !in r.faults && HealthDown !in r.faults ==> !result.failed)
  {
    if !Goes(o, r, h) {
      Refused(o, r, h);
      assert false;
    } else {
      var w := RunTale(o, r, h);
      PassedTurns(w, Outcome(o, r, h).0, Outcome(o, r, h).1);
      BeforeBinary(o, r, h, w);
      MintedAndStarted(o, r, h, w);
    }
  }

  lemma MintedAndStarted(o: Options, r: Run, h: Host, w: Trail)
    requires Tale(o, r, h, w) && w.g[3].plan.token.Some?
    requires !w.g[1].failed && !w.g[2].failed && !w.g[3].failed && !w.g[4].failed && !w.g[5].failed && !w.g[6].failed
    ensures w.s.Pending? && IsRunning(w.g[6].host) && w.g[6].plan.values.Some?
    ensures w.g[3].plan.token == Some(r.minted)
    ensures Accepts(o, w.g[6].host.service.value.state.process, r.minted)
  {
    var v := w.plan.values.value;
    StandsAfterStart(o, r, h, w);
    assert SavedToken(o, r, StorePath(v), w.g[2], w.g[3]);
    StartedAnew(o, r, w.s, w.g[5], w.g[6], v);
    SavedIsAccepted(o, r, StorePath(v), w.g[2], w.g[3], w.g[6].host.service.value.state.process);
  }

  // ---- re-running is the recovery -------------------------------------------------

  ghost predicate Succeeded(o: Options, r: Run, h: Host) {
    var result := Outcome(o, r, h).0;
    !o.dryRun && !result.failed && result.blocked == []
  }

  /** What the reconciler asks of the functions it is handed: comparing a value
      with itself finds no difference, and durations print and parse back. */
  ghost predicate Sound(o: Options) {
    && Inverse(o.dialect) && RoundTrip.WellNamed(o.spec)
    && forall k, x :: o.equivalent(k, x, x)
  }

  /** The state a successful run leaves: every step but the token and the
      registration is satisfied whatever the clock. */
  ghost predicate Settled(o: Options, h: Host, v: Values) {
    && FilesSettled(o, h, v)
    && (o.noCopy || SameFile(o, h) || CopyInPlace(o, h))
    && IsRunning(h) && h.service.value.command.Some?
  }

  lemma WrittenAgrees(o: Options, v: Values)
    requires Sound(o) && Rendered(o.spec, o.provisioned, o.dialect).Success?
    requires Startable(o, Rendered(o.spec, o.provisioned, o.dialect).value) == Some(v)
    ensures !Disagrees(o, v)
  {
    forall i | 0 <= i < |o.provisioned|
      ensures !Disagreement(o, v, o.provisioned[i])
    {
      RoundTrip.ProvisionedValuesSurvive(o.spec, o.provisioned, o.dialect, i);
    }
  }

  lemma DirectorySettled(o: Options, r: Run, h: Host, w: Trail)
    requires DirectoryVerdict(o, h, w.d) && Beginning(o, r, h, w) && !w.g[1].failed && Owns(o)
    ensures w.g[3].host.dir == Present(true)
  {
  }

  lemma StoreSettled(o: Options, r: Run, h: Host, v: Values, f: Found, g: Progress, g': Progress)
    requires TokenVerdict(o, r, h, f, v) && TokenTurn(o, r, f, g, g') && !g.failed && g.plan.token.None?
    requires !g'.failed || g'.host.stores != g.host.stores
    requires g.host.stores == h.stores && g.plan.values == Some(v) && !AuthDisabled(v)
    ensures LoadOrEmpty(g'.host, StorePath(v)).Some?
  {
    if f.Pending? {
      assert SavedToken(o, r, StorePath(v), g, g');
    }
  }

  lemma BinarySettled(o: Options, h: Host, f: Found, g: Progress, g': Progress)
    requires BinaryVerdict(o, h, f) && BinaryTurn(o, f, g, g') && !g.failed && !g'.failed && g.host.binaries == h.binaries
    ensures o.noCopy || SameFile(o, g'.host) || CopyInPlace(o, g'.host)
  {
  }

  /** The path the manager records is the one a later check asks for. */
  ghost predicate PathStable(o: Options) {
    Lower(AbsBin(o, ChosenBin(o))) == Lower(ChosenBin(o))
  }

  lemma CommandSettled(o: Options, r: Run, h: Host, f: Found, g: Progress, g': Progress)
    requires InstallVerdict(o, h, f) && InstallTurn(o, r, f, g, g') && !g.failed && !g'.failed && g.plan.binPath == ChosenBin(o)
    requires g.host.service == h.service || g.host.service == Stopped(h).service
    ensures g'.host.service.Some? && g'.host.service.value.command.Some?
    ensures SameCommand(g'.host.service.value.command.value, Wanted(o)) <==> f.Satisfied? || PathStable(o)
  {
    var want := Wanted(o);
    if f.Pending? {
      var got := g'.host.service.value.command.value;
      assert got == [AbsBin(o, ChosenBin(o)), CONFIG_FLAG, o.configPath];
      assert want[0] == ChosenBin(o) && want[1] == got[1] && want[2] == got[2];
    }
  }

  lemma SuccessGoes(o: Options, r: Run, h: Host)
    requires Succeeded(o, r, h)
    ensures Goes(o, r, h)
  {
    if !Goes(o, r, h) {
      Refused(o, r, h);
    }
  }

  lemma NothingFailed(o: Options, r: Run, h: Host, w: Trail)
    requires Tale(o, r, h, w) && !w.g[7].failed
    ensures !w.g[1].failed && !w.g[2].failed && !w.g[3].failed && !w.g[4].failed && !w.g[5].failed && !w.g[6].failed
  {
  }

  ghost predicate FilesSettled(o: Options, h: Host, v: Values) {
    && (Owns(o) ==> h.dir == Present(true))
    && Configured(o, h, v) && !Disagrees(o, v)
    && (!AuthDisabled(v) ==> LoadOrEmpty(h, StorePath(v)).Some?)
  }

  lemma ConfigAgrees(o: Options, r: Run, h: Host, w: Trail)
    requires ConfigVerdict(o, h, w.c, w.plan) && Sound(o)
    ensures !Disagrees(o, w.plan.values.value)
  {
    if w.c.Pending? {
      WrittenAgrees(o, w.plan.values.value);
    }
  }

  lemma TaleSettlesFiles(o: Options, r: Run, h: Host, w: Trail)
    requires Verdicts(o, r, h, w) && Beginning(o, r, h, w) && !w.g[1].failed && !w.g[2].failed && Sound(o)
    requires !w.g[3].failed || w.g[3].host.stores != h.stores
    ensures FilesSettled(o, w.g[3].host, w.plan.values.value)
  {
    var v := w.plan.values.value;
    BeforeBinary(o, r, h, w);
    ConfigSettled(o, r, h, w.c, w.plan, w.g[1], w.g[2]);
    ConfigAgrees(o, r, h, w);
    if Owns(o) {
      DirectorySettled(o, r, h, w);
    }
    if !AuthDisabled(v) {
      StoreSettled(o, r, h, v, w.t, w.g[2], w.g[3]);
    }
  }

  lemma Ending(o: Options, r: Run, h: Host, w: Trail)
    requires Tale(o, r, h, w) && !w.g[7].failed
    ensures w.g[7].host == w.g[3].host.(binaries := w.g[4].host.binaries, service := w.g[6].host.service)
    ensures w.g[5].host.service.Some? ==> IsRunning(w.g[7].host) && w.g[7].host.service.value.command == w.g[5].host.service.value.command
  {
  }

  lemma SettledFrame(o: Options, g3: Host, g4: Host, g7: Host, v: Values)
    requires FilesSettled(o, g3, v) && (o.noCopy || SameFile(o, g4) || CopyInPlace(o, g4))
    requires g7 == g3.(binaries := g4.binaries, service := g7.service) && IsRunning(g7) && g7.service.value.command.Some?
    ensures Settled(o, g7, v)
  {
  }

  lemma TaleNames(o: Options, r: Run, h: Host, w: Trail)
    requires Tale(o, r, h, w) && !w.g[7].failed
    ensures IsRunning(w.g[7].host) && w.g[7].host.service.value.command.Some?
    ensures SameCommand(w.g[7].host.service.value.command.value, Wanted(o)) <==> w.i.Satisfied? || PathStable(o)
  {
    NothingFailed(o, r, h, w);
    BeforeBinary(o, r, h, w);
    CommandSettled(o, r, h, w.i, w.g[4], w.g[5]);
    Ending(o, r, h, w);
  }

  lemma TaleSettles(o: Options, r: Run, h: Host, w: Trail)
    requires Tale(o, r, h, w) && !w.g[7].failed && Sound(o)
    ensures Settled(o, w.g[7].host, w.plan.values.value)
  {
    NothingFailed(o, r, h, w);
    BeforeBinary(o, r, h, w);
    TaleSettlesFiles(o, r, h, w);
    BinarySettled(o, h, w.b, w.g[3], w.g[4]);
    Ending(o, r, h, w);
    TaleNames(o, r, h, w);
    SettledFrame(o, w.g[3].host, w.g[4].host, w.g[7].host, w.plan.values.value);
  }

  // ---- the checks of the next run ---------------------------------------------

  lemma FilesAgain(o: Options, r: Run, h: Host, v: Values)
    requires r.faults == {} && Settled(o, h, v)
    ensures AtDirectory(o, r, h) == Checked(Satisfied, NewPlan(o))
    ensures AtConfig(o, r, h).found == Satisfied && AtConfig(o, r, h).plan == NewPlan(o).(values := Some(v), configExists := true)
  {
  }

  ghost predicate TokenHolds(h: Host, v: Values, now: int) {
    AuthDisabled(v) || TokenStore.Usable(Tokens(h, StorePath(v)), now)
  }

  lemma TokenAgain(o: Options, r: Run, h: Host, v: Values, p: Plan)
    requires r.faults == {} && Settled(o, h, v) && p.values == Some(v)
    ensures var c := CheckToken(o, r, h, p);
            && (c.found.Satisfied? <==> TokenHolds(h, v, r.now))
            && (c.found.Satisfied? ==> c.plan == p)
  {
  }

  lemma DeployAgain(o: Options, r: Run, h: Host, v: Values, p: Plan)
    requires r.faults == {} && Settled(o, h, v) && !p.restartWanted
    ensures var b := CheckBinary(o, r, h, p);
            var i := CheckInstall(o, r, h, b.plan);
            var s := CheckStart(o, r, h, i.plan);
            && b.found == Satisfied && s.found == Satisfied
            && (i.found.Satisfied? <==> SameCommand(h.service.value.command.value, Wanted(o)))
  {
  }

  ghost predicate Quiet(o: Options, r: Run, h: Host) {
    && AtDirectory(o, r, h).found.Satisfied? && AtConfig(o, r, h).found.Satisfied? && AtToken(o, r, h).found.Satisfied?
    && AtBinary(o, r, h).found.Satisfied? && AtInstall(o, r, h).found.Satisfied? && AtStart(o, r, h).found.Satisfied?
  }

  /** A settled host is quiet exactly when it still holds a usable token and its
      registration is the one asked for. */
  lemma SettledIsQuiet(o: Options, r: Run, h: Host, v: Values)
    requires r.faults == {} && Settled(o, h, v)
    ensures Quiet(o, r, h) <==> TokenHolds(h, v, r.now) && SameCommand(h.service.value.command.value, Wanted(o))
  {
    FilesAgain(o, r, h, v);
    TokenAgain(o, r, h, v, AtConfig(o, r, h).plan);
    if AtToken(o, r, h).found.Satisfied? {
      DeployAgain(o, r, h, v, AtToken(o, r, h).plan);
    }
  }

  ghost predicate SixSatisfied(result: Reconcile.Result) {
    |result.steps| == 7 && forall i :: 0 <= i < 6 ==> result.steps[i].found == Satisfied && !result.steps[i].applied
  }

  lemma QuietGoes(o: Options, r: Run, h: Host)
    requires !o.dryRun && Quiet(o, r, h)
    ensures Goes(o, r, h)
  {
    ChainOfChecks(o, r, h);
    SevenDecided(Checks(o, r, h), NewPlan(o));
  }

  /** The founds a run that decided everything records are its checks'. */
  lemma FoundsRecorded(o: Options, r: Run, h: Host)
    requires !Outcome(o, r, h).0.failed
    ensures var e := Outcome(o, r, h).0.steps;
            && |e| == 7
            && e[0].found == AtDirectory(o, r, h).found && e[1].found == AtConfig(o, r, h).found && e[2].found == AtToken(o, r, h).found
            && e[3].found == AtBinary(o, r, h).found && e[4].found == AtInstall(o, r, h).found && e[5].found == AtStart(o, r, h).found
  {
    FoundsOf(STEPS, Checks(o, r, h), Applies(o, r), o.dryRun, h, NewPlan(o));
    ChainOfChecks(o, r, h);
  }

  /** A quiet run touches nothing, mints nothing, and succeeds if the service answers. */
  lemma QuietRun(o: Options, r: Run, h: Host)
    requires !o.dryRun && Quiet(o, r, h) && Cancelled !in r.faults && HealthDown !in r.faults
    ensures var (result, after) := Outcome(o, r, h);
            after == h && !result.failed && result.token.None? && SixSatisfied(result)
  {
    QuietGoes(o, r, h);
    var w := RunTale(o, r, h);
    QuietTrail(o, r, h, w);
    QuietTale(o, r, h, w);
    QuietEnd(w, Outcome(o, r, h).0, Outcome(o, r, h).1);
  }

  ghost predicate AllQuiet(w: Trail) {
    w.d.Satisfied? && w.c.Satisfied? && w.t.Satisfied? && w.b.Satisfied? && w.i.Satisfied? && w.s.Satisfied?
  }

  lemma QuietTrail(o: Options, r: Run, h: Host, w: Trail)
    requires Trails(o, r, h, w) && Quiet(o, r, h)
    ensures AllQuiet(w)
  {
  }

  lemma QuietEnd(w: Trail, result: Reconcile.Result, after: Host)
    requires Ends(w, result, after) && AllQuiet(w)
    ensures SixSatisfied(result)
  {
  }

  lemma QuietTale(o: Options, r: Run, h: Host, w: Trail)
    requires Tale(o, r, h, w) && Cancelled !in r.faults && HealthDown !in r.faults
    requires AllQuiet(w)
    ensures w.g[7].host == h && !w.g[7].failed && w.g[7].plan.token.None?
  {
  }

  /** The re-run promise. After a successful run, and with nothing else touching
      the host, the same options find all six steps before verify satisfied, and
      change nothing, exactly when the store still holds a usable token and the
      registered path is stable: already registered then, or absolute. */
  lemma SuccessIsFixedPoint(o: Options, r: Run, h: Host, again: Run)
    requires Sound(o) && Succeeded(o, r, h) && again.faults == {}
    ensures var (result, after) := Outcome(o, r, h);
            var (result', after') := Outcome(o, again, after);
            exists v :: && Configured(o, after, v)
                        && (TokenHolds(after, v, again.now) && (result.steps[4].found.Satisfied? || PathStable(o))
                            <==> !result'.failed && SixSatisfied(result'))
                        && (SixSatisfied(result') && !result'.failed ==> after' == after && result'.token.None?)
  {
    SuccessGoes(o, r, h);
    var w := RunTale(o, r, h);
    var after := Outcome(o, r, h).1;
    var v := w.plan.values.value;
    TaleSettles(o, r, h, w);
    TaleNames(o, r, h, w);
    SettledIsQuiet(o, again, after, v);
    QuietMeans(o, again, after);
  }

  lemma QuietMeans(o: Options, r: Run, h: Host)
    requires !o.dryRun && r.faults == {}
    ensures var (result, after) := Outcome(o, r, h);
            && (Quiet(o, r, h) <==> !result.failed && SixSatisfied(result))
            && (Quiet(o, r, h) ==> after == h && result.token.None?)
  {
    if Quiet(o, r, h) {
      QuietRun(o, r, h);
    } else if !Outcome(o, r, h).0.failed {
      FoundsRecorded(o, r, h);
    }
  }

  // ---- what the run does not guarantee ------------------------------------------

  /** A run that minted a token and then failed before it had stopped the
      service, at the flush, the lock or the stop, leaves it running on the
      tokens it had. Re-run, everything is found satisfied, a usable token
      included, and nothing restarts it; Reruns says exactly when it matters. */
  lemma UntouchedServiceGoesStale(o: Options, r: Run, h: Host, again: Run)
    requires Sound(o) && Goes(o, r, h) && IsRunning(h) && again.faults == {}
    requires var (result, after) := Outcome(o, r, h);
             && after.stores != h.stores && after.service == h.service
             && AtBinary(o, r, h).found.Satisfied? && AtInstall(o, r, h).found.Satisfied?
             && forall v :: Configured(o, after, v) ==> TokenHolds(after, v, again.now)
    ensures var (result', after') := Outcome(o, again, Outcome(o, r, h).1);
            !result'.failed && SixSatisfied(result') && after' == Outcome(o, r, h).1
  {
    var w := RunTale(o, r, h);
    var after := Outcome(o, r, h).1;
    var v := w.plan.values.value;
    TokenKept(o, r, h, w);
    StuckAfterToken(o, r, h, w);
    SettledIsQuiet(o, again, after, v);
    QuietMeans(o, again, after);
  }

  lemma StuckAfterToken(o: Options, r: Run, h: Host, w: Trail)
    requires Tale(o, r, h, w) && Sound(o) && IsRunning(h) && w.b.Satisfied? && w.i.Satisfied?
    requires w.g[3].host.stores != h.stores && w.g[7].host.stores == w.g[3].host.stores && w.g[7].host.service == h.service
    ensures Settled(o, w.g[7].host, w.plan.values.value)
    ensures SameCommand(w.g[7].host.service.value.command.value, Wanted(o))
  {
    BeforeBinary(o, r, h, w);
    TaleSettlesFiles(o, r, h, w);
    SatisfiedTurns(o, r, h, w);
    BinaryFrame(o, h, w.g[3].host, w.b);
    SettledFrame(o, w.g[3].host, w.g[3].host, w.g[7].host, w.plan.values.value);
  }

  lemma SatisfiedTurns(o: Options, r: Run, h: Host, w: Trail)
    requires Tale(o, r, h, w) && w.b.Satisfied? && w.i.Satisfied?
    ensures w.g[7].host == w.g[3].host.(service := w.g[7].host.service)
  {
  }

  lemma FailedEarly(o: Options, r: Run, h: Host, w: Trail)
    requires Tale(o, r, h, w) && w.g[3].failed
    ensures w.g[7] == w.g[3]
  {
  }

  lemma BinaryFrame(o: Options, h: Host, h': Host, f: Found)
    requires BinaryVerdict(o, h, f) && f.Satisfied? && h'.binaries == h.binaries
    ensures o.noCopy || SameFile(o, h') || CopyInPlace(o, h')
  {
  }

  /** A registration the run put in place is running afterwards exactly when the
      start step was pending, which it was when the service was not running or
      something else called for a restart. Reinstalling over a running service
      is not in itself such a reason: the service is left registered and stopped,
      and verification fails. */
  lemma ReinstalledServiceIsStartedIff(o: Options, r: Run, h: Host)
    requires Goes(o, r, h)
    requires var result := Outcome(o, r, h).0; PassedStart(result) && result.steps[4].applied
    ensures var (result, after) := Outcome(o, r, h);
            var reason := result.steps[2].found.Pending? || (result.steps[3].found.Pending? && BinaryAt(h, o.absDest).Some?);
            && (IsRunning(after) <==> result.steps[5].found.Pending?)
            && (result.steps[5].found.Pending? <==> !IsRunning(h) || reason)
            && (!IsRunning(after) ==> result.failed)
  {
    var w := RunTale(o, r, h);
    PassedTurns(w, Outcome(o, r, h).0, Outcome(o, r, h).1);
    InstalledThenStarted(o, r, h, w);
  }

  lemma InstalledThenStarted(o: Options, r: Run, h: Host, w: Trail)
    requires Tale(o, r, h, w) && w.i.Pending? && !w.g[5].failed && !w.g[4].failed && !w.g[6].failed
    ensures IsRunning(w.g[7].host) <==> w.s.Pending?
    ensures w.s.Pending? <==> !IsRunning(h) || w.t.Pending? || (w.b.Pending? && BinaryAt(h, o.absDest).Some?)
    ensures !IsRunning(w.g[7].host) ==> w.g[7].failed
  {
  }

  lemma BlockedMeans(o: Options, r: Run, h: Host)
    requires !Outcome(o, r, h).0.failed
    ensures Outcome(o, r, h).0.blocked == [] <==>
              && !AtDirectory(o, r, h).found.Blocked? && !AtConfig(o, r, h).found.Blocked? && !AtToken(o, r, h).found.Blocked?
              && !AtBinary(o, r, h).found.Blocked? && !AtInstall(o, r, h).found.Blocked? && !AtStart(o, r, h).found.Blocked?
  {
    SurveyIsChain(STEPS, 7, Checks(o, r, h), NewPlan(o));
    ChainOfChecks(o, r, h);
    SevenUnblocked(Checks(o, r, h), NewPlan(o));
  }

  lemma SevenUnblocked(c: Checker, p: Plan)
    ensures (forall k :: 0 <= k < 7 ==> !FoundAt(STEPS, k, c, p).Blocked?) <==>
              && !FoundAt(STEPS, 0, c, p).Blocked? && !FoundAt(STEPS, 1, c, p).Blocked? && !FoundAt(STEPS, 2, c, p).Blocked?
              && !FoundAt(STEPS, 3, c, p).Blocked? && !FoundAt(STEPS, 4, c, p).Blocked? && !FoundAt(STEPS, 5, c, p).Blocked?
              && !FoundAt(STEPS, 6, c, p).Blocked?
  {
  }

  /** A refusal names the flag that clears it. With both flags given, a run is
      refused exactly when the registration's command line could not be read:
      --reinstall does not clear that one. */
  lemma ForcedRunIsRefusedIff(o: Options, r: Run, h: Host)
    requires o.restart && o.reinstall && !Outcome(o, r, h).0.failed
    ensures Outcome(o, r, h).0.blocked != [] <==> h.service.Some? && h.service.value.command.None?
  {
    BlockedMeans(o, r, h);
    NoneFailed(o, r, h);
    FilesNeverBlock(o, r, h, NewPlan(o));
    FilesNeverBlock(o, r, h, AtDirectory(o, r, h).plan);
    FilesNeverBlock(o, r, h, AtConfig(o, r, h).plan);
    ForcedVerdicts(o, r, h, AtToken(o, r, h).plan);
    ForcedVerdicts(o, r, h, AtBinary(o, r, h).plan);
    ForcedVerdicts(o, r, h, AtInstall(o, r, h).plan);
  }

  lemma FilesNeverBlock(o: Options, r: Run, h: Host, p: Plan)
    ensures !CheckDirectory(o, r, h, p).found.Blocked? && !CheckConfig(o, r, h, p).found.Blocked? && !CheckToken(o, r, h, p).found.Blocked?
  {
  }

  lemma ForcedVerdicts(o: Options, r: Run, h: Host, p: Plan)
    requires o.restart && o.reinstall
    ensures !CheckBinary(o, r, h, p).found.Blocked? && !CheckStart(o, r, h, p).found.Blocked?
    ensures CheckInstall(o, r, h, p).found.Blocked? <==> ScmAtInstall !in r.faults && h.service.Some? && h.service.value.command.None?
    ensures CheckInstall(o, r, h, p).found.CheckFailed? <==> ScmAtInstall in r.faults
  {
  }

  lemma NoneFailed(o: Options, r: Run, h: Host)
    requires !Outcome(o, r, h).0.failed
    ensures !AtDirectory(o, r, h).found.CheckFailed? && !AtConfig(o, r, h).found.CheckFailed? && !AtToken(o, r, h).found.CheckFailed?
    ensures !AtBinary(o, r, h).found.CheckFailed? && !AtInstall(o, r, h).found.CheckFailed? && !AtStart(o, r, h).found.CheckFailed?
  {
    SurveyIsChain(STEPS, 7, Checks(o, r, h), NewPlan(o));
    ChainOfChecks(o, r, h);
  }

  /** The Result says the configuration was written whenever the file was absent
      at the checks: also for a dry run, a refused run, and one that failed
      before writing it. It was in fact written exactly when the config step
      was applied. */
  lemma ConfigWrittenMeansAbsent(o: Options, r: Run, h: Host)
    requires !Outcome(o, r, h).0.failed || Goes(o, r, h)
    ensures var (result, after) := Outcome(o, r, h);
            && (result.configWritten <==> ConfigAt(h, o.configPath).None?)
            && (!Goes(o, r, h) ==> after == h)
            && (after.configs != h.configs ==> result.configWritten)
            && (|result.steps| == 7 && result.steps[1].applied ==>
                  && Rendered(o.spec, o.provisioned, o.dialect).Success?
                  && after.configs == h.configs[Lower(o.configPath) := Rendered(o.spec, o.provisioned, o.dialect).value])
  {
    if Goes(o, r, h) {
      var w := RunTale(o, r, h);
      ConfigTold(o, r, h, w);
    } else {
      Refused(o, r, h);
      NoneFailed(o, r, h);
      SurveyIsChain(STEPS, 7, Checks(o, r, h), NewPlan(o));
      ChainOfChecks(o, r, h);
      ConfigFlagKept(o, r, h);
    }
  }

  lemma ConfigTold(o: Options, r: Run, h: Host, w: Trail)
    requires Tale(o, r, h, w)
    ensures w.g[7].plan.configExists <==> ConfigAt(h, o.configPath).Some?
    ensures w.g[7].host.configs != h.configs ==> w.c.Pending?
    ensures w.c.Pending? && !w.g[2].failed ==>
              && Rendered(o.spec, o.provisioned, o.dialect).Success?
              && w.g[7].host.configs == h.configs[Lower(o.configPath) := Rendered(o.spec, o.provisioned, o.dialect).value]
  {
    BeforeBinary(o, r, h, w);
  }

  lemma ConfigFlagKept(o: Options, r: Run, h: Host)
    requires !AtConfig(o, r, h).found.CheckFailed?
    ensures AtStart(o, r, h).plan.configExists <==> ConfigAt(h, o.configPath).Some?
  {
    ConfigDecides(o, r, h, AtDirectory(o, r, h).plan);
    TokenKeeps(o, r, h, AtConfig(o, r, h).plan);
    DeployKeeps(o, r, h, AtToken(o, r, h).plan);
  }

  lemma ConfigDecides(o: Options, r: Run, h: Host, p: Plan)
    requires !CheckConfig(o, r, h, p).found.CheckFailed?
    ensures CheckConfig(o, r, h, p).plan.configExists <==> ConfigAt(h, o.configPath).Some?
  {
  }

  lemma TokenKeeps(o: Options, r: Run, h: Host, p: Plan)
    ensures CheckToken(o, r, h, p).plan.configExists == p.configExists
  {
  }

  lemma DeployKeeps(o: Options, r: Run, h: Host, p: Plan)
    ensures CheckStart(o, r, h, CheckInstall(o, r, h, CheckBinary(o, r, h, p).plan).plan).plan.configExists == p.configExists
  {
  }
}
