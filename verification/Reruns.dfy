/** What a re-run makes of a run that minted a token and then failed: when the
    service ends up with the token, and which flag a refused run asks for. */
module Reruns {
  import opened Wrappers
  import opened Text
  import opened Resolve
  import opened Host
  import opened Setup
  import opened Steps
  import opened Reconcile
  import opened Runs
  import opened Provisioning
  import opened Guarantees
  import TokenStore

  // ---- the token a failed run left behind -----------------------------------------

  /** A process is running that has read the token. */
  ghost predicate Serves(o: Options, h: Host, token: string) {
    IsRunning(h) && Accepts(o, h.service.value.state.process, token)
  }

  /** The store the configuration names holds the token under the run's label. */
  ghost predicate Stored(o: Options, h: Host, v: Values, token: string) {
    && Configured(o, h, v) && !AuthDisabled(v)
    && exists i :: 0 <= i < |Tokens(h, StorePath(v))|
                   && Tokens(h, StorePath(v))[i].name == o.tokenLabel && Tokens(h, StorePath(v))[i].hash == o.hash(token)
  }

  lemma SavedIsStored(o: Options, r: Run, path: string, g: Progress, g': Progress) returns (i: nat)
    requires SavedToken(o, r, path, g, g')
    ensures i < |Tokens(g'.host, path)| && Tokens(g'.host, path)[i].name == o.tokenLabel && Tokens(g'.host, path)[i].hash == o.hash(r.minted)
  {
    var tokens, expiry :|
      && LoadOrEmpty(g.host, path) == Some(tokens) && ExpiryOf(o, r.now) == Some(expiry)
      && !TokenStore.HasLabel(tokens, o.tokenLabel)
      && g'.host.stores == g.host.stores[Lower(path) := Holding(tokens + [MintedEntry(o, r, expiry)])];
    i := |tokens|;
    assert Tokens(g'.host, path)[i] == MintedEntry(o, r, expiry);
  }

  /** Whatever failed afterwards, a run that changed a store leaves the token in
      the store its configuration names. */
  lemma MintingStores(o: Options, r: Run, h: Host) returns (v: Values)
    requires Outcome(o, r, h).1.stores != h.stores
    ensures Stored(o, Outcome(o, r, h).1, v, r.minted)
  {
    if !Goes(o, r, h) {
      Refused(o, r, h);
      assert false;
    }
    var w := RunTale(o, r, h);
    v := w.plan.values.value;
    TokenKept(o, r, h, w);
    MintedThere(o, r, h, w);
  }

  lemma MintedThere(o: Options, r: Run, h: Host, w: Trail)
    requires Tale(o, r, h, w) && w.g[3].host.stores != h.stores && w.g[2].host.stores == h.stores
    requires w.g[7].host.stores == w.g[3].host.stores
    ensures Stored(o, w.g[7].host, w.plan.values.value, r.minted)
  {
    var v := w.plan.values.value;
    BeforeBinary(o, r, h, w);
    ConfigSettled(o, r, h, w.c, w.plan, w.g[1], w.g[2]);
    var i := SavedIsStored(o, r, StorePath(v), w.g[2], w.g[3]);
    ConfigsKept(o, r, h, w);
    assert Tokens(w.g[7].host, StorePath(v)) == Tokens(w.g[3].host, StorePath(v));
  }

  lemma ConfigsKept(o: Options, r: Run, h: Host, w: Trail)
    requires Tale(o, r, h, w)
    ensures w.g[7].host.configs == w.g[2].host.configs
  {
  }

  /** A later run over that host leaves configuration and store alone. */
  lemma StoredIsUsed(o: Options, r: Run, h: Host, w: Trail, v: Values, token: string)
    requires Tale(o, r, h, w) && !w.g[7].failed && Stored(o, h, v, token)
    ensures w.plan.values == Some(v) && w.t.Satisfied?
    ensures Stored(o, w.g[5].host, v, token) && Registered(o, w.g[5].host)
  {
    NothingFailed(o, r, h, w);
    BeforeBinary(o, r, h, w);
    var i :| 0 <= i < |Tokens(h, StorePath(v))|
             && Tokens(h, StorePath(v))[i].name == o.tokenLabel && Tokens(h, StorePath(v))[i].hash == o.hash(token);
    assert TokenStore.HasLabel(Tokens(h, StorePath(v)), o.tokenLabel);
    StandsAfterStart(o, r, h, w);
    assert Tokens(w.g[5].host, StorePath(v)) == Tokens(h, StorePath(v));
  }

  /** Starting anew reads the store. */
  lemma StartServes(o: Options, r: Run, f: Found, g: Progress, g': Progress, v: Values, token: string)
    requires StartTurn(o, r, f, g, g') && f.Pending? && !g.failed && !g'.failed && !IsRunning(StartBase(g))
    requires Stored(o, g.host, v, token) && Registered(o, g.host)
    ensures Serves(o, g'.host, token)
  {
    StartedAnew(o, r, f, g, g', v);
    assert Tokens(g'.host, StorePath(v)) == Tokens(g.host, StorePath(v));
    var i :| 0 <= i < |Tokens(g.host, StorePath(v))|
             && Tokens(g.host, StorePath(v))[i].name == o.tokenLabel && Tokens(g.host, StorePath(v))[i].hash == o.hash(token);
    assert g'.host.service.value.state.process.tokens[i].hash == o.hash(token);
  }

  /** With nothing to mint, the start step is pending exactly when the service
      does not run or a copy in place is replaced under it. */
  lemma PendingStart(o: Options, r: Run, h: Host, w: Trail)
    requires Tale(o, r, h, w) && !w.g[7].failed && w.t.Satisfied?
    ensures w.s.Pending? <==> !IsRunning(h) || (w.b.Pending? && BinaryAt(h, o.absDest).Some?)
    ensures w.s.Pending? ==> !IsRunning(StartBase(w.g[5]))
    ensures !w.s.Pending? ==> w.g[7].host.service == h.service
    ensures IsRunning(w.g[7].host) && w.g[7].host.service == w.g[6].host.service
  {
    NothingFailed(o, r, h, w);
    BeforeBinary(o, r, h, w);
  }

  /** The re-run, with whatever of --restart and --reinstall it is given. After
      any run that minted a token, however that run ended, a re-run that succeeds
      leaves a process that accepts the token if and only if its start step was
      pending, or the process the first run left behind accepted it already. The
      start step is pending when no process was left running, or a copy in place
      is replaced: the token in the store is by then no reason to restart. */
  lemma RerunServesMintedIff(o: Options, r: Run, h: Host, o': Options, again: Run)
    requires o' == o.(restart := o'.restart, reinstall := o'.reinstall)
    requires var after := Outcome(o, r, h).1; after.stores != h.stores && Succeeded(o', again, after)
    ensures var after := Outcome(o, r, h).1;
            var (result', after') := Outcome(o', again, after);
            && |result'.steps| == 7
            && (Serves(o, after', r.minted) <==> result'.steps[5].found.Pending? || Serves(o, after, r.minted))
            && (result'.steps[5].found.Pending? <==>
                  !IsRunning(after) || (result'.steps[3].found.Pending? && BinaryAt(after, o.absDest).Some?))
  {
    var after := Outcome(o, r, h).1;
    var v := MintingStores(o, r, h);
    SameFiles(o, o', after, v, r.minted);
    SuccessGoes(o', again, after);
    var w := RunTale(o', again, after);
    StoredIsUsed(o', again, after, w, v, r.minted);
    PendingStart(o', again, after, w);
    NothingFailed(o', again, after, w);
    if w.s.Pending? {
      StartServes(o', again, w.s, w.g[5], w.g[6], v, r.minted);
    }
  }

  lemma SameFiles(o: Options, o': Options, h: Host, v: Values, token: string)
    requires o' == o.(restart := o'.restart, reinstall := o'.reinstall) && Stored(o, h, v, token)
    ensures Stored(o', h, v, token)
  {
  }

  /** What a run leaves running without having started it is the process that
      was running before, with the tokens that read. */
  lemma UnstartedIsOld(o: Options, r: Run, h: Host)
    requires var (result, after) := Outcome(o, r, h); IsRunning(after) && !(|result.steps| == 7 && result.steps[5].applied)
    ensures IsRunning(h) && Outcome(o, r, h).1.service.value.state == h.service.value.state
  {
    if Goes(o, r, h) {
      var w := RunTale(o, r, h);
      BeforeBinary(o, r, h, w);
      UnstartedTurns(o, r, h, w);
    } else {
      Refused(o, r, h);
    }
  }

  lemma UnstartedTurns(o: Options, r: Run, h: Host, w: Trail)
    requires Tale(o, r, h, w) && w.g[3].host.service == h.service
    requires IsRunning(w.g[7].host) && (w.s.Pending? ==> w.g[6].failed)
    ensures w.g[7].host.service == h.service
  {
  }

  // ---- the flag a refusal names -----------------------------------------------------

  ghost predicate Names(result: Reconcile.Result, flag: Flag) {
    exists i :: 0 <= i < |result.steps| && result.steps[i].found == Blocked(flag)
  }

  /** The same options, with exactly the flags a refusal named added. */
  ghost function Obeying(o: Options, result: Reconcile.Result): Options {
    o.(restart := o.restart || Names(result, Restart), reinstall := o.reinstall || Names(result, Reinstall))
  }

  ghost predicate Unparsed(h: Host) {
    h.service.Some? && h.service.value.command.None?
  }

  lemma NamesFrom(o: Options, r: Run, h: Host)
    requires !Outcome(o, r, h).0.failed
    ensures var result := Outcome(o, r, h).0;
            && (Names(result, Restart) <==> AtBinary(o, r, h).found == Blocked(Restart) || AtStart(o, r, h).found == Blocked(Restart))
            && (Names(result, Reinstall) <==> AtInstall(o, r, h).found == Blocked(Reinstall))
  {
    var e := Outcome(o, r, h).0.steps;
    FoundsRecorded(o, r, h);
    VerifyIsPending(o, r, h);
    FilesNeverBlock(o, r, h, NewPlan(o));
    FilesNeverBlock(o, r, h, AtDirectory(o, r, h).plan);
    FilesNeverBlock(o, r, h, AtConfig(o, r, h).plan);
    BinaryChecked(o, r, h, AtToken(o, r, h).plan);
    InstallBlocks(o, r, h, AtBinary(o, r, h).plan);
    StartChecked(o, r, h, AtInstall(o, r, h).plan);
    SevenNamed(e, Restart);
    SevenNamed(e, Reinstall);
  }

  lemma InstallBlocks(o: Options, r: Run, h: Host, p: Plan)
    ensures CheckInstall(o, r, h, p).found.Blocked? ==> CheckInstall(o, r, h, p).found == Blocked(Reinstall)
  {
  }

  lemma VerifyIsPending(o: Options, r: Run, h: Host)
    requires !Outcome(o, r, h).0.failed
    ensures |Outcome(o, r, h).0.steps| == 7 && Outcome(o, r, h).0.steps[6].found == Pending
  {
    FoundsOf(STEPS, Checks(o, r, h), Applies(o, r), o.dryRun, h, NewPlan(o));
    ChainOfChecks(o, r, h);
  }

  lemma SevenNamed(e: seq<StepResult>, flag: Flag)
    requires |e| == 7
    ensures (exists i :: 0 <= i < |e| && e[i].found == Blocked(flag)) <==>
              || e[0].found == Blocked(flag) || e[1].found == Blocked(flag) || e[2].found == Blocked(flag) || e[3].found == Blocked(flag)
              || e[4].found == Blocked(flag) || e[5].found == Blocked(flag) || e[6].found == Blocked(flag)
  {
  }

  /** The flags say nothing to the first three checks. */
  lemma FilesIgnoreFlags(o: Options, o': Options, r: Run, h: Host)
    requires o' == o.(restart := o'.restart, reinstall := o'.reinstall)
    ensures AtDirectory(o', r, h) == AtDirectory(o, r, h) && AtConfig(o', r, h) == AtConfig(o, r, h) && AtToken(o', r, h) == AtToken(o, r, h)
  {
    DirectoryIgnoresFlags(o, o', r, h, NewPlan(o));
    ConfigIgnoresFlags(o, o', r, h, AtDirectory(o, r, h).plan);
    TokenIgnoresFlags(o, o', r, h, AtConfig(o, r, h).plan);
  }

  lemma DirectoryIgnoresFlags(o: Options, o': Options, r: Run, h: Host, p: Plan)
    requires o' == o.(restart := o'.restart, reinstall := o'.reinstall)
    ensures CheckDirectory(o', r, h, p) == CheckDirectory(o, r, h, p) && NewPlan(o') == NewPlan(o)
  {
  }

  lemma TokenIgnoresFlags(o: Options, o': Options, r: Run, h: Host, p: Plan)
    requires o' == o.(restart := o'.restart, reinstall := o'.reinstall)
    ensures CheckToken(o', r, h, p) == CheckToken(o, r, h, p)
  {
  }

  lemma ConfigIgnoresFlags(o: Options, o': Options, r: Run, h: Host, p: Plan)
    requires o' == o.(restart := o'.restart, reinstall := o'.reinstall)
    ensures CheckConfig(o', r, h, p) == CheckConfig(o, r, h, p)
  {
    forall v: Values
      ensures Disagrees(o', v) <==> Disagrees(o, v)
    {
      assert forall i :: 0 <= i < |o.provisioned| ==> (Disagreement(o', v, o.provisioned[i]) <==> Disagreement(o, v, o.provisioned[i]));
    }
  }

  /** With the flag, a copy held open is replaced and a restart wanted. */
  lemma BinaryObeyed(o: Options, o': Options, r: Run, h: Host, p: Plan)
    requires o' == o.(restart := o'.restart, reinstall := o'.reinstall)
    requires var f := CheckBinary(o, r, h, p).found; !f.CheckFailed? && (f.Blocked? || o.restart ==> o'.restart)
    ensures var c, c' := CheckBinary(o, r, h, p), CheckBinary(o', r, h, p);
            && Decided(c'.found) && c'.plan.binPath == c.plan.binPath
            && (c'.plan.restartWanted <==> c.plan.restartWanted || c.found.Blocked?)
  {
  }

  lemma InstallObeyed(o: Options, o': Options, r: Run, h: Host, p: Plan, p': Plan)
    requires o' == o.(restart := o'.restart, reinstall := o'.reinstall) && p'.binPath == p.binPath
    requires var f := CheckInstall(o, r, h, p).found; !f.CheckFailed? && (f.Blocked? || o.reinstall ==> o'.reinstall)
    ensures var f' := CheckInstall(o', r, h, p').found;
            && !f'.CheckFailed? && (f'.Blocked? <==> Unparsed(h)) && CheckInstall(o', r, h, p').plan.restartWanted == p'.restartWanted
  {
  }

  lemma StartObeyed(o: Options, o': Options, r: Run, h: Host, p: Plan, p': Plan)
    requires o' == o.(restart := o'.restart, reinstall := o'.reinstall)
    requires var f := CheckStart(o, r, h, p).found; !f.CheckFailed? && (f.Blocked? || o.restart ==> o'.restart)
    requires o'.restart || p'.restartWanted == p.restartWanted
    ensures Decided(CheckStart(o', r, h, p').found)
  {
  }

  lemma ObeyedVerdicts(o: Options, o': Options, r: Run, h: Host)
    requires o' == o.(restart := o'.restart, reinstall := o'.reinstall)
    requires Decided(AtDirectory(o, r, h).found) && Decided(AtConfig(o, r, h).found) && Decided(AtToken(o, r, h).found)
    requires !AtBinary(o, r, h).found.CheckFailed? && !AtInstall(o, r, h).found.CheckFailed? && !AtStart(o, r, h).found.CheckFailed?
    requires AtBinary(o, r, h).found.Blocked? || AtStart(o, r, h).found.Blocked? || o.restart ==> o'.restart
    requires AtInstall(o, r, h).found.Blocked? || o.reinstall ==> o'.reinstall
    ensures Decided(AtDirectory(o', r, h).found) && Decided(AtConfig(o', r, h).found) && Decided(AtToken(o', r, h).found)
    ensures Decided(AtBinary(o', r, h).found) && Decided(AtStart(o', r, h).found)
    ensures !AtInstall(o', r, h).found.CheckFailed? && (AtInstall(o', r, h).found.Blocked? <==> Unparsed(h))
  {
    FilesIgnoreFlags(o, o', r, h);
    BinaryObeyed(o, o', r, h, AtToken(o, r, h).plan);
    InstallObeyed(o, o', r, h, AtBinary(o, r, h).plan, AtBinary(o', r, h).plan);
    InstallKeepsWish(o, r, h, AtBinary(o, r, h).plan);
    StartObeyed(o, o', r, h, AtInstall(o, r, h).plan, AtInstall(o', r, h).plan);
  }

  lemma InstallKeepsWish(o: Options, r: Run, h: Host, p: Plan)
    ensures CheckInstall(o, r, h, p).plan.restartWanted == p.restartWanted
  {
  }

  /** A run whose first checks decide is refused exactly for its registration. */
  lemma RefusedForRegistration(o: Options, r: Run, h: Host)
    requires Decided(AtDirectory(o, r, h).found) && Decided(AtConfig(o, r, h).found) && Decided(AtToken(o, r, h).found)
    requires Decided(AtBinary(o, r, h).found) && Decided(AtStart(o, r, h).found) && !AtInstall(o, r, h).found.CheckFailed?
    ensures Outcome(o, r, h).0.blocked != [] <==> AtInstall(o, r, h).found.Blocked?
  {
    if Goes(o, r, h) {
      GoesUnblocked(o, r, h);
    } else {
      NotFailed(o, r, h);
      BlockedMeans(o, r, h);
    }
  }

  lemma GoesUnblocked(o: Options, r: Run, h: Host)
    requires Goes(o, r, h)
    ensures Outcome(o, r, h).0.blocked == [] && !AtInstall(o, r, h).found.Blocked?
  {
    var w := RunTale(o, r, h);
    GoesDecided(o, r, h);
  }

  lemma NotFailed(o: Options, r: Run, h: Host)
    requires Decided(AtDirectory(o, r, h).found) && Decided(AtConfig(o, r, h).found) && Decided(AtToken(o, r, h).found)
    requires Decided(AtBinary(o, r, h).found) && Decided(AtStart(o, r, h).found) && !AtInstall(o, r, h).found.CheckFailed?
    requires !Goes(o, r, h)
    ensures !Outcome(o, r, h).0.failed
  {
    var c, p := Checks(o, r, h), NewPlan(o);
    ChainOfChecks(o, r, h);
    SevenNotFailed(c, p);
    RefusalTouchesNothing(STEPS, c, Applies(o, r), o.dryRun, h, p);
  }

  lemma SevenNotFailed(c: Checker, p: Plan)
    requires !FoundAt(STEPS, 0, c, p).CheckFailed? && !FoundAt(STEPS, 1, c, p).CheckFailed? && !FoundAt(STEPS, 2, c, p).CheckFailed?
    requires !FoundAt(STEPS, 3, c, p).CheckFailed? && !FoundAt(STEPS, 4, c, p).CheckFailed? && !FoundAt(STEPS, 5, c, p).CheckFailed?
    requires !FoundAt(STEPS, 6, c, p).CheckFailed?
    ensures forall k :: 0 <= k < 7 ==> !FoundAt(STEPS, k, c, p).CheckFailed?
  {
  }

  /** A refusal names the flags that clear it: with exactly those added, the run
      is refused again if and only if the existing command line could not be
      read, in which case --reinstall is what it keeps asking for. */
  lemma NamedFlagsClearIff(o: Options, r: Run, h: Host)
    requires !Outcome(o, r, h).0.failed && Outcome(o, r, h).0.blocked != []
    ensures var o' := Obeying(o, Outcome(o, r, h).0);
            Outcome(o', r, h).0.blocked != [] <==> Unparsed(h)
  {
    var o' := Obeying(o, Outcome(o, r, h).0);
    NamesFrom(o, r, h);
    NoneFailed(o, r, h);
    FilesNeverBlock(o, r, h, NewPlan(o));
    FilesNeverBlock(o, r, h, AtDirectory(o, r, h).plan);
    FilesNeverBlock(o, r, h, AtConfig(o, r, h).plan);
    BinaryChecked(o, r, h, AtToken(o, r, h).plan);
    InstallBlocks(o, r, h, AtBinary(o, r, h).plan);
    StartChecked(o, r, h, AtInstall(o, r, h).plan);
    ObeyedVerdicts(o, o', r, h);
    RefusedForRegistration(o', r, h);
  }
}
