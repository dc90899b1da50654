/** Re-running is the recovery: when a run none of whose calls fails, given the
    flags its refusal names, succeeds on whatever an earlier run left. */
module Recovery {
  import opened Wrappers
  import opened Text
  import opened Render
  import opened Resolve
  import opened Host
  import opened Setup
  import opened Steps
  import opened Reconcile
  import opened Runs
  import opened Provisioning
  import opened Guarantees
  import opened Success
  import opened Reruns
  import TokenStore
  import RoundTrip

  // ---- what a host must be for that -------------------------------------------------

  /** The provisioning directory is, or can be made, a directory. */
  ghost predicate Placeable(o: Options, h: Host) {
    Owns(o) ==> h.dir.Missing? || h.dir.Present?
  }

  /** The values a run resolves: from the file, if it is there and agrees with
      what is to be provisioned, and else from what it would write. */
  ghost function ValuesAt(o: Options, h: Host): Option<Values> {
    match ConfigAt(h, o.configPath)
    case Some(text) =>
      if Startable(o, text).Some? && !Disagrees(o, Startable(o, text).value) then Startable(o, text) else None
    case None =>
      if Rendered(o.spec, o.provisioned, o.dialect).Success?
      then Startable(o, Rendered(o.spec, o.provisioned, o.dialect).value) else None
  }

  /** The store can be read, and if none of its tokens is usable the label is free. */
  ghost predicate StoreUsable(o: Options, h: Host, v: Values, now: int) {
    AuthDisabled(v) || (&& LoadOrEmpty(h, StorePath(v)).Some?
                        && (TokenStore.Usable(LoadOrEmpty(h, StorePath(v)).value, now)
                            || !TokenStore.HasLabel(LoadOrEmpty(h, StorePath(v)).value, o.tokenLabel)))
  }

  ghost predicate WillMint(h: Host, v: Values, now: int) {
    !TokenHolds(h, v, now)
  }

  ghost predicate WillReplace(o: Options, h: Host) {
    !o.noCopy && !SameFile(o, h) && BinaryAt(h, o.absDest).Some? && !CopyInPlace(o, h)
  }

  /** A running service to be registered anew, with no other reason to restart it. */
  ghost predicate Stranded(o: Options, h: Host, v: Values, now: int) {
    Differs(o, h) && IsRunning(h) && !WillMint(h, v, now) && !WillReplace(o, h)
  }

  ghost predicate Recoverable(o: Options, r: Run, h: Host) {
    var v := ValuesAt(o, h);
    && Placeable(o, h) && v.Some? && StoreUsable(o, h, v.value, r.now) && (WillMint(h, v.value, r.now) ==> Mintable(o, r))
    && !Unparsed(h) && !Stranded(o, h, v.value, r.now)
  }

  // ---- the checks of a run none of whose calls fails -----------------------------------

  lemma DirectoryClean(o: Options, r: Run, h: Host, p: Plan)
    requires r.faults == {}
    ensures (Decided(CheckDirectory(o, r, h, p).found) <==> Placeable(o, h)) && CheckDirectory(o, r, h, p).plan == p
  {
  }

  lemma ConfigClean(o: Options, r: Run, h: Host, p: Plan)
    requires r.faults == {}
    ensures var c := CheckConfig(o, r, h, p);
            && (Decided(c.found) <==> ValuesAt(o, h).Some?)
            && (ValuesAt(o, h).Some? ==> c.plan == p.(values := ValuesAt(o, h), configExists := c.plan.configExists))
  {
  }

  lemma TokenClean(o: Options, r: Run, h: Host, p: Plan)
    requires r.faults == {} && p.values.Some?
    ensures var c := CheckToken(o, r, h, p);
            && (Decided(c.found) <==> StoreUsable(o, h, p.values.value, r.now))
            && (Decided(c.found) ==> (c.found.Pending? <==> WillMint(h, p.values.value, r.now)))
            && (Decided(c.found) ==> c.plan == p.(restartWanted := p.restartWanted || c.found.Pending?))
  {
  }

  /** The first three checks decide exactly for a sound configuration and store. */
  lemma FilesClean(o: Options, r: Run, h: Host)
    requires r.faults == {}
    ensures Decided(AtDirectory(o, r, h).found) <==> Placeable(o, h)
    ensures Decided(AtConfig(o, r, h).found) && Decided(AtToken(o, r, h).found) <==>
              ValuesAt(o, h).Some? && StoreUsable(o, h, ValuesAt(o, h).value, r.now)
    ensures Decided(AtConfig(o, r, h).found) && Decided(AtToken(o, r, h).found) ==>
              && (AtToken(o, r, h).found.Pending? <==> WillMint(h, ValuesAt(o, h).value, r.now))
              && AtToken(o, r, h).plan.restartWanted == AtToken(o, r, h).found.Pending?
  {
    DirectoryClean(o, r, h, NewPlan(o));
    ConfigClean(o, r, h, AtDirectory(o, r, h).plan);
    if ValuesAt(o, h).Some? {
      TokenClean(o, r, h, AtConfig(o, r, h).plan);
    }
  }

  /** The deployment checks never fail, and restart for two reasons. */
  lemma DeployClean(o: Options, r: Run, h: Host, p: Plan)
    requires r.faults == {} && BinaryAt(h, o.source).Some?
    ensures var b := CheckBinary(o, r, h, p);
            var i := CheckInstall(o, r, h, b.plan);
            var s := CheckStart(o, r, h, i.plan);
            && !b.found.CheckFailed? && !i.found.CheckFailed? && !s.found.CheckFailed?
            && (Decided(b.found) && Decided(i.found) && Decided(s.found) ==>
                  && (i.found.Pending? <==> h.service.None? || Differs(o, h))
                  && (s.found.Pending? <==> !IsRunning(h) || p.restartWanted || WillReplace(o, h)))
  {
    BinaryClean(o, r, h, p);
    InstallClean(o, r, h, CheckBinary(o, r, h, p).plan);
  }

  lemma BinaryClean(o: Options, r: Run, h: Host, p: Plan)
    requires r.faults == {} && BinaryAt(h, o.source).Some?
    ensures var b := CheckBinary(o, r, h, p);
            && !b.found.CheckFailed? && b.plan.binPath == ChosenBin(o)
            && (Decided(b.found) && IsRunning(h) ==> (b.plan.restartWanted <==> p.restartWanted || WillReplace(o, h)))
  {
  }

  lemma InstallClean(o: Options, r: Run, h: Host, p: Plan)
    requires r.faults == {} && p.binPath == ChosenBin(o)
    ensures var i := CheckInstall(o, r, h, p);
            && !i.found.CheckFailed? && i.plan == p.(definition := Wanted(o))
            && (Decided(i.found) ==> (i.found.Pending? <==> h.service.None? || Differs(o, h)))
  {
  }

  // ---- the flags a refusal names ---------------------------------------------------------

  lemma ObedientFlags(o: Options, r: Run, h: Host)
    requires !o.dryRun
    requires Decided(AtDirectory(o, r, h).found) && Decided(AtConfig(o, r, h).found) && Decided(AtToken(o, r, h).found)
    requires !AtBinary(o, r, h).found.CheckFailed? && !AtInstall(o, r, h).found.CheckFailed? && !AtStart(o, r, h).found.CheckFailed?
    ensures var o' := Obeying(o, Outcome(o, r, h).0);
            && (AtBinary(o, r, h).found.Blocked? || AtStart(o, r, h).found.Blocked? || o.restart ==> o'.restart)
            && (AtInstall(o, r, h).found.Blocked? || o.reinstall ==> o'.reinstall)
  {
    if Goes(o, r, h) {
      GoesDecided(o, r, h);
    } else {
      NoCheckFailed(o, r, h);
      NamesFrom(o, r, h);
      BinaryChecked(o, r, h, AtToken(o, r, h).plan);
      InstallBlocks(o, r, h, AtBinary(o, r, h).plan);
      StartChecked(o, r, h, AtInstall(o, r, h).plan);
    }
  }

  lemma NoCheckFailed(o: Options, r: Run, h: Host)
    requires !Goes(o, r, h)
    requires Decided(AtDirectory(o, r, h).found) && Decided(AtConfig(o, r, h).found) && Decided(AtToken(o, r, h).found)
    requires !AtBinary(o, r, h).found.CheckFailed? && !AtInstall(o, r, h).found.CheckFailed? && !AtStart(o, r, h).found.CheckFailed?
    ensures !Outcome(o, r, h).0.failed
  {
    var c, p := Checks(o, r, h), NewPlan(o);
    ChainOfChecks(o, r, h);
    SevenNotFailed(c, p);
    RefusalTouchesNothing(STEPS, c, Applies(o, r), o.dryRun, h, p);
  }

  lemma SuccessDecides(o: Options, r: Run, h: Host)
    requires Succeeded(o, r, h)
    ensures Decided(AtDirectory(o, r, h).found) && Decided(AtConfig(o, r, h).found)
    ensures Decided(AtToken(o, r, h).found) && Decided(AtInstall(o, r, h).found)
  {
    SuccessGoes(o, r, h);
    GoesDecided(o, r, h);
  }

  /** A run that gets to apply succeeds unless it strands a service or has a
      token to mint that cannot be stored. */
  lemma GoingSucceedsIff(o: Options, r: Run, h: Host)
    requires r.faults == {} && Goes(o, r, h) && Ready(o, h) && PathStable(o)
    ensures var v := ValuesAt(o, h);
            v.Some? && (Succeeded(o, r, h) <==> (WillMint(h, v.value, r.now) ==> Mintable(o, r)) && !Stranded(o, h, v.value, r.now))
  {
    GoesDecided(o, r, h);
    FilesClean(o, r, h);
    DeployClean(o, r, h, AtToken(o, r, h).plan);
    CleanRunSucceedsIff(o, r, h);
    StepsRecorded(o, r, h);
    GoesUnblocked(o, r, h);
  }

  lemma SameNeeds(o: Options, o': Options, r: Run, h: Host)
    requires o' == o.(restart := o'.restart, reinstall := o'.reinstall)
    ensures Ready(o', h) == Ready(o, h) && PathStable(o') == PathStable(o) && Placeable(o', h) == Placeable(o, h) && Mintable(o', r) == Mintable(o, r)
  {
  }

  lemma SameStranding(o: Options, o': Options, h: Host, v: Values, now: int)
    requires o' == o.(restart := o'.restart, reinstall := o'.reinstall)
    ensures Stranded(o', h, v, now) == Stranded(o, h, v, now)
  {
  }

  lemma SameValues(o: Options, o': Options, h: Host)
    requires o' == o.(restart := o'.restart, reinstall := o'.reinstall)
    ensures ValuesAt(o', h) == ValuesAt(o, h)
  {
    forall v: Values
      ensures Disagrees(o', v) <==> Disagrees(o, v)
    {
      assert forall i :: 0 <= i < |o.provisioned| ==> (Disagreement(o', v, o.provisioned[i]) <==> Disagreement(o, v, o.provisioned[i]));
    }
  }

  /** The run a refused operator makes next, or the same one if nothing was
      refused, on any host: with none of its calls failing it succeeds if and
      only if its directory is or can be made one, the configuration there agrees,
      the store can be used and takes the token if one must be minted, the
      registered command could be read, and it does not register anew a running
      service that nothing else calls to restart. */
  lemma ObedientRunSucceedsIff(o: Options, r: Run, h: Host)
    requires r.faults == {} && !o.dryRun && Ready(o, h) && PathStable(o)
    ensures Succeeded(Obeying(o, Outcome(o, r, h).0), r, h) <==> Recoverable(o, r, h)
  {
    var o' := Obeying(o, Outcome(o, r, h).0);
    FilesClean(o, r, h);
    FilesIgnoreFlags(o, o', r, h);
    if !(Placeable(o, h) && Decided(AtConfig(o, r, h).found) && Decided(AtToken(o, r, h).found)) {
      SameNeeds(o, o', r, h);
      FilesClean(o', r, h);
      if Succeeded(o', r, h) {
        SuccessDecides(o', r, h);
      }
    } else {
      DeployClean(o, r, h, AtToken(o, r, h).plan);
      ObedientFlags(o, r, h);
      ObeyedVerdicts(o, o', r, h);
      SameNeeds(o, o', r, h);
      SameValues(o, o', h);
      SameStranding(o, o', h, ValuesAt(o, h).value, r.now);
      if Unparsed(h) {
        if Succeeded(o', r, h) {
          SuccessDecides(o', r, h);
        }
      } else {
        SixDecide(o', r, h);
        GoingSucceedsIff(o', r, h);
      }
    }
  }

  // ---- what an earlier run leaves ----------------------------------------------------------

  lemma StillReady(o: Options, r: Run, h: Host)
    requires Ready(o, h)
    ensures Ready(o, Outcome(o, r, h).1)
  {
    if Goes(o, r, h) {
      var w := RunTale(o, r, h);
      BeforeBinary(o, r, h, w);
      GroundKept(o, r, h, w);
    } else {
      Refused(o, r, h);
    }
  }

  lemma GroundKept(o: Options, r: Run, h: Host, w: Trail)
    requires Tale(o, r, h, w) && w.g[3].host.binaries == h.binaries
    ensures w.g[7].host.dir == w.g[1].host.dir && h.binaries.Keys <= w.g[7].host.binaries.Keys
    ensures w.g[1].host.dir == h.dir || w.g[1].host.dir.Present?
  {
  }

  lemma StillPlaceable(o: Options, r: Run, h: Host)
    requires Goes(o, r, h)
    ensures Placeable(o, Outcome(o, r, h).1)
  {
    var w := RunTale(o, r, h);
    BeforeBinary(o, r, h, w);
    GroundKept(o, r, h, w);
  }

  /** The re-run promise. Whatever run came before, refused, failed at any call
      or interrupted in any write, the next one that obeys its refusals and none
      of whose calls fails succeeds exactly when the host it finds is
      recoverable. */
  lemma RerunRecoversIff(o: Options, r: Run, h: Host, again: Run)
    requires again.faults == {} && !o.dryRun && Ready(o, h) && PathStable(o)
    ensures var after := Outcome(o, r, h).1;
            Succeeded(Obeying(o, Outcome(o, again, after).0), again, after) <==> Recoverable(o, again, after)
  {
    StillReady(o, r, h);
    ObedientRunSucceedsIff(o, again, Outcome(o, r, h).1);
  }

  /** And what of that a run that went ahead can have spoilt itself: the
      configuration, by a write that broke off; no store, and nothing of the
      registration's command; and it leaves a service to be registered anew only if it was
      asked to reinstall and failed before it had. */
  lemma WhatARunSpoils(o: Options, r: Run, h: Host)
    requires Goes(o, r, h) && Sound(o) && PathStable(o)
    ensures var (result, after) := Outcome(o, r, h);
            && (ValuesAt(o, after).None? ==>
                  |result.steps| == 7 && result.steps[1].failed && WriteConfig in r.faults && ConfigAt(after, o.configPath) == Some(r.torn))
            && (ValuesAt(o, after).Some? && ConfigAt(after, o.configPath) != Some(r.torn) && !AuthDisabled(ValuesAt(o, after).value) ==>
                  LoadOrEmpty(after, StorePath(ValuesAt(o, after).value)).Some?)
            && Placeable(o, after) && !Unparsed(after)
            && (Differs(o, after) ==> o.reinstall && result.failed)
  {
    StillPlaceable(o, r, h);
    var w := RunTale(o, r, h);
    BeforeBinary(o, r, h, w);
    ConfigsKept(o, r, h, w);
    ConfigLeft(o, r, h, w);
    ServiceLeft(o, r, h, w);
    TokenKept(o, r, h, w);
    StoreLeft(o, r, h, w);
    ValuesFrom(o, w.g[7].host, w.g[2].host);
  }

  lemma ValuesFrom(o: Options, h: Host, h': Host)
    requires h.configs == h'.configs
    ensures ValuesAt(o, h) == ValuesAt(o, h') && ConfigAt(h, o.configPath) == ConfigAt(h', o.configPath)
  {
  }

  lemma ConfigLeft(o: Options, r: Run, h: Host, w: Trail)
    requires Tale(o, r, h, w) && Sound(o)
    ensures ValuesAt(o, w.g[2].host).None? ==>
              w.g[2].failed && !w.g[1].failed && WriteConfig in r.faults && ConfigAt(w.g[2].host, o.configPath) == Some(r.torn)
    ensures ValuesAt(o, w.g[2].host) == w.plan.values || (WriteConfig in r.faults && ConfigAt(w.g[2].host, o.configPath) == Some(r.torn))
  {
    ConfigAgrees(o, r, h, w);
    assert w.g[1].host.configs == h.configs;
    ConfigTurnLeaves(o, r, h, w.c, w.plan, w.g[1], w.g[2]);
  }

  lemma ConfigTurnLeaves(o: Options, r: Run, h: Host, f: Found, p: Plan, g: Progress, g': Progress)
    requires ConfigVerdict(o, h, f, p) && ConfigTurn(o, r, f, g, g') && g.host.configs == h.configs && !Disagrees(o, p.values.value)
    ensures ValuesAt(o, g'.host).None? ==>
              g'.failed && !g.failed && WriteConfig in r.faults && ConfigAt(g'.host, o.configPath) == Some(r.torn)
    ensures ValuesAt(o, g'.host) == p.values || (WriteConfig in r.faults && ConfigAt(g'.host, o.configPath) == Some(r.torn))
  {
  }

  lemma StoreLeft(o: Options, r: Run, h: Host, w: Trail)
    requires Tale(o, r, h, w) && w.g[2].host.stores == h.stores && w.g[7].host.stores == w.g[3].host.stores
    ensures !AuthDisabled(w.plan.values.value) ==> LoadOrEmpty(w.g[7].host, StorePath(w.plan.values.value)).Some?
  {
  }

  lemma ServiceLeft(o: Options, r: Run, h: Host, w: Trail)
    requires Tale(o, r, h, w) && w.g[3].host.service == h.service && PathStable(o)
    requires w.g[3].plan.binPath == ChosenBin(o)
    ensures !Unparsed(w.g[7].host)
    ensures Differs(o, w.g[7].host) ==> o.reinstall && w.g[7].failed
  {
    InstallLeft(o, r, h, w.i, w.g[4], w.g[5]);
    CommandKept(o, r, w.s, w.g[5], w.g[6]);
    if w.g[4].failed {
      assert w.g[7].host.service == w.g[4].host.service;
    }
  }

  lemma CommandKept(o: Options, r: Run, f: Found, g: Progress, g': Progress)
    requires StartTurn(o, r, f, g, g')
    ensures g.host.service.None? ==> g'.host.service.None?
    ensures g.host.service.Some? ==> g'.host.service.Some? && g'.host.service.value.command == g.host.service.value.command
  {
  }

  lemma InstallLeft(o: Options, r: Run, h: Host, f: Found, g: Progress, g': Progress)
    requires InstallVerdict(o, h, f) && InstallTurn(o, r, f, g, g') && PathStable(o) && g.plan.binPath == ChosenBin(o)
    requires g.host.service == h.service || g.host.service == Stopped(h).service
    ensures !Unparsed(g'.host)
    ensures Differs(o, g'.host) ==> o.reinstall && (g'.failed || g.failed)
  {
    var want := Wanted(o);
    assert want[0] == ChosenBin(o) && |want| == 3;
  }

  lemma StrandedStops(o: Options, r: Run, h: Host)
    requires r.faults == {} && Goes(o, r, h) && Ready(o, h) && PathStable(o)
    requires ValuesAt(o, h).Some? && Stranded(o, h, ValuesAt(o, h).value, r.now)
    ensures !IsRunning(Outcome(o, r, h).1)
  {
    GoesDecided(o, r, h);
    FilesClean(o, r, h);
    DeployClean(o, r, h, AtToken(o, r, h).plan);
    CleanRunPassesStart(o, r, h);
    StepsRecorded(o, r, h);
    InstallApplies(o, r, h);
    ReinstalledServiceIsStartedIff(o, r, h);
  }

  lemma InstallApplies(o: Options, r: Run, h: Host)
    requires Goes(o, r, h) && PassedStart(Outcome(o, r, h).0) && AtInstall(o, r, h).found.Pending?
    ensures Outcome(o, r, h).0.steps[4].applied
  {
    var w := RunTale(o, r, h);
    PassedTurns(w, Outcome(o, r, h).0, Outcome(o, r, h).1);
  }

  /** A run that neither breaks off its write nor mints leaves the values and
      the tokens that were there. */
  lemma NothingMinted(o: Options, r: Run, h: Host)
    requires Sound(o) && r.faults == {} && Goes(o, r, h)
    requires ValuesAt(o, h).Some? && !WillMint(h, ValuesAt(o, h).value, r.now)
    ensures var after := Outcome(o, r, h).1; ValuesAt(o, after) == ValuesAt(o, h) && after.stores == h.stores
  {
    GoesDecided(o, r, h);
    FilesClean(o, r, h);
    var w := RunTale(o, r, h);
    ValuesPlanned(o, h, w.c, w.plan);
    BeforeBinary(o, r, h, w);
    ConfigsKept(o, r, h, w);
    ConfigLeft(o, r, h, w);
    TokenKept(o, r, h, w);
    ValuesFrom(o, w.g[7].host, w.g[2].host);
  }

  lemma ValuesPlanned(o: Options, h: Host, f: Found, p: Plan)
    requires ConfigVerdict(o, h, f, p) && ValuesAt(o, h).Some?
    ensures p.values == ValuesAt(o, h)
  {
  }

  /** Stranding happens once: the run that failed for it has stopped the service
      and registered it anew, so while the token it found is usable the next one
      succeeds. */
  lemma StrandedOnce(o: Options, r: Run, h: Host, again: Run)
    requires Sound(o) && r.faults == {} && again.faults == {} && Goes(o, r, h)
    requires Ready(o, h) && PathStable(o)
    requires ValuesAt(o, h).Some? && Stranded(o, h, ValuesAt(o, h).value, r.now) && TokenHolds(h, ValuesAt(o, h).value, again.now)
    ensures var after := Outcome(o, r, h).1;
            Outcome(o, r, h).0.failed && Succeeded(Obeying(o, Outcome(o, again, after).0), again, after)
  {
    StrandedFails(o, r, h);
    StrandedStops(o, r, h);
    WhatARunSpoils(o, r, h);
    NothingMinted(o, r, h);
    StillPlaceable(o, r, h);
    StoppedIsRecoverable(o, again, Outcome(o, r, h).1);
    RerunRecoversIff(o, r, h, again);
  }

  lemma StrandedFails(o: Options, r: Run, h: Host)
    requires r.faults == {} && Goes(o, r, h) && Ready(o, h) && PathStable(o)
    requires ValuesAt(o, h).Some? && Stranded(o, h, ValuesAt(o, h).value, r.now)
    ensures Outcome(o, r, h).0.failed
  {
    GoingSucceedsIff(o, r, h);
    GoesUnblocked(o, r, h);
  }

  lemma StoppedIsRecoverable(o: Options, r: Run, h: Host)
    requires Placeable(o, h) && ValuesAt(o, h).Some? && TokenHolds(h, ValuesAt(o, h).value, r.now) && !Unparsed(h) && !IsRunning(h)
    ensures Recoverable(o, r, h)
  {
  }
}
