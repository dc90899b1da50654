/** When a provisioning run none of whose calls fails succeeds. */
module Success {
  import opened Wrappers
  import opened Text
  import opened Render
  import opened Resolve
  import opened Host
  import opened Setup
  import opened Steps
  import opened Reconcile
  import opened Runs
  import opened Provisioning
  import opened Guarantees
  import TokenStore

  // ---- what each step needs to pass when no call fails ---------------------------

  ghost predicate FilesPass(o: Options, r: Run, w: Trail)
    requires |w.g| == 8
  {
    && (Acts(w.d, w.g[0]) && (!Owns(o) || !w.g[0].host.dir.NotADirectory?) ==> !w.g[1].failed)
    && (Acts(w.c, w.g[1]) && Writable(o, w.g[1].host) ==> !w.g[2].failed)
    && (Acts(w.t, w.g[2]) && LabelFree(o, w.g[2]) ==> (!w.g[3].failed <==> Mintable(o, r)))
  }

  ghost predicate DeployPasses(o: Options, r: Run, w: Trail)
    requires |w.g| == 8
  {
    && (Acts(w.b, w.g[3]) && BinaryAt(w.g[3].host, o.source).Some? ==> !w.g[4].failed)
    && (Acts(w.i, w.g[4]) && Installable(o, w.g[4].host) ==> !w.g[5].failed)
    && (Acts(w.s, w.g[5]) && StartBase(w.g[5]).service.Some? && Launched(o, StartBase(w.g[5]), r.now).Some? ==> !w.g[6].failed)
  }

  /** The label and the lifetime of the token to be minted can be stored. */
  predicate Mintable(o: Options, r: Run) {
    TokenStore.LabelOk(o.tokenLabel) && ExpiryOf(o, r.now).Some?
  }

  ghost predicate Writable(o: Options, h: Host) {
    && Rendered(o.spec, o.provisioned, o.dialect).Success? && Lower(o.configPath) !in h.configs
    && ResolvedBytes(o.spec, Rendered(o.spec, o.provisioned, o.dialect).value, o.dialect).Success?
  }

  ghost predicate LabelFree(o: Options, g: Progress) {
    && g.plan.values.Some? && LoadOrEmpty(g.host, StorePath(g.plan.values.value)).Some?
    && !TokenStore.HasLabel(LoadOrEmpty(g.host, StorePath(g.plan.values.value)).value, o.tokenLabel)
  }

  ghost predicate Installable(o: Options, h: Host) {
    && ConfigAt(h, o.configPath).Some? && Startable(o, ConfigAt(h, o.configPath).value).Some?
    && o.binDirSafe && (o.reinstall || h.service.None?)
  }

  lemma DirectoryPasses(o: Options, r: Run, f: Found, g: Progress, g': Progress)
    requires r.faults == {} && Turn(f, ApplyDirectory(o, r, g.host, g.plan), g, g')
    ensures Acts(f, g) && (!Owns(o) || !g.host.dir.NotADirectory?) ==> !g'.failed
  {
  }

  lemma ConfigPasses(o: Options, r: Run, f: Found, g: Progress, g': Progress)
    requires r.faults == {} && Turn(f, ApplyConfig(o, r, g.host, g.plan), g, g')
    ensures Acts(f, g) && Writable(o, g.host) ==> !g'.failed
  {
  }

  lemma TokenPasses(o: Options, r: Run, f: Found, g: Progress, g': Progress)
    requires r.faults == {} && Turn(f, ApplyToken(o, r, g.host, g.plan), g, g')
    ensures Acts(f, g) && LabelFree(o, g) ==> (!g'.failed <==> Mintable(o, r))
  {
  }

  lemma BinaryPasses(o: Options, r: Run, f: Found, g: Progress, g': Progress)
    requires r.faults == {} && Turn(f, ApplyBinary(o, r, g.host, g.plan), g, g')
    ensures Acts(f, g) && BinaryAt(g.host, o.source).Some? ==> !g'.failed
  {
  }

  lemma InstallPasses(o: Options, r: Run, f: Found, g: Progress, g': Progress)
    requires r.faults == {} && Turn(f, ApplyInstall(o, r, g.host, g.plan), g, g')
    ensures Acts(f, g) && Installable(o, g.host) ==> !g'.failed
  {
  }

  lemma StartPasses(o: Options, r: Run, f: Found, g: Progress, g': Progress)
    requires r.faults == {} && Turn(f, ApplyStart(o, r, g.host, g.plan), g, g')
    ensures Acts(f, g) && StartBase(g).service.Some? && Launched(o, StartBase(g), r.now).Some? ==> !g'.failed
  {
  }

  lemma FilesTold(o: Options, r: Run, f: seq<Found>, w: Trail, e: seq<StepResult>)
    requires r.faults == {} && |f| == 7 == |e| && |w.g| == 8 && w == Trail(f[0], f[1], f[2], f[3], f[4], f[5], w.plan, w.g)
    requires forall k :: 0 <= k < 7 ==> Told(k, STEPS, Applies(o, r), f, w.g, e)
    ensures FilesPass(o, r, w)
  {
    assert Told(0, STEPS, Applies(o, r), f, w.g, e);
    DirectoryPasses(o, r, f[0], w.g[0], w.g[1]);
    assert Told(1, STEPS, Applies(o, r), f, w.g, e);
    ConfigPasses(o, r, f[1], w.g[1], w.g[2]);
    assert Told(2, STEPS, Applies(o, r), f, w.g, e);
    TokenPasses(o, r, f[2], w.g[2], w.g[3]);
  }

  lemma DeployTold(o: Options, r: Run, f: seq<Found>, w: Trail, e: seq<StepResult>)
    requires r.faults == {} && |f| == 7 == |e| && |w.g| == 8 && w == Trail(f[0], f[1], f[2], f[3], f[4], f[5], w.plan, w.g)
    requires forall k :: 0 <= k < 7 ==> Told(k, STEPS, Applies(o, r), f, w.g, e)
    ensures DeployPasses(o, r, w)
  {
    assert Told(3, STEPS, Applies(o, r), f, w.g, e);
    BinaryPasses(o, r, f[3], w.g[3], w.g[4]);
    assert Told(4, STEPS, Applies(o, r), f, w.g, e);
    InstallPasses(o, r, f[4], w.g[4], w.g[5]);
    assert Told(5, STEPS, Applies(o, r), f, w.g, e);
    StartPasses(o, r, f[5], w.g[5], w.g[6]);
  }

  // ---- the chain -------------------------------------------------------------------

  lemma ConfigWritable(o: Options, h: Host, f: Found, p: Plan, g: Progress)
    requires ConfigVerdict(o, h, f, p) && f.Pending? && g.host.configs == h.configs
    ensures Writable(o, g.host)
  {
  }

  lemma LabelIsFree(o: Options, r: Run, h: Host, f: Found, v: Values, g: Progress)
    requires TokenVerdict(o, r, h, f, v) && f.Pending? && g.host.stores == h.stores && g.plan.values == Some(v)
    ensures LabelFree(o, g)
  {
  }

  /** Directory and configuration pass; the token does if it can be stored. */
  lemma FilesDone(o: Options, r: Run, h: Host, w: Trail)
    requires Verdicts(o, r, h, w) && Beginning(o, r, h, w) && FilesPass(o, r, w)
    ensures !w.g[1].failed && !w.g[2].failed && w.g[2].plan == w.plan
    ensures Configured(o, w.g[2].host, w.plan.values.value)
    ensures !w.g[3].failed <==> (w.t.Pending? ==> Mintable(o, r))
  {
    if w.c.Pending? {
      ConfigWritable(o, h, w.c, w.plan, w.g[1]);
    }
    ConfigSettled(o, r, h, w.c, w.plan, w.g[1], w.g[2]);
    if w.t.Pending? {
      LabelIsFree(o, r, h, w.t, w.plan.values.value, w.g[2]);
    }
  }

  /** The host the deployment steps work on. */
  ghost predicate Ready(o: Options, h: Host) {
    Lower(AbsBin(o, o.source)) == Lower(o.source) && o.binDirSafe && BinaryAt(h, o.source).Some?
  }

  /** Copy and registration pass. */
  lemma DeployDone(o: Options, r: Run, h: Host, w: Trail)
    requires Tale(o, r, h, w) && DeployPasses(o, r, w) && Ready(o, h)
    requires !w.g[1].failed && !w.g[2].failed && !w.g[3].failed && w.g[2].plan == w.plan
    requires Configured(o, w.g[2].host, w.plan.values.value)
    ensures !w.g[4].failed && !w.g[5].failed
  {
    BeforeBinary(o, r, h, w);
  }

  /** The image the registration names is there. */
  lemma ImageIsThere(o: Options, r: Run, h: Host, f: Found, g: Progress, g': Progress)
    requires InstallVerdict(o, h, f) && InstallTurn(o, r, f, g, g') && !g.failed && !g'.failed && g.plan.binPath == ChosenBin(o)
    requires g.host.service == h.service || g.host.service == Stopped(h).service
    requires Ready(o, g.host) && (f.Pending? || PathStable(o))
    requires o.noCopy || SameFile(o, g.host) || CopyInPlace(o, g.host)
    ensures Registered(o, g'.host) && BinaryAt(g'.host, g'.host.service.value.command.value[0]).Some?
  {
    InstallSettled(o, r, h, f, g, g');
    if !f.Pending? {
      var got, want := g'.host.service.value.command.value, Wanted(o);
      assert Lower(got[0]) == Lower(want[0]);
      assert want[0] == ChosenBin(o);
    }
  }

  lemma LaunchesIf(o: Options, h: Host, v: Values, now: int)
    requires Registered(o, h) && Configured(o, h, v) && BinaryAt(h, h.service.value.command.value[0]).Some?
    requires TokenHolds(h, v, now)
    ensures Launched(o, h, now).Some?
  {
  }

  lemma ImageStands(o: Options, r: Run, h: Host, w: Trail)
    requires Tale(o, r, h, w) && Ready(o, h) && (w.i.Pending? || PathStable(o))
    requires !w.g[1].failed && !w.g[2].failed && !w.g[3].failed && !w.g[4].failed && !w.g[5].failed
    ensures Registered(o, w.g[5].host) && BinaryAt(w.g[5].host, w.g[5].host.service.value.command.value[0]).Some?
  {
    BeforeBinary(o, r, h, w);
    BinarySettled(o, h, w.b, w.g[3], w.g[4]);
    SourceKept(o, h, w.b, w.g[3], w.g[4]);
    ImageIsThere(o, r, h, w.i, w.g[4], w.g[5]);
  }

  lemma StoreStands(o: Options, r: Run, h: Host, w: Trail)
    requires w.plan.values.Some? && TokenVerdict(o, r, h, w.t, w.plan.values.value) && Beginning(o, r, h, w)
    requires !w.g[2].failed && !w.g[3].failed && w.g[2].plan == w.plan && w.plan.token.None?
    ensures TokenHolds(w.g[3].host, w.plan.values.value, r.now)
  {
    var v := w.plan.values.value;
    if w.t.Pending? {
      SavedIsUsable(o, r, StorePath(v), w.g[2], w.g[3]);
    }
  }

  /** A token just minted has not expired. */
  lemma SavedIsUsable(o: Options, r: Run, path: string, g: Progress, g': Progress)
    requires SavedToken(o, r, path, g, g')
    ensures TokenStore.Usable(Tokens(g'.host, path), r.now)
  {
    var tokens, expiry :|
      && LoadOrEmpty(g.host, path) == Some(tokens) && ExpiryOf(o, r.now) == Some(expiry)
      && !TokenStore.HasLabel(tokens, o.tokenLabel)
      && g'.host.stores == g.host.stores[Lower(path) := Holding(tokens + [MintedEntry(o, r, expiry)])];
    assert Tokens(g'.host, path)[|tokens|] == MintedEntry(o, r, expiry);
    assert !TokenStore.Expired(MintedEntry(o, r, expiry), r.now);
  }

  lemma StartsFrom(o: Options, r: Run, g: Progress, v: Values)
    requires Registered(o, g.host) && BinaryAt(g.host, g.host.service.value.command.value[0]).Some? && Configured(o, g.host, v)
    requires TokenHolds(g.host, v, r.now)
    ensures StartBase(g).service.Some? && Launched(o, StartBase(g), r.now).Some?
  {
    LaunchesIf(o, StartBase(g), v, r.now);
  }

  /** The service can be started from where the registration leaves it. */
  lemma StartDone(o: Options, r: Run, h: Host, w: Trail)
    requires Tale(o, r, h, w) && DeployPasses(o, r, w) && Ready(o, h) && (w.i.Pending? || PathStable(o))
    requires !w.g[1].failed && !w.g[2].failed && !w.g[3].failed && !w.g[4].failed && !w.g[5].failed
    requires w.g[2].plan == w.plan && Configured(o, w.g[2].host, w.plan.values.value)
    ensures !w.g[6].failed
  {
    var v := w.plan.values.value;
    ImageStands(o, r, h, w);
    StoreStands(o, r, h, w);
    StartsFrom(o, r, w.g[5], v);
  }

  lemma SourceKept(o: Options, h: Host, f: Found, g: Progress, g': Progress)
    requires BinaryVerdict(o, h, f) && BinaryTurn(o, f, g, g') && !g.failed && !g'.failed && g.host.binaries == h.binaries
    requires BinaryAt(h, o.source).Some?
    ensures BinaryAt(g'.host, o.source).Some?
  {
  }

  /** Verification passes if the service runs, which it does not when it was
      registered anew and the start step had found it running. */
  lemma VerifyDone(o: Options, r: Run, h: Host, w: Trail)
    requires Tale(o, r, h, w) && r.faults == {}
    requires !w.g[1].failed && !w.g[2].failed && !w.g[3].failed && !w.g[4].failed && !w.g[5].failed && !w.g[6].failed
    ensures !w.g[7].failed <==> (w.i.Pending? ==> w.s.Pending?)
  {
    BeforeBinary(o, r, h, w);
    RunningAfterStart(o, r, h, w);
    if w.g[3].plan.token.Some? {
      MintedAndStarted(o, r, h, w);
    }
    StandsAfterStart(o, r, h, w);
  }

  lemma RunningAfterStart(o: Options, r: Run, h: Host, w: Trail)
    requires Tale(o, r, h, w) && w.g[3].host.service == h.service
    requires w.g[3].plan == w.plan.(values := w.g[2].plan.values, token := w.g[3].plan.token)
    requires !w.g[3].failed && !w.g[4].failed && !w.g[5].failed && !w.g[6].failed
    ensures IsRunning(w.g[6].host) <==> (w.i.Pending? ==> w.s.Pending?)
  {
  }

  /** A run none of whose calls fails, on a host where the source is there, the
      binary directory safe and the path stable or still to be registered,
      succeeds if and only if a token it has to mint can be stored and it does
      not register the service anew over a running one it has no other reason to
      restart. */
  lemma CleanRunSucceedsIff(o: Options, r: Run, h: Host)
    requires Goes(o, r, h) && r.faults == {} && Ready(o, h)
    requires AtInstall(o, r, h).found.Pending? || PathStable(o)
    ensures var result := Outcome(o, r, h).0;
            && |result.steps| == 7
            && (!result.failed <==>
                  && (result.steps[2].found.Pending? ==> Mintable(o, r))
                  && (result.steps[4].found.Pending? ==> result.steps[5].found.Pending?))
  {
    var w, f := RunStory(o, r, h);
    FilesTold(o, r, f, w, Outcome(o, r, h).0.steps);
    DeployTold(o, r, f, w, Outcome(o, r, h).0.steps);
    CleanTale(o, r, h, w);
  }

  /** Such a run gets past its start step if a token it has to mint can be stored. */
  lemma CleanRunPassesStart(o: Options, r: Run, h: Host)
    requires Goes(o, r, h) && r.faults == {} && Ready(o, h)
    requires AtInstall(o, r, h).found.Pending? || PathStable(o)
    requires AtToken(o, r, h).found.Pending? ==> Mintable(o, r)
    ensures PassedStart(Outcome(o, r, h).0)
  {
    var w, f := RunStory(o, r, h);
    FilesTold(o, r, f, w, Outcome(o, r, h).0.steps);
    DeployTold(o, r, f, w, Outcome(o, r, h).0.steps);
    CleanStart(o, r, h, w);
    NotFailedSoFar(w, Outcome(o, r, h).0, Outcome(o, r, h).1);
  }

  lemma CleanStart(o: Options, r: Run, h: Host, w: Trail)
    requires Tale(o, r, h, w) && FilesPass(o, r, w) && DeployPasses(o, r, w)
    requires Ready(o, h) && (w.i.Pending? || PathStable(o)) && (w.t.Pending? ==> Mintable(o, r))
    ensures !w.g[1].failed && !w.g[2].failed && !w.g[3].failed && !w.g[4].failed && !w.g[5].failed && !w.g[6].failed
  {
    FilesDone(o, r, h, w);
    DeployDone(o, r, h, w);
    StartDone(o, r, h, w);
  }

  lemma NotFailedSoFar(w: Trail, result: Reconcile.Result, after: Host)
    requires Ends(w, result, after)
    requires !w.g[1].failed && !w.g[2].failed && !w.g[3].failed && !w.g[4].failed && !w.g[5].failed && !w.g[6].failed
    ensures PassedStart(result)
  {
  }

  lemma CleanTale(o: Options, r: Run, h: Host, w: Trail)
    requires Tale(o, r, h, w) && FilesPass(o, r, w) && DeployPasses(o, r, w) && r.faults == {}
    requires Ready(o, h) && (w.i.Pending? || PathStable(o))
    ensures !w.g[7].failed <==> (w.t.Pending? ==> Mintable(o, r)) && (w.i.Pending? ==> w.s.Pending?)
  {
    FilesDone(o, r, h, w);
    if w.g[3].failed {
      FailedEarly(o, r, h, w);
    } else {
      DeployDone(o, r, h, w);
      StartDone(o, r, h, w);
      VerifyDone(o, r, h, w);
    }
  }
}
