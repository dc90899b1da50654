/** Hosts and options on which the promises a provisioning run does not keep are
    seen to fail. */
module Counterexamples {
  import opened Wrappers
  import opened Text
  import opened ConfigKey
  import opened Toml
  import opened Render
  import opened Resolve
  import opened Host
  import opened Setup
  import opened Steps
  import opened Reconcile
  import opened Runs
  import opened Provisioning
  import opened Guarantees
  import opened Success
  import opened Reruns
  import opened Recovery
  import RoundTrip
  import Strconv
  import TokenStore

  // ---- a registration without keys ---------------------------------------------------

  function ParseDecimal(s: string): Option<int64> {
    match Strconv.Atoi(s, 64)
    case Number(n) => if -0x8000_0000_0000_0000 <= n < 0x8000_0000_0000_0000 then Some(n) else None
    case _ => None
  }

  const DECIMAL: Dialect := Dialect([], Casing(LowerChar, UpperChar), (d: int64) => Strconv.Itoa(d), ParseDecimal)

  /** No keys, no copy, a binary "s" and a configuration "c". */
  const BARE: Options := Options(
    spec := [], dialect := DECIMAL, validate := (v: Values) => true, equivalent := (k: string, a: Value, b: Value) => a == b,
    sum := (s: string) => s, hash := (s: string) => s, provisioned := [], layoutConfig := "l", configPath := "c",
    source := "s", dest := "d", absDest := "d", binDirSafe := true, tokenLabel := "t", tokenDays := 0, protectedPath := true,
    windows := true, dryRun := false, noCopy := true, reinstall := false, restart := false)

  const TOKEN := TokenStore.Entry("t", "m", 0, None)

  function RunWith(faults: set<Op>): Run {
    Run(0, "m", faults, "")
  }

  const CLEAN: Run := RunWith({})

  /** The configuration in place and empty, its store and service as given. */
  function Furnished(tokens: seq<TokenStore.Entry>, binaries: map<string, string>, service: Option<Service>): Host {
    Host(Missing, map[Lower("c") := ""], map[Lower("") := Holding(tokens)], binaries, service)
  }

  ghost predicate LikeBare(o: Options) {
    o == BARE.(dest := o.dest, absDest := o.absDest, noCopy := o.noCopy, reinstall := o.reinstall, restart := o.restart)
  }

  lemma EmptyResolves(dc: Dialect)
    ensures ResolvedBytes([], "", dc) == Success(map[])
  {
    assert SplitOn("", '\n') == [""];
    assert ReadLine("") == Some(Blank);
    var doc := Doc("", {}, map[]);
    assert ReadLines(doc, [""]) == ReadLines(doc, []) by {
      assert [""][1..] == [];
    }
  }

  lemma BareIsSound(o: Options)
    requires LikeBare(o)
    ensures Sound(o)
  {
    forall d: int64
      ensures o.dialect.parse(o.dialect.format(d)) == Some(d)
    {
      RoundTrip.AtoiItoa64(d);
    }
  }

  lemma FilesFound(o: Options, r: Run, h: Host)
    requires LikeBare(o) && StatConfig !in r.faults && ReadConfig !in r.faults && ConfigAt(h, "c") == Some("")
    ensures AtDirectory(o, r, h) == Checked(Satisfied, NewPlan(o))
    ensures AtConfig(o, r, h) == Checked(Satisfied, NewPlan(o).(values := Some(map[]), configExists := true))
  {
    EmptyResolves(o.dialect);
  }

  // ---- a binary directory that is not absolute ------------------------------------------

  const RELATIVE: Options := BARE.(noCopy := false, absDest := "a/d")

  function Unregistered(): Host {
    Furnished([TOKEN], map[Lower("s") := "b", Lower("a/d") := "b"], None)
  }

  lemma RelativeChecks()
    ensures var o, r, h := RELATIVE, CLEAN, Unregistered();
            && Goes(o, r, h) && AtToken(o, r, h).found == Satisfied
            && AtInstall(o, r, h).found == Pending && AtStart(o, r, h).found == Pending
  {
    var o, r, h := RELATIVE, CLEAN, Unregistered();
    FilesFound(o, r, h);
    UsableToken();
    assert |Lower("s")| == 1 && |Lower("a/d")| == 3;
    SixDecide(o, r, h);
  }

  lemma UsableToken()
    ensures TokenStore.Usable([TOKEN], 0)
  {
    assert !TokenStore.Expired([TOKEN][0], 0);
  }

  /** A run that has only to register and start succeeds; under an unstable
      path the next one does not find what it asks for. */
  lemma UnstableDiffers(o: Options, r: Run, h: Host)
    requires Sound(o) && Goes(o, r, h) && r.faults == {} && Ready(o, h) && !PathStable(o)
    requires AtToken(o, r, h).found.Satisfied? && AtInstall(o, r, h).found.Pending? && AtStart(o, r, h).found.Pending?
    ensures Succeeded(o, r, h)
    ensures var again := Outcome(o, r, Outcome(o, r, h).1).0; again.failed || !SixSatisfied(again)
  {
    CleanRunSucceedsIff(o, r, h);
    StepsRecorded(o, r, h);
    GoesUnblocked(o, r, h);
    SuccessIsFixedPoint(o, r, h, r);
  }

  /** The run succeeds and registers the absolute path; the next one asks for the
      relative one and finds it different. */
  lemma RelativeIsNoFixedPoint()
    ensures var o, r, h := RELATIVE, CLEAN, Unregistered();
            && Sound(o) && Succeeded(o, r, h)
            && var again := Outcome(o, r, Outcome(o, r, h).1).0; again.failed || !SixSatisfied(again)
  {
    RelativeChecks();
    BareIsSound(RELATIVE);
    RelativeIsReady();
    UnstableDiffers(RELATIVE, CLEAN, Unregistered());
  }

  lemma RelativeIsReady()
    ensures Ready(RELATIVE, Unregistered()) && !PathStable(RELATIVE)
  {
    assert |Lower("d")| != |Lower("a/d")|;
  }

  // ---- reinstalling over a running service ------------------------------------------------

  const REPLACING: Options := BARE.(reinstall := true)

  /** Registered to run something else, and running it. */
  function RunsOther(): Host {
    Furnished([TOKEN], map[Lower("s") := "b"], Some(Service(Some(["x"]), Running(Process("x", "", [TOKEN])))))
  }

  lemma ReplacingChecks()
    ensures var o, r, h := REPLACING, CLEAN, RunsOther();
            && Goes(o, r, h) && AtToken(o, r, h).found == Satisfied
            && AtInstall(o, r, h).found == Pending && AtStart(o, r, h).found == Satisfied
  {
    var o, r, h := REPLACING, CLEAN, RunsOther();
    FilesFound(o, r, h);
    UsableToken();
    SixDecide(o, r, h);
  }

  lemma ReinstallStops(o: Options, r: Run, h: Host)
    requires Goes(o, r, h) && r.faults == {} && Ready(o, h)
    requires AtToken(o, r, h).found.Satisfied? && AtInstall(o, r, h).found.Pending? && AtStart(o, r, h).found.Satisfied?
    ensures var (result, after) := Outcome(o, r, h); result.failed && after.service.Some? && !IsRunning(after)
  {
    CleanRunPassesStart(o, r, h);
    StepsRecorded(o, r, h);
    var w := RunTale(o, r, h);
    PassedTurns(w, Outcome(o, r, h).0, Outcome(o, r, h).1);
    ReinstalledServiceIsStartedIff(o, r, h);
    LeftRegistered(o, r, h, w);
  }

  lemma LeftRegistered(o: Options, r: Run, h: Host, w: Trail)
    requires Tale(o, r, h, w) && w.i.Pending? && w.s.Satisfied? && !w.g[4].failed && !w.g[5].failed
    ensures w.g[7].host.service.Some?
  {
  }

  /** The service was running, and nothing failed; now it is registered, stopped,
      and the run has failed. */
  lemma ReinstallLeavesServiceStopped()
    ensures var o, r, h := REPLACING, CLEAN, RunsOther();
            var (result, after) := Outcome(o, r, h);
            IsRunning(h) && r.faults == {} && result.failed && after.service.Some? && !IsRunning(after)
  {
    ReplacingChecks();
    ReplacingIsReady();
    ReinstallStops(REPLACING, CLEAN, RunsOther());
  }

  lemma ReplacingIsReady()
    ensures Ready(REPLACING, RunsOther())
  {
  }

  /** The next run finds it stopped, and starts it. */
  lemma RerunStartsIt()
    ensures var o, r, h := REPLACING, CLEAN, RunsOther();
            var (result, after) := Outcome(o, r, h);
            result.failed && Succeeded(Obeying(o, Outcome(o, r, after).0), r, after)
  {
    ReplacingChecks();
    ReplacingIsReady();
    BareIsSound(REPLACING);
    ReplacingIsStranded();
    StrandedOnce(REPLACING, CLEAN, RunsOther(), CLEAN);
  }

  lemma ReplacingIsStranded()
    ensures var o, r, h := REPLACING, CLEAN, RunsOther();
            && PathStable(o) && ValuesAt(o, h).Some?
            && Stranded(o, h, ValuesAt(o, h).value, r.now) && TokenHolds(h, ValuesAt(o, h).value, r.now)
  {
    EmptyResolves(DECIMAL);
    UsableToken();
  }

  // ---- a token the service has not read ------------------------------------------------------

  const RESTARTING: Options := BARE.(restart := true)

  /** Running as registered, over an empty store. */
  function RunsBare(): Host {
    Furnished([], map[Lower("s") := "b"], Some(Service(Some(["s", CONFIG_FLAG, "c"]), Running(Process("b", "", [])))))
  }

  lemma RestartingChecks(r: Run)
    requires r == RunWith({LockStore}) || r == RunWith({StopForStart})
    ensures var o, h := RESTARTING, RunsBare();
            && Goes(o, r, h) && AtToken(o, r, h).found == Pending && AtBinary(o, r, h).found == Satisfied
            && AtInstall(o, r, h).found == Satisfied && AtStart(o, r, h).found == Pending
  {
    var o, h := RESTARTING, RunsBare();
    FilesFound(o, r, h);
    SixDecide(o, r, h);
  }

  lemma TokenSaves(o: Options, r: Run, f: Found, g: Progress, g': Progress)
    requires Turn(f, ApplyToken(o, r, g.host, g.plan), g, g') && Acts(f, g) && LabelFree(o, g) && Mintable(o, r)
    requires r.faults <= {LockStore, StopForStart}
    ensures SavedToken(o, r, StorePath(g.plan.values.value), g, g') && g'.plan.token == Some(r.minted)
    ensures g'.failed <==> LockStore in r.faults
  {
  }

  lemma StopFails(o: Options, r: Run, g: Progress, g': Progress)
    requires Turn(Pending, ApplyStart(o, r, g.host, g.plan), g, g')
    requires !g.failed && g.plan.restartWanted && g.host.service.Some? && r.faults == {StopForStart}
    ensures g'.failed && g'.host == g.host && g'.plan == g.plan
  {
  }

  /** A run with nothing to do but mint and restart. */
  ghost predicate MintsAndRestarts(o: Options, r: Run, h: Host) {
    && Goes(o, r, h) && Mintable(o, r) && IsRunning(h)
    && AtDirectory(o, r, h).found.Satisfied? && AtConfig(o, r, h).found.Satisfied? && AtToken(o, r, h).found.Pending?
    && AtBinary(o, r, h).found.Satisfied? && AtInstall(o, r, h).found.Satisfied? && AtStart(o, r, h).found.Pending?
  }

  lemma MintedTurns(o: Options, r: Run, h: Host) returns (w: Trail)
    requires MintsAndRestarts(o, r, h) && (r.faults == {LockStore} || r.faults == {StopForStart})
    ensures Tale(o, r, h, w) && Ends(w, Outcome(o, r, h).0, Outcome(o, r, h).1)
    ensures w.g[2].host == h && SavedToken(o, r, StorePath(w.plan.values.value), w.g[2], w.g[3])
    ensures w.g[7].failed && w.g[7].host == w.g[3].host && w.g[7].plan.token == Some(r.minted)
  {
    var f;
    w, f := RunStory(o, r, h);
    TokenAndStartTold(o, r, f, w.g, Outcome(o, r, h).0.steps);
    MintTurn(o, r, h, w);
    QuietMiddle(o, r, h, w);
    StuckTurns(o, r, h, w);
  }

  lemma TokenAndStartTold(o: Options, r: Run, f: seq<Found>, g: seq<Progress>, e: seq<StepResult>)
    requires |f| == 7 == |e| && |g| == 8
    requires forall k :: 0 <= k < 7 ==> Told(k, STEPS, Applies(o, r), f, g, e)
    ensures Turn(f[2], ApplyToken(o, r, g[2].host, g[2].plan), g[2], g[3])
    ensures Turn(f[5], ApplyStart(o, r, g[5].host, g[5].plan), g[5], g[6])
  {
    assert Told(2, STEPS, Applies(o, r), f, g, e);
    assert Told(5, STEPS, Applies(o, r), f, g, e);
  }

  lemma StuckTurns(o: Options, r: Run, h: Host, w: Trail)
    requires Tale(o, r, h, w) && w.s.Pending? && w.g[5] == w.g[3] && w.g[3].host.service.Some? && w.g[3].plan.restartWanted
    requires r.faults == {LockStore} || r.faults == {StopForStart}
    requires w.g[3].failed <==> LockStore in r.faults
    requires Turn(w.s, ApplyStart(o, r, w.g[5].host, w.g[5].plan), w.g[5], w.g[6])
    ensures w.g[7].failed && w.g[7].host == w.g[3].host && w.g[7].plan.token == w.g[3].plan.token
  {
    if LockStore in r.faults {
      FailedEarly(o, r, h, w);
    } else {
      StopFails(o, r, w.g[5], w.g[6]);
    }
  }

  lemma MintTurn(o: Options, r: Run, h: Host, w: Trail)
    requires Tale(o, r, h, w) && w.d.Satisfied? && w.c.Satisfied? && w.t.Pending? && Mintable(o, r) && r.faults <= {LockStore, StopForStart}
    requires Turn(w.t, ApplyToken(o, r, w.g[2].host, w.g[2].plan), w.g[2], w.g[3])
    ensures w.g[2] == w.g[0] && SavedToken(o, r, StorePath(w.plan.values.value), w.g[2], w.g[3])
    ensures w.g[3].plan.token == Some(r.minted) && (w.g[3].failed <==> LockStore in r.faults)
  {
    NothingYet(o, r, h, w);
    LabelIsFree(o, r, h, w.t, w.plan.values.value, w.g[2]);
    TokenSaves(o, r, w.t, w.g[2], w.g[3]);
  }

  lemma NothingYet(o: Options, r: Run, h: Host, w: Trail)
    requires Beginning(o, r, h, w) && w.d.Satisfied? && w.c.Satisfied?
    ensures w.g[2] == w.g[0]
  {
  }

  lemma QuietMiddle(o: Options, r: Run, h: Host, w: Trail)
    requires Tale(o, r, h, w) && w.b.Satisfied? && w.i.Satisfied? && w.t.Pending? && w.g[2] == w.g[0]
    ensures w.g[5] == w.g[3] && w.g[3].plan.restartWanted && w.g[3].host.service == h.service
  {
  }

  /** Whichever of the two calls failed, the run reports a token, and its re-run
      is content with a process that has not read it. */
  lemma MintedUnread(o: Options, r: Run, h: Host, again: Run)
    requires Sound(o) && MintsAndRestarts(o, r, h) && (r.faults == {LockStore} || r.faults == {StopForStart})
    requires again.faults == {} && again.now == r.now && !Serves(o, h, r.minted)
    ensures var (result, after) := Outcome(o, r, h);
            var (result', after') := Outcome(o, again, after);
            && result.failed && result.token == Some(r.minted)
            && !result'.failed && SixSatisfied(result') && IsRunning(after') && !Serves(o, after', r.minted)
  {
    var w := MintedTurns(o, r, h);
    SavedIsUsable(o, r, StorePath(w.plan.values.value), w.g[2], w.g[3]);
    SavedIsMinted(o, r, h, StorePath(w.plan.values.value), w.g[2], w.g[3]);
    TokenKept(o, r, h, w);
    MintedThere(o, r, h, w);
    UntouchedServiceGoesStale(o, r, h, again);
  }

  /** The configuration and the store are as asked for and the service runs; the
      lock or the stop fails once, and the re-run leaves the old process. */
  lemma RerunLeavesServiceStale(r: Run)
    requires r == RunWith({LockStore}) || r == RunWith({StopForStart})
    ensures var o, h := RESTARTING, RunsBare();
            var (result, after) := Outcome(o, r, h);
            var (result', after') := Outcome(o, CLEAN, after);
            && result.failed && result.token == Some("m")
            && !result'.failed && SixSatisfied(result') && IsRunning(after') && !Serves(o, after', "m")
  {
    RestartingChecks(r);
    FilesFound(RESTARTING, r, RunsBare());
    BareIsSound(RESTARTING);
    MintedUnread(RESTARTING, r, RunsBare(), CLEAN);
  }

  // ---- a usage text TOML cannot carry -----------------------------------------------------

  const BELL: Spec := [Key("k", TypeString, None, "\U{07}", false)]

  lemma BellIsRegistered(f: Casing)
    ensures RoundTrip.WellNamed(BELL) && Unambiguous(BELL, f)
  {
    NamesOfOne('k', f);
    assert |RESERVED_FLAG| == 6;
  }

  lemma OneDirtyKey(spec: Spec, values: seq<Provisioned>, dc: Dialect)
    requires |spec| == 1 && RoundTrip.WellNamed(spec) && Unambiguous(spec, dc.fold) && spec[0].typ.TypeString?
    requires |values| == 1 && values[0].key == spec[0].name && values[0].value.Str?
    requires !RoundTrip.CleanUsage(spec[0].usage)
    ensures Rendered(spec, values, dc).Success?
    ensures ResolvedBytes(spec, Rendered(spec, values, dc).value, dc) == Failure(DoesNotParse)
  {
    IndexDecides(spec, dc.fold);
    assert spec[0].name in NamesTo(spec, 1);
    RoundTrip.RenderedDecides(spec, values, dc);
    RoundTrip.RenderedParses(spec, values, dc);
    assert UsageOf(Indexed(spec, dc.fold).value, values[0].key) == spec[0].usage;
  }

  /** The document is printed, and does not parse. */
  lemma BellDoesNotParse(dc: Dialect)
    ensures var values := [Provisioned("k", Str("v"))];
            && Rendered(BELL, values, dc).Success?
            && ResolvedBytes(BELL, Rendered(BELL, values, dc).value, dc) == Failure(DoesNotParse)
  {
    BellIsRegistered(dc.fold);
    assert BELL[0].usage[0] == '\U{07}';
    OneDirtyKey(BELL, [Provisioned("k", Str("v"))], dc);
  }
}
