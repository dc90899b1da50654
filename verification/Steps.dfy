/** What each step's verdict says about the host, and what each step's turn does
    to it. */
module Steps {
  import opened Wrappers
  import opened Text
  import opened ConfigKey
  import opened Render
  import opened Resolve
  import opened Host
  import opened Setup
  import TokenStore

  datatype StepResult = StepResult(step: Step, found: Found, applied: bool, failed: bool)

  /** The host and plan some way through the apply loop. */
  datatype Progress = Progress(entries: seq<StepResult>, host: Host, plan: Plan, failed: bool)

  /** The step's turn: its Apply when it was pending and nothing failed before. */
  ghost predicate Turn(f: Found, a: Applied, g: Progress, g': Progress) {
    if g.failed || !f.Pending? then g' == g else g'.host == a.host && g'.plan == a.plan && g'.failed == !a.ok
  }

  // ---- what each verdict says about the host --------------------------------

  ghost predicate Decided(f: Found) {
    f.Satisfied? || f.Pending?
  }

  ghost predicate DirectoryVerdict(o: Options, h: Host, f: Found) {
    && Decided(f)
    && (f.Satisfied? ==> !Owns(o) || h.dir == Present(true))
    && (f.Pending? ==> Owns(o) && (h.dir.Missing? || h.dir == Present(false)))
  }

  ghost predicate ConfigVerdict(o: Options, h: Host, f: Found, p: Plan) {
    && Decided(f) && p.values.Some?
    && (f.Satisfied? ==> && ConfigAt(h, o.configPath).Some? && Startable(o, ConfigAt(h, o.configPath).value) == p.values
                         && !Disagrees(o, p.values.value) && p.configExists)
    && (f.Pending? ==> && ConfigAt(h, o.configPath).None? && Rendered(o.spec, o.provisioned, o.dialect).Success?
                       && Startable(o, Rendered(o.spec, o.provisioned, o.dialect).value) == p.values && !p.configExists)
  }

  ghost predicate TokenVerdict(o: Options, r: Run, h: Host, f: Found, v: Values) {
    && Decided(f)
    && (f.Satisfied? ==> AuthDisabled(v)
                         || (LoadOrEmpty(h, StorePath(v)).Some? && TokenStore.Usable(LoadOrEmpty(h, StorePath(v)).value, r.now)))
    && (f.Pending? ==> !AuthDisabled(v) && LoadOrEmpty(h, StorePath(v)).Some?
                       && !TokenStore.Usable(LoadOrEmpty(h, StorePath(v)).value, r.now)
                       && !TokenStore.HasLabel(LoadOrEmpty(h, StorePath(v)).value, o.tokenLabel))
  }

  ghost predicate CopyInPlace(o: Options, h: Host) {
    && BinaryAt(h, o.source).Some? && BinaryAt(h, o.absDest).Some?
    && o.sum(BinaryAt(h, o.source).value) == o.sum(BinaryAt(h, o.absDest).value)
  }

  ghost predicate BinaryVerdict(o: Options, h: Host, f: Found) {
    && Decided(f)
    && (f.Satisfied? ==> o.noCopy || SameFile(o, h) || CopyInPlace(o, h))
    && (f.Pending? ==> && !o.noCopy && !SameFile(o, h)
                       && (BinaryAt(h, o.absDest).None? || !IsRunning(h) || o.restart))
  }

  function ChosenBin(o: Options): string {
    if o.noCopy then o.source else o.dest
  }

  function Wanted(o: Options): seq<string> {
    [ChosenBin(o), CONFIG_FLAG, o.configPath]
  }

  ghost predicate InstallVerdict(o: Options, h: Host, f: Found) {
    && Decided(f)
    && (f.Satisfied? ==> h.service.Some? && h.service.value.command.Some? && SameCommand(h.service.value.command.value, Wanted(o)))
    && (f.Pending? ==> h.service.None? || o.reinstall)
    && (h.service.Some? ==> h.service.value.command.Some?)
    && (f.Pending? && h.service.Some? ==> !SameCommand(h.service.value.command.value, Wanted(o)))
  }

  ghost predicate StartVerdict(o: Options, h: Host, f: Found, p: Plan) {
    && Decided(f)
    && (f.Satisfied? ==> IsRunning(h) && !p.restartWanted)
    && (f.Pending? ==> !IsRunning(h) || (p.restartWanted && o.restart))
  }

  // ---- and when it refuses ---------------------------------------------------

  ghost predicate ConfigJudged(o: Options, h: Host, f: Found, p: Plan) {
    !f.Blocked? && (Decided(f) ==> ConfigVerdict(o, h, f, p))
  }

  ghost predicate TokenJudged(o: Options, r: Run, h: Host, f: Found, v: Values) {
    !f.Blocked? && (Decided(f) ==> TokenVerdict(o, r, h, f, v))
  }

  /** The copy in place differs, and the running service holds it open. */
  ghost predicate HeldOpen(o: Options, h: Host) {
    && !o.noCopy && !SameFile(o, h) && BinaryAt(h, o.source).Some? && BinaryAt(h, o.absDest).Some?
    && !CopyInPlace(o, h) && IsRunning(h)
  }

  ghost predicate BinaryJudged(o: Options, h: Host, f: Found) {
    && (Decided(f) ==> BinaryVerdict(o, h, f))
    && (f.Blocked? ==> f.clearedBy == Restart && !o.restart && HeldOpen(o, h))
    && (HeldOpen(o, h) && !o.restart ==> !Decided(f))
  }

  /** The registration runs something else, as far as can be told. */
  ghost predicate Differs(o: Options, h: Host) {
    h.service.Some? && (h.service.value.command.None? || !SameCommand(h.service.value.command.value, Wanted(o)))
  }

  ghost predicate InstallJudged(o: Options, h: Host, f: Found) {
    && (Decided(f) ==> InstallVerdict(o, h, f))
    && (f.Blocked? ==> f.clearedBy == Reinstall && Differs(o, h) && (o.reinstall ==> h.service.value.command.None?))
    && (Differs(o, h) && (o.reinstall ==> h.service.value.command.None?) ==> !Decided(f))
  }

  ghost predicate StartJudged(o: Options, h: Host, f: Found, p: Plan) {
    && (Decided(f) ==> StartVerdict(o, h, f, p))
    && (f.Blocked? ==> f.clearedBy == Restart && !o.restart && p.restartWanted && IsRunning(h))
    && (p.restartWanted && IsRunning(h) && !o.restart ==> !Decided(f))
  }

  lemma DirectoryChecked(o: Options, r: Run, h: Host, p: Plan)
    ensures var c := CheckDirectory(o, r, h, p);
            && !c.found.Blocked? && c.plan == p
            && (Decided(c.found) ==> DirectoryVerdict(o, h, c.found))
  {
  }

  lemma ConfigChecked(o: Options, r: Run, h: Host, p: Plan)
    ensures var c := CheckConfig(o, r, h, p);
            && ConfigJudged(o, h, c.found, c.plan)
            && c.plan == p.(values := c.plan.values, configExists := c.plan.configExists)
  {
  }

  lemma TokenChecked(o: Options, r: Run, h: Host, p: Plan)
    requires p.values.Some?
    ensures var c := CheckToken(o, r, h, p);
            && TokenJudged(o, r, h, c.found, p.values.value)
            && c.plan == p.(restartWanted := p.restartWanted || c.found.Pending?)
  {
  }

  /** A copy the service holds open is replaced only under --restart, and then
      the service is restarted. */
  lemma BinaryChecked(o: Options, r: Run, h: Host, p: Plan)
    ensures var c := CheckBinary(o, r, h, p);
            && BinaryJudged(o, h, c.found)
            && c.plan == p.(binPath := ChosenBin(o),
                            restartWanted := p.restartWanted || (c.found.Pending? && IsRunning(h) && BinaryAt(h, o.absDest).Some?))
  {
  }

  lemma InstallChecked(o: Options, r: Run, h: Host, p: Plan)
    requires p.binPath == ChosenBin(o)
    ensures var c := CheckInstall(o, r, h, p);
            && InstallJudged(o, h, c.found)
            && c.plan == p.(definition := Wanted(o))
  {
  }

  lemma StartChecked(o: Options, r: Run, h: Host, p: Plan)
    ensures StartJudged(o, h, CheckStart(o, r, h, p).found, p) && CheckStart(o, r, h, p).plan == p
  {
  }

  // ---- what each turn does to the host --------------------------------------

  /** A turn taken by itself: the progress before it, and after. */
  function Begun(h: Host, p: Plan): Progress {
    Progress([], h, p, false)
  }

  function Reached(a: Applied): Progress {
    Progress([], a.host, a.plan, !a.ok)
  }

  ghost predicate Acts(f: Found, g: Progress) {
    f.Pending? && !g.failed
  }

  ghost predicate DirectoryTurn(o: Options, f: Found, g: Progress, g': Progress) {
    && (!Acts(f, g) ==> g' == g)
    && g'.plan == g.plan && g'.host == g.host.(dir := g'.host.dir)
    && (g'.host.dir == g.host.dir || (g.host.dir.Missing? && g'.host.dir.Present?) || (g.host.dir.Present? && g'.host.dir == Present(true)))
    && (Acts(f, g) && !g'.failed && Owns(o) && !g.host.dir.Redirected? ==> g'.host.dir == Present(true))
  }

  /** What a failed write leaves: nothing, the torn text, or the whole of it. */
  ghost predicate Partly(o: Options, r: Run, h: Host, data: Result<string, ConfigError>, h': Host) {
    || h' == h
    || (WriteConfig in r.faults && h'.configs == h.configs[Lower(o.configPath) := r.torn])
    || (data.Success? && h'.configs == h.configs[Lower(o.configPath) := data.value])
  }

  ghost predicate ConfigTurn(o: Options, r: Run, f: Found, g: Progress, g': Progress) {
    && (!Acts(f, g) ==> g' == g)
    && g'.plan == g.plan.(values := g'.plan.values) && g'.host == g.host.(configs := g'.host.configs)
    && (Acts(f, g) && !g'.failed ==>
          && Rendered(o.spec, o.provisioned, o.dialect).Success?
          && var text := Rendered(o.spec, o.provisioned, o.dialect).value;
             && ResolvedBytes(o.spec, text, o.dialect).Success?
             && g'.plan.values == Some(ResolvedBytes(o.spec, text, o.dialect).value)
             && g'.host.configs == g.host.configs[Lower(o.configPath) := text])
    && (Acts(f, g) && g'.failed ==> g'.plan == g.plan && Partly(o, r, g.host, Rendered(o.spec, o.provisioned, o.dialect), g'.host))
    && (ConfigAt(g.host, o.configPath).Some? ==> g'.host == g.host)
  }

  /** The store gained exactly this run's token. */
  ghost predicate SavedToken(o: Options, r: Run, path: string, g: Progress, g': Progress) {
    exists tokens, expiry ::
      && LoadOrEmpty(g.host, path) == Some(tokens) && ExpiryOf(o, r.now) == Some(expiry)
      && !TokenStore.HasLabel(tokens, o.tokenLabel)
      && g'.host.stores == g.host.stores[Lower(path) := Holding(tokens + [MintedEntry(o, r, expiry)])]
  }

  ghost predicate TokenTurn(o: Options, r: Run, f: Found, g: Progress, g': Progress) {
    && (!Acts(f, g) ==> g' == g)
    && g'.plan == g.plan.(token := g'.plan.token) && g'.host == g.host.(stores := g'.host.stores)
    && (Acts(f, g) ==> || (g'.failed && g'.host == g.host && g'.plan == g.plan)
                       || (g.plan.values.Some? && SavedToken(o, r, StorePath(g.plan.values.value), g, g')
                           && g'.plan.token == (if FlushFails(o, r) then g.plan.token else Some(r.minted))
                           && (g'.failed <==> FlushFails(o, r) || LockStore in r.faults)))
  }

  ghost predicate BinaryTurn(o: Options, f: Found, g: Progress, g': Progress) {
    && (!Acts(f, g) ==> g' == g)
    && g'.plan == g.plan && g'.host == g.host.(binaries := g'.host.binaries, service := g'.host.service)
    && g.host.binaries.Keys <= g'.host.binaries.Keys
    && (g'.host.service == g.host.service || (BinaryAt(g.host, o.absDest).Some? && g'.host.service == Stopped(g.host).service))
    && (Acts(f, g) && !g'.failed && !o.noCopy && !SameFile(o, g.host) ==>
          && BinaryAt(g.host, o.source).Some?
          && g'.host.binaries == g.host.binaries[Lower(o.absDest) := BinaryAt(g.host, o.source).value]
          && (BinaryAt(g.host, o.absDest).Some? ==> g'.host.service == Stopped(g.host).service))
  }

  function Registration(o: Options, p: Plan): Option<Service> {
    Some(Service(Some([AbsBin(o, p.binPath), CONFIG_FLAG, o.configPath]), NotRunning))
  }

  /** What must hold before anything is registered. */
  ghost predicate Vetted(o: Options, h: Host) {
    ConfigAt(h, o.configPath).Some? && Startable(o, ConfigAt(h, o.configPath).value).Some? && o.binDirSafe
  }

  /** The old registration is stopped or gone, or the new one is in place, vetted:
      of the failures only one to secure it leaves it behind. */
  ghost predicate InstallLeaves(o: Options, r: Run, g: Progress, g': Progress) {
    || (g'.failed && o.reinstall && (g'.host.service.None? || g'.host.service == Stopped(g.host).service))
    || (g'.host.service == Registration(o, g.plan) && Vetted(o, g.host) && (g'.failed <==> SecureFiles in r.faults))
  }

  ghost predicate InstallTurn(o: Options, r: Run, f: Found, g: Progress, g': Progress) {
    && (!Acts(f, g) ==> g' == g)
    && g'.plan == g.plan.(binPath := g'.plan.binPath, definition := g'.plan.definition)
    && g'.host == g.host.(service := g'.host.service)
    && (Acts(f, g) && !g'.failed ==>
          g'.host.service == Registration(o, g.plan) && Vetted(o, g.host))
    && (Acts(f, g) && !o.reinstall && g.host.service.Some? ==> g'.failed && g'.host == g.host)
    && (g'.host.service != g.host.service ==> !IsRunning(g'.host) && InstallLeaves(o, r, g, g'))
  }

  /** The host a start begins from: stopped first when a restart is wanted. */
  ghost function StartBase(g: Progress): Host {
    if g.plan.restartWanted then Stopped(g.host) else g.host
  }

  ghost predicate StartTurn(o: Options, r: Run, f: Found, g: Progress, g': Progress) {
    && (!Acts(f, g) ==> g' == g)
    && g'.plan == g.plan && g'.host == g.host.(service := g'.host.service)
    && (Acts(f, g) && !g'.failed ==>
          if IsRunning(StartBase(g)) then g'.host == StartBase(g)
          else
            && StartBase(g).service.Some? && Launched(o, StartBase(g), r.now).Some?
            && g'.host.service == Some(Service(g.host.service.value.command, Running(Launched(o, StartBase(g), r.now).value))))
    && (g'.failed ==> g'.host.service == g.host.service || g'.host.service == Stopped(g.host).service)
  }

  ghost predicate VerifyTurn(o: Options, r: Run, g: Progress, g': Progress) {
    && (g.failed ==> g' == g)
    && g'.host == g.host && g'.plan == g.plan.(health := g'.plan.health)
    && (!g.failed && !g'.failed ==> IsRunning(g.host) && g'.plan.health.reachable)
    && ((&& !g.failed && g.plan.values.Some? && IsRunning(g.host) && Cancelled !in r.faults && HealthDown !in r.faults
         && (g.plan.token.Some? ==> Accepts(o, g.host.service.value.state.process, g.plan.token.value)))
        ==> !g'.failed)
  }

  lemma DirectoryApplied(o: Options, r: Run, f: Found, g: Progress, g': Progress)
    requires Turn(f, ApplyDirectory(o, r, g.host, g.plan), g, g')
    ensures DirectoryTurn(o, f, g, g')
  {
  }

  lemma ConfigApplied(o: Options, r: Run, f: Found, g: Progress, g': Progress)
    requires Turn(f, ApplyConfig(o, r, g.host, g.plan), g, g')
    ensures ConfigTurn(o, r, f, g, g')
  {
    Writes(o, r, g.host, g.plan, Rendered(o.spec, o.provisioned, o.dialect));
  }

  lemma Writes(o: Options, r: Run, h: Host, p: Plan, data: Result<string, ConfigError>)
    ensures var a := Write(o, r, h, p, data);
            && a.plan == p.(values := a.plan.values) && a.host == h.(configs := a.host.configs)
            && (a.ok ==> && data.Success? && ResolvedBytes(o.spec, data.value, o.dialect).Success?
                         && a.plan.values == Some(ResolvedBytes(o.spec, data.value, o.dialect).value)
                         && a.host.configs == h.configs[Lower(o.configPath) := data.value])
            && (!a.ok ==> a.plan == p && Partly(o, r, h, data, a.host))
            && (ConfigAt(h, o.configPath).Some? ==> a.host == h)
  {
  }

  lemma TokenApplied(o: Options, r: Run, f: Found, g: Progress, g': Progress)
    requires Turn(f, ApplyToken(o, r, g.host, g.plan), g, g')
    ensures TokenTurn(o, r, f, g, g')
  {
  }

  lemma BinaryApplied(o: Options, r: Run, f: Found, g: Progress, g': Progress)
    requires Turn(f, ApplyBinary(o, r, g.host, g.plan), g, g')
    ensures BinaryTurn(o, f, g, g')
  {
  }

  lemma InstallApplied(o: Options, r: Run, f: Found, g: Progress, g': Progress)
    requires Turn(f, ApplyInstall(o, r, g.host, g.plan), g, g')
    ensures InstallTurn(o, r, f, g, g')
  {
  }

  lemma StartApplied(o: Options, r: Run, f: Found, g: Progress, g': Progress)
    requires Turn(f, ApplyStart(o, r, g.host, g.plan), g, g')
    ensures StartTurn(o, r, f, g, g')
  {
  }

  lemma VerifyApplied(o: Options, r: Run, g: Progress, g': Progress)
    requires Turn(Pending, ApplyVerify(o, r, g.host, g.plan), g, g')
    ensures VerifyTurn(o, r, g, g')
  {
  }

  /** The running service does not accept the token this run minted. */
  ghost predicate Unauthorized(o: Options, h: Host, p: Plan) {
    && IsRunning(h) && p.values.Some? && !AuthDisabled(p.values.value) && o.protectedPath
    && p.token.Some? && !Accepts(o, h.service.value.state.process, p.token.value)
  }

  /** Verification fails exactly when the run was cancelled or nothing was
      resolved, the service does not answer, or the protected route could be
      asked and refused the minted token. */
  lemma VerifyFailsIff(o: Options, r: Run, g: Progress, g': Progress)
    requires Turn(Pending, ApplyVerify(o, r, g.host, g.plan), g, g') && !g.failed
    ensures g'.failed <==>
              || g.plan.values.None? || Cancelled in r.faults
              || !IsRunning(g.host) || HealthDown in r.faults
              || (AuthUnreachable !in r.faults && Unauthorized(o, g.host, g.plan))
    ensures VerifyTurn(o, r, g, g')
  {
    VerifyApplied(o, r, g, g');
  }
}
