/** The seven provisioning steps (internal/core/setup: plan.go, provision.go,
    deploy.go, install.go, verify.go), each as the verdict its Check reaches and
    the host its Apply leaves. Every foreign call may fail, and may do so part
    way: `faults` names the ones that do in a given run. */
module Setup {
  import opened Wrappers
  import opened Text
  import opened ConfigKey
  import opened Render
  import opened Resolve
  import opened Host
  import TokenStore

  type Values = map<string, Value>

  const KEY_TOKENS_FILE := "authTokensFile"
  const KEY_DISABLE_AUTH := "disableAuth"
  const CONFIG_FLAG := "--config"

  /** The last second of the year 9999, past which no expiry can be stored. */
  const LAST_EXPIRY: int := 253402300799

  /** What the binary hands the run. `absDest` is the absolute form of the copy
      destination; Layout.check does not demand that BinDir be absolute. */
  datatype Options = Options(
    spec: Spec,
    dialect: Dialect,
    validate: Values -> bool,
    equivalent: (string, Value, Value) -> bool,
    sum: string -> string,
    hash: string -> string,
    provisioned: seq<Provisioned>,
    layoutConfig: string,
    configPath: string,
    source: string,
    dest: string,
    absDest: string,
    binDirSafe: bool,
    tokenLabel: string,
    tokenDays: int,
    protectedPath: bool,
    windows: bool,
    dryRun: bool,
    noCopy: bool,
    reinstall: bool,
    restart: bool)

  /** The foreign calls of one run, in the order the steps make them. */
  datatype Op =
    | StatDir | StatConfig | ReadConfig | ReadStore | ReadDest | ReadSource
    | ScmAtBinary | ScmAtInstall | ScmAtStart
    | MakeDir | LockDir | CreateConfig | WriteConfig | RereadConfig
    | RereadStore | RandomToken | SaveStore | FlushStore | LockStore
    | MakeBinDir | StopOld | CopyBinary | SumCopy
    | ScmAtRemove | RemoveStop | RemoveDelete | InstallRead | ScmInstall | SecureFiles
    | ScmAtApply | StopForStart | StartService
    | Cancelled | HealthDown | AuthUnreachable

  /** One run's circumstances: the clock, the random token, the calls that fail,
      and what a write that failed part way leaves in its file. */
  datatype Run = Run(now: int, minted: string, faults: set<Op>, torn: string)

  datatype Flag = Restart | Reinstall

  datatype Found = Satisfied | Pending | Blocked(clearedBy: Flag) | CheckFailed

  datatype Health = Health(checked: bool, reachable: bool, authProved: bool, authSkipped: bool)

  /** The projection and the handover the steps share. */
  datatype Plan = Plan(
    configExists: bool,
    values: Option<Values>,
    binPath: string,
    definition: seq<string>,
    token: Option<string>,
    restartWanted: bool,
    health: Health)

  function NewPlan(o: Options): Plan {
    Plan(false, None, o.source, [], None, false, Health(false, false, false, false))
  }

  datatype Step = DirectoryStep | ConfigStep | TokenStep | BinaryStep | InstallStep | StartStep | VerifyStep

  /** plan.steps: the only order that is correct. */
  const STEPS: seq<Step> := [DirectoryStep, ConfigStep, TokenStep, BinaryStep, InstallStep, StartStep, VerifyStep]

  datatype Checked = Checked(found: Found, plan: Plan)

  datatype Applied = Applied(ok: bool, host: Host, plan: Plan)

  // ---- shared --------------------------------------------------------------

  predicate AuthDisabled(v: Values) {
    KEY_DISABLE_AUTH in v && v[KEY_DISABLE_AUTH] == Bool(true)
  }

  function StorePath(v: Values): string {
    if KEY_TOKENS_FILE in v && v[KEY_TOKENS_FILE].Str? then v[KEY_TOKENS_FILE].s else ""
  }

  function ConfigAt(h: Host, path: string): Option<string> {
    if Lower(path) in h.configs then Some(h.configs[Lower(path)]) else None
  }

  function BinaryAt(h: Host, path: string): Option<string> {
    if Lower(path) in h.binaries then Some(h.binaries[Lower(path)]) else None
  }

  /** auth.LoadOrEmpty: a missing store is empty, a malformed one an error. */
  function LoadOrEmpty(h: Host, path: string): Option<seq<TokenStore.Entry>> {
    if Lower(path) !in h.stores then Some([])
    else
      match h.stores[Lower(path)]
      case Unreadable => None
      case Holding(tokens) => Some(tokens)
  }

  /** filepath.Abs of the path the binary step chose. */
  function AbsBin(o: Options, bin: string): string {
    if bin == o.dest then o.absDest else bin
  }

  /** The configuration a service would resolve from the file, if it would start. */
  function Startable(o: Options, text: string): Option<Values> {
    match ResolvedBytes(o.spec, text, o.dialect)
    case Failure(_) => None
    case Success(v) => if o.validate(v) then Some(v) else None
  }

  // ---- directory -----------------------------------------------------------

  /** directoryStep.owns: this run provisions into its own layout. */
  predicate Owns(o: Options) {
    o.configPath == o.layoutConfig
  }

  function CheckDirectory(o: Options, r: Run, h: Host, p: Plan): Checked {
    if !Owns(o) then Checked(Satisfied, p)
    else if StatDir in r.faults then Checked(CheckFailed, p)
    else
      match h.dir
      case Missing => Checked(Pending, p)
      case NotADirectory => Checked(CheckFailed, p)
      case Redirected => Checked(CheckFailed, p)
      case Present(locked) => Checked(if locked then Satisfied else Pending, p)
  }

  function ApplyDirectory(o: Options, r: Run, h: Host, p: Plan): Applied {
    if !Owns(o) then Applied(true, h, p)
    else if MakeDir in r.faults || h.dir.NotADirectory? then Applied(false, h, p)
    else
      var made := if h.dir.Missing? then h.(dir := Present(false)) else h;
      if LockDir in r.faults then Applied(false, made, p)
      else Applied(true, made.(dir := if made.dir.Present? then Present(true) else made.dir), p)
  }

  // ---- config --------------------------------------------------------------

  /** refuseDisagreements: a provisioned value the existing file does not hold. */
  predicate Disagrees(o: Options, v: Values) {
    exists i :: 0 <= i < |o.provisioned| && Disagreement(o, v, o.provisioned[i])
  }

  predicate Disagreement(o: Options, v: Values, given: Provisioned) {
    given.key !in v || !o.equivalent(given.key, given.value, v[given.key])
  }

  function CheckConfig(o: Options, r: Run, h: Host, p: Plan): Checked {
    if StatConfig in r.faults then Checked(CheckFailed, p)
    else
      match ConfigAt(h, o.configPath)
      case Some(text) =>
        if ReadConfig in r.faults then Checked(CheckFailed, p)
        else
          (match Startable(o, text)
           case None => Checked(CheckFailed, p)
           case Some(v) =>
             if Disagrees(o, v) then Checked(CheckFailed, p)
             else Checked(Satisfied, p.(values := Some(v), configExists := true)))
      case None =>
        match Rendered(o.spec, o.provisioned, o.dialect)
        case Failure(_) => Checked(CheckFailed, p)
        case Success(text) =>
          match Startable(o, text)
          case None => Checked(CheckFailed, p)
          case Some(v) => Checked(Pending, p.(values := Some(v), configExists := false))
  }

  function ApplyConfig(o: Options, r: Run, h: Host, p: Plan): Applied {
    Write(o, r, h, p, Rendered(o.spec, o.provisioned, o.dialect))
  }

  /** Create the file, write it, and resolve it again as the service will. */
  function Write(o: Options, r: Run, h: Host, p: Plan, data: Result<string, ConfigError>): Applied {
    match data
    case Failure(_) => Applied(false, h, p)
    case Success(text) =>
      var path := Lower(o.configPath);
      if path in h.configs || CreateConfig in r.faults then Applied(false, h, p)
      else if WriteConfig in r.faults then Applied(false, h.(configs := h.configs[path := r.torn]), p)
      else
        var written := h.(configs := h.configs[path := text]);
        if RereadConfig in r.faults then Applied(false, written, p)
        else
          match ResolvedBytes(o.spec, text, o.dialect)
          case Failure(_) => Applied(false, written, p)
          case Success(v) => Applied(true, written, p.(values := Some(v)))
  }

  // ---- token ---------------------------------------------------------------

  function CheckToken(o: Options, r: Run, h: Host, p: Plan): Checked {
    if p.values.None? then Checked(CheckFailed, p)
    else if AuthDisabled(p.values.value) then Checked(Satisfied, p)
    else if ReadStore in r.faults then Checked(CheckFailed, p)
    else
      match LoadOrEmpty(h, StorePath(p.values.value))
      case None => Checked(CheckFailed, p)
      case Some(tokens) =>
        if TokenStore.Usable(tokens, r.now) then Checked(Satisfied, p)
        else if TokenStore.HasLabel(tokens, o.tokenLabel) then Checked(CheckFailed, p)
        else Checked(Pending, p.(restartWanted := true))
  }

  /** ExpiryInDays, for a positive number of days; otherwise no expiry. */
  function ExpiryOf(o: Options, now: int): Option<Option<int>> {
    if o.tokenDays <= 0 then Some(None)
    else if now + o.tokenDays * 86400 > LAST_EXPIRY then None
    else Some(Some(now + o.tokenDays * 86400))
  }

  function MintedEntry(o: Options, r: Run, expiry: Option<int>): TokenStore.Entry {
    TokenStore.Entry(o.tokenLabel, o.hash(r.minted), r.now, expiry)
  }

  /** The directory flush after the store's rename: Windows has none to fail. */
  predicate FlushFails(o: Options, r: Run) {
    !o.windows && FlushStore in r.faults
  }

  /** Save fails before its rename, leaving the store alone, or at the flush
      after it: then the store has changed and the plan never holds the token. */
  function ApplyToken(o: Options, r: Run, h: Host, p: Plan): Applied {
    if p.values.None? || RereadStore in r.faults then Applied(false, h, p)
    else
      var path := StorePath(p.values.value);
      match LoadOrEmpty(h, path)
      case None => Applied(false, h, p)
      case Some(tokens) =>
        match ExpiryOf(o, r.now)
        case None => Applied(false, h, p)
        case Some(expiry) =>
          if RandomToken in r.faults || !TokenStore.LabelOk(o.tokenLabel) || TokenStore.HasLabel(tokens, o.tokenLabel)
             || SaveStore in r.faults then Applied(false, h, p)
          else
            var saved := h.(stores := h.stores[Lower(path) := Holding(tokens + [MintedEntry(o, r, expiry)])]);
            if FlushFails(o, r) then Applied(false, saved, p)
            else Applied(LockStore !in r.faults, saved, p.(token := Some(r.minted)))
  }

  // ---- binary --------------------------------------------------------------

  predicate SameFile(o: Options, h: Host) {
    Lower(o.source) == Lower(o.absDest) && BinaryAt(h, o.source).Some?
  }

  function CheckBinary(o: Options, r: Run, h: Host, p: Plan): Checked {
    if o.noCopy then Checked(Satisfied, p.(binPath := o.source))
    else
      var q := p.(binPath := o.dest);
      if SameFile(o, h) then Checked(Satisfied, q)
      else if ReadDest in r.faults then Checked(CheckFailed, q)
      else if BinaryAt(h, o.absDest).None? then Checked(Pending, q)
      else if ReadSource in r.faults || BinaryAt(h, o.source).None? then Checked(CheckFailed, q)
      else if o.sum(BinaryAt(h, o.source).value) == o.sum(BinaryAt(h, o.absDest).value) then Checked(Satisfied, q)
      else if ScmAtBinary in r.faults then Checked(CheckFailed, q)
      else if !IsRunning(h) then Checked(Pending, q)
      else if o.restart then Checked(Pending, q.(restartWanted := true))
      else Checked(Blocked(Restart), q)
  }

  function ApplyBinary(o: Options, r: Run, h: Host, p: Plan): Applied {
    if o.noCopy || SameFile(o, h) then Applied(true, h, p)
    else if MakeBinDir in r.faults then Applied(false, h, p)
    else
      var exists_ := BinaryAt(h, o.absDest).Some?;
      if exists_ && StopOld in r.faults then Applied(false, h, p)
      else
        var stopped := if exists_ then Stopped(h) else h;
        if CopyBinary in r.faults || BinaryAt(h, o.source).None? then Applied(false, stopped, p)
        else if SumCopy in r.faults then
          Applied(false, stopped.(binaries := stopped.binaries[Lower(o.absDest) := r.torn]), p)
        else
          Applied(true, stopped.(binaries := stopped.binaries[Lower(o.absDest) := BinaryAt(h, o.source).value]), p)
  }

  // ---- install -------------------------------------------------------------

  function CheckInstall(o: Options, r: Run, h: Host, p: Plan): Checked {
    var want := [p.binPath, CONFIG_FLAG, o.configPath];
    var q := p.(definition := want);
    if ScmAtInstall in r.faults then Checked(CheckFailed, q)
    else if h.service.None? then Checked(Pending, q)
    else if h.service.value.command.None? then Checked(Blocked(Reinstall), q)
    else if SameCommand(h.service.value.command.value, want) then Checked(Satisfied, q)
    else if o.reinstall then Checked(Pending, q)
    else Checked(Blocked(Reinstall), q)
  }

  /** removeExisting: Uninstall stops the service, then deletes it. */
  function Removed(r: Run, h: Host): (bool, Host) {
    if ScmAtRemove in r.faults then (false, h)
    else if h.service.None? then (true, h)
    else if RemoveStop in r.faults then (false, h)
    else if RemoveDelete in r.faults then (false, Stopped(h))
    else (true, h.(service := None))
  }

  /** Install: validate, check the directory, register, secure. Securing comes
      last because it is the only step whose failure leaves something behind. */
  function Installed(o: Options, r: Run, h: Host, p: Plan): Applied {
    if InstallRead in r.faults || ConfigAt(h, o.configPath).None? then Applied(false, h, p)
    else if Startable(o, ConfigAt(h, o.configPath).value).None? || !o.binDirSafe then Applied(false, h, p)
    else if h.service.Some? || ScmInstall in r.faults then Applied(false, h, p)
    else
      var command := [AbsBin(o, p.binPath), CONFIG_FLAG, o.configPath];
      var registered := h.(service := Some(Service(Some(command), NotRunning)));
      if SecureFiles in r.faults then Applied(false, registered, p)
      else Applied(true, registered, p.(binPath := AbsBin(o, p.binPath), definition := command))
  }

  function ApplyInstall(o: Options, r: Run, h: Host, p: Plan): Applied {
    if o.reinstall then
      var (ok, removed) := Removed(r, h);
      if ok then Installed(o, r, removed, p) else Applied(false, removed, p)
    else Installed(o, r, h, p)
  }

  // ---- start ---------------------------------------------------------------

  function CheckStart(o: Options, r: Run, h: Host, p: Plan): Checked {
    if ScmAtStart in r.faults then Checked(CheckFailed, p)
    else if !IsRunning(h) then Checked(Pending, p)
    else if p.restartWanted then Checked(if o.restart then Pending else Blocked(Restart), p)
    else Checked(Satisfied, p)
  }

  /** What a process started from this registration reads: its image, its
      configuration, and the token store that configuration names. It refuses to
      start over a store that is missing, malformed or without a usable token. */
  function Launched(o: Options, h: Host, now: int): Option<Process> {
    if h.service.None? || h.service.value.command.None? then None
    else
      var command := h.service.value.command.value;
      if |command| != 3 || BinaryAt(h, command[0]).None? || ConfigAt(h, command[2]).None? then None
      else
        match Startable(o, ConfigAt(h, command[2]).value)
        case None => None
        case Some(v) =>
          if AuthDisabled(v) then
            Some(Process(BinaryAt(h, command[0]).value, ConfigAt(h, command[2]).value, []))
          else
            match LoadOrEmpty(h, StorePath(v))
            case None => None
            case Some(tokens) =>
              if !TokenStore.Usable(tokens, now) then None
              else Some(Process(BinaryAt(h, command[0]).value, ConfigAt(h, command[2]).value, tokens))
  }

  function ApplyStart(o: Options, r: Run, h: Host, p: Plan): Applied {
    if ScmAtApply in r.faults then Applied(false, h, p)
    else if p.restartWanted && h.service.Some? && StopForStart in r.faults then Applied(false, h, p)
    else
      var stopped := if p.restartWanted then Stopped(h) else h;
      if stopped.service.None? then Applied(false, stopped, p)
      else if IsRunning(stopped) then Applied(true, stopped, p)
      else if StartService in r.faults || Launched(o, stopped, r.now).None? then Applied(false, stopped, p)
      else
        Applied(true, stopped.(service := Some(stopped.service.value.(state := Running(Launched(o, stopped, r.now).value)))), p)
  }

  // ---- verify --------------------------------------------------------------

  function CheckVerify(p: Plan): Checked {
    Checked(Pending, p)
  }

  predicate Accepts(o: Options, process: Process, token: string) {
    exists i :: 0 <= i < |process.tokens| && process.tokens[i].hash == o.hash(token)
  }

  /** The health endpoint answers only while the service runs; the protected
      route answers 401 exactly to a token the process did not read. */
  function ApplyVerify(o: Options, r: Run, h: Host, p: Plan): Applied {
    if p.values.None? || Cancelled in r.faults then Applied(false, h, p)
    else if !IsRunning(h) || HealthDown in r.faults then
      Applied(false, h, p.(health := Health(true, false, false, false)))
    else if AuthDisabled(p.values.value) || !o.protectedPath || p.token.None? || AuthUnreachable in r.faults then
      Applied(true, h, p.(health := Health(true, true, false, true)))
    else
      var proved := Accepts(o, h.service.value.state.process, p.token.value);
      Applied(proved, h, p.(health := Health(true, true, proved, false)))
  }

  // ---- dispatch ------------------------------------------------------------

  function Check(s: Step, o: Options, r: Run, h: Host, p: Plan): Checked {
    match s
    case DirectoryStep => CheckDirectory(o, r, h, p)
    case ConfigStep => CheckConfig(o, r, h, p)
    case TokenStep => CheckToken(o, r, h, p)
    case BinaryStep => CheckBinary(o, r, h, p)
    case InstallStep => CheckInstall(o, r, h, p)
    case StartStep => CheckStart(o, r, h, p)
    case VerifyStep => CheckVerify(p)
  }

  function Apply(s: Step, o: Options, r: Run, h: Host, p: Plan): Applied {
    match s
    case DirectoryStep => ApplyDirectory(o, r, h, p)
    case ConfigStep => ApplyConfig(o, r, h, p)
    case TokenStep => ApplyToken(o, r, h, p)
    case BinaryStep => ApplyBinary(o, r, h, p)
    case InstallStep => ApplyInstall(o, r, h, p)
    case StartStep => ApplyStart(o, r, h, p)
    case VerifyStep => ApplyVerify(o, r, h, p)
  }
}
