/** The host a provisioning run acts on, and the service manager's operations
    over it (winsvc.Manager in internal/core/winsvc/service.go). */
module Host {
  import opened Wrappers
  import opened Text
  import TokenStore

  datatype Directory = Missing | NotADirectory | Redirected | Present(locked: bool)

  datatype StoreFile = Unreadable | Holding(tokens: seq<TokenStore.Entry>)

  /** What a running service read when it started; nothing re-reads it. */
  datatype Process = Process(binary: string, config: string, tokens: seq<TokenStore.Entry>)

  /** Any state other than running: stopped, starting, stopping. */
  datatype State = NotRunning | Running(process: Process)

  /** A registration, its command line as the manager could decompose it. */
  datatype Service = Service(command: Option<seq<string>>, state: State)

  /** Files are keyed by folded path: Windows paths ignore case. */
  datatype Host = Host(
    dir: Directory,
    configs: map<string, string>,
    stores: map<string, StoreFile>,
    binaries: map<string, string>,
    service: Option<Service>)

  predicate IsRunning(h: Host) {
    h.service.Some? && h.service.value.state.Running?
  }

  /** sameCommand: element by element, ignoring case. */
  predicate SameCommand(got: seq<string>, want: seq<string>) {
    |got| == |want| && forall i :: 0 <= i < |got| ==> Lower(got[i]) == Lower(want[i])
  }

  /** Manager.Stop: a stopped service is not an error, and an absent one is an
      error every caller here tolerates. */
  function Stopped(h: Host): Host {
    match h.service
    case None => h
    case Some(s) => h.(service := Some(s.(state := NotRunning)))
  }

  function Tokens(h: Host, path: string): seq<TokenStore.Entry> {
    if Lower(path) in h.stores && h.stores[Lower(path)].Holding? then h.stores[Lower(path)].tokens else []
  }
}
