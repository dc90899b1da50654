# A verified model of the Windows DHCP adapter

weave-adapters is a Go service that puts a REST API in front of a Windows DHCP
server and installs itself as a Windows service. This project models the parts
of it whose correctness is not visible in any one function, in Dafny, and
proves what they promise for every input, every run and every failing call.

| part | modules |
|---|---|
| provisioning: seven steps, checked together and then applied | `Host`, `Setup`, `Steps`, `Reconcile`, `Runs`, `Provisioning`, `Guarantees`, `Success`, `Reruns`, `Recovery`, `Counterexamples`, `TokenStore` |
| the configuration file: printing, reading and resolving it | `ConfigKey`, `Render`, `Toml`, `Resolve`, `RoundTrip` |
| crash-safe file replacement | `Disk`, `Replace` |
| keyset pagination and its opaque tokens | `Pagination`, `Base64`, `Token` |
| DHCP scopes: addressing, overlap, identity, drift | `Ipv4`, `ScopeRules`, `Overlap`, `Identity`, `Drift`, `Registry`, `ScopeWalk` |
| the service controller | `Controller`, `ControllerRuns`, `ControllerTime` |
| conditional reads and cached health | `Etag`, `Conditional`, `Health` |
| shared: results, strings, decimal numbers | `Wrappers`, `Text`, `Strconv` |

The source's loops and mutable objects are classes and methods here, each
proved equal to a specification function; the theorems are then lemmas about
those functions, or invariants the methods keep. Foreign calls are inputs: a
provisioning run is given the set of calls that fail, the controller the
sequence of events its selects receive (and in `ControllerTime` the moments at
which they become ready), a file replacement the step that breaks, a health
request the clock readings and probe answers. Hashes, the HMAC, the random
token, the duration printer, Unicode's case mappings, the remarks at the head of a generated file and
the configuration's own validation are parameters, and nothing is assumed of
them that a lemma does not say.

`dafny verify dfyconfig.toml` checks the whole project.

## Findings

Where the code and its documentation, or what one would take it to promise,
part company, the code is modelled as it is, the divergence is a lemma, and the
exact condition under which the promise holds is proved.

- A successful provisioning run is a fixed point exactly when the store still
  holds a usable token and the registered path is stable; a relative binary
  directory is not (`Guarantees.SuccessIsFixedPoint`,
  `Counterexamples.RelativeIsNoFixedPoint`).
- A run that minted a token and then failed leaves the token in the store,
  where it is no reason to restart anything. A re-run that succeeds, even one
  with `--restart`, makes the service accept the token exactly when the failed
  run had left no process running, a replaced binary calls for a restart, or
  the process left running had read the token already. Any failure between the
  save and the stop has this effect: the store's directory flush, its lock, the
  stop itself (`Reruns.RerunServesMintedIff`, `Reruns.UnstartedIsOld`,
  `Counterexamples.RerunLeavesServiceStale`).
- The Result carries the minted token on every exit but one: off Windows, a
  failed flush of the store's directory comes after the rename and before the
  token is handed over, so the store has changed and the token is lost
  (`Guarantees.TokenIsReportedOnEveryExit`, `Guarantees.TokenIsReportedOnWindows`).
- Reinstalling over a running service is no reason to start it: it is left
  registered and stopped and verification fails, unless a token was minted, a
  binary replaced, or the service was not running
  (`Guarantees.ReinstalledServiceIsStartedIff`, `Success.CleanRunSucceedsIff`,
  `Counterexamples.ReinstallLeavesServiceStopped`).
- Re-running is the recovery, with the source in place, the binary directory
  safe and their paths stable once made absolute, exactly when the host the
  earlier run left has a provisioning directory or room for one, a configuration
  that agrees (or none), a store that can be read, holds no expired token under
  the label without a usable one and takes the token to be minted, a command
  line that could be read, and no running service to be registered anew that
  nothing else calls to restart (`Recovery.RerunRecoversIff`). Of these a run
  that went ahead can itself have spoilt the configuration, by a write that
  broke off, and it leaves such a service only if it failed before reinstalling
  it (`Recovery.WhatARunSpoils`); and the run that fails for such a service
  leaves it stopped, so that the next one succeeds while the token is usable
  (`Recovery.StrandedOnce`, `Counterexamples.RerunStartsIt`).
- A refusal names the flags that clear it, except that a registration whose
  command line cannot be read stays refused with `--reinstall`
  (`Reruns.NamedFlagsClearIff`).
- `ConfigWritten` says that the file was absent at the checks, also on a dry
  run, a refused run and one that failed first
  (`Guarantees.ConfigWrittenMeansAbsent`).
- A usage text with a control character makes the rendered file unparsable, and
  nothing else does (`RoundTrip.RenderedParses`, `Counterexamples.BellDoesNotParse`).
- Two keys are documented to share a flag exactly when they share a variable.
  Their names derive one flag exactly when their words agree once cut at
  hyphens, and one variable exactly when their upper-cased words agree once cut
  at underscores (`ConfigKey.CollideIff`); so the claim holds on ASCII names
  with neither (`ConfigKey.CollideTogether`). `a-b` and `a.b` share only a flag,
  `a_b` and `a.b` only a variable, a dotless `ı` and `i` likewise, and all
  three pairs are accepted (`ConfigKey.FlagWithoutVariableCollision`,
  `ConfigKey.VariableWithoutFlagCollision`, `ConfigKey.CapitalCollision`). Every
  key of an accepted registration has a variable of its own, and a flag unless
  it asked for none, exactly when no two agree after either cut
  (`ConfigKey.AcceptedKeysAreSettableIff`).
- A page size is independent of the platform's int for every integer, but
  digits that overflow it are clamped before the junk after them is looked at
  (`Token.SizeDecides`, `Token.JunkDependsOnPlatform`).
- `Slice` asks for sorted, unique keys and also needs non-empty ones
  (`Pagination.EmptyKeyEndsListing`).
- After an informational first status the buffering writer answers 200, so it is
  invisible exactly when the handler's final status was 200 and it named no
  second informational one; and a response that overflows keeps a tag its
  handler had set (`Conditional.Serve`, `Conditional.InformationalIsInvisibleIff`,
  `Conditional.HintsHideError`).
- Health transitions chain exactly when no empty status is followed by another
  (`Health.EmittedIsChainIff`).

## Model

| member | source | states |
|---|---|---|
| Reconcile.Provisioner.RunOver | internal/core/setup/reconcile.go:238-275 | the loop that checks every step and then applies is the run function, for any list of steps, and touches the host only after every check has decided |
| Reconcile.Provisioner.ApplyPending | internal/core/setup/reconcile.go:279-295 | applying stops at the first failure, which is recorded against its own step, and leaves the host and plan of the steps before it |
| Reconcile.Provisioner.RefuseDisagreements | internal/core/setup/provision.go:193-217 | it reports nothing exactly when no provisioned value disagrees with the file, and every key it names does disagree |
| Reconcile.Provisioner.CheckConfigStep | internal/core/setup/provision.go:146-246 | reaches the verdict and projection of the configuration check without touching the host |
| Reconcile.Provisioner.ApplyConfigStep | internal/core/setup/provision.go:248-304 | an exclusive create that may break off part way, then the file as written is what the later steps see |
| Reconcile.Provisioner.CheckTokenStep | internal/core/setup/provision.go:315-358 | any usable token satisfies it; an expired one under the label is an error and not a mint |
| Reconcile.Provisioner.ApplyTokenStep | internal/core/setup/provision.go:360-408 | a save that fails before its rename changes nothing; past it the store has gained exactly the run's token, which the plan holds unless the flush failed, and before the lock that may still fail |
| Runs.SurveyIsChain | internal/core/setup/reconcile.go:238-262 | the checks run as a chain over one plan; what is recorded, blocked and failed is each step's own verdict |
| Runs.RefusalTouchesNothing | internal/core/setup/reconcile.go:238-275 | for every list of steps, a blocked verdict, an undecided check or a dry run leaves the host untouched, and is an error only in the second case |
| Runs.AppliedIsPrefixOfPending | internal/core/setup/reconcile.go:279-295 | for every list of steps, the applied ones are a prefix of the pending ones and a failure is the next of them |
| Runs.StoryOf | internal/core/setup/reconcile.go:238-295 | every run that goes ahead is a sequence of turns whose marks in the Result say what each turn did |
| Provisioning.RunTale | internal/core/setup/reconcile.go:221-295 | a run of the seven steps that goes ahead satisfies the joint specification of all verdicts and all turns, under every set of failing calls |
| Provisioning.Refused | internal/core/setup/reconcile.go:238-275 | a run that does not go ahead applies nothing and hands over no token |
| Guarantees.RunningServiceIsLeftAlone | internal/core/setup/deploy.go:76-102 | without restart and reinstall no run stops a running service or changes its registration, whatever fails |
| Guarantees.TokenIsReportedOnEveryExit | internal/core/setup/plan.go:147-158 | on failed runs too, the Result carries a token if and only if a store changed and the directory flush after it did not fail; the store gained that token alone |
| Guarantees.TokenIsReportedOnWindows | internal/core/auth/store.go:243-271 | where there is no such flush, if and only if a store changed |
| Guarantees.MintedTokenIsLive | internal/core/setup/deploy.go:461-485 | a run that minted a token and passed start started the service after the save: the process accepts the token, so verification cannot find it refused |
| Guarantees.SuccessIsFixedPoint | internal/core/setup/deploy.go:304-350 | after a successful run the same options change nothing and find six steps satisfied if and only if the token is still usable and the path stable |
| Success.CleanRunSucceedsIff | internal/core/setup/reconcile.go:238-295 | a run none of whose calls fails, on a host with source and safe directory, succeeds if and only if a token it must mint can be stored and it does not register anew over a running service it has no other reason to restart |
| Reruns.RerunServesMintedIff | internal/core/setup/provision.go:360-408 | after any run that minted a token, a successful re-run's process accepts it if and only if that re-run's start step was pending or the process left running accepted it already; and exactly when the step is pending |
| Reruns.UnstartedIsOld | internal/core/setup/deploy.go:461-485 | a process a run leaves running without having started it is the one from before |
| Guarantees.UntouchedServiceGoesStale | internal/core/setup/provision.go:360-408 | a run that minted and failed before stopping the service is followed by a re-run that finds six steps satisfied and changes nothing |
| Counterexamples.RerunLeavesServiceStale | internal/core/setup/deploy.go:474-478 | a host where a failed lock, or a failed stop, and a clean re-run with restart end in a process that refuses the reported token |
| Counterexamples.RelativeIsNoFixedPoint | internal/core/setup/options.go:98-118 | options with a relative binary directory whose successful run is not followed by a satisfied one |
| Counterexamples.ReinstallLeavesServiceStopped | internal/core/setup/deploy.go:352-376 | a host where a reinstall none of whose calls fails ends registered, stopped and failed |
| Counterexamples.RerunStartsIt | internal/core/setup/deploy.go:352-376 | on the same host the next run, obeying its refusals, succeeds |
| Counterexamples.BellDoesNotParse | internal/core/config/render.go:196-219 | a registered key whose usage text makes the printed document unparsable |
| Guarantees.ReinstalledServiceIsStartedIff | internal/core/setup/deploy.go:352-376 | a registration put in place is running afterwards if and only if the start step was pending, and exactly when that is |
| Reruns.NamedFlagsClearIff | internal/core/setup/deploy.go:304-350 | a refused run repeated with exactly the flags its refusals name is refused again if and only if the existing command line is unreadable |
| Guarantees.ForcedRunIsRefusedIff | internal/core/setup/deploy.go:330-348 | a run given both flags from the start is refused if and only if the existing command line is unreadable |
| Recovery.RerunRecoversIff | internal/core/setup/provision.go:186-217 | whatever run came before, a re-run that obeys its refusals and none of whose calls fails succeeds if and only if the host left to it is recoverable; given a source in place, a safe binary directory and stable paths |
| Recovery.ObedientRunSucceedsIff | internal/core/setup/reconcile.go:238-295 | such a run on any host succeeds if and only if the directory can be had, configuration, store and command line can be used, a token to be minted can be stored, and it strands no running service |
| Recovery.WhatARunSpoils | internal/core/setup/provision.go:248-304 | a run that went ahead leaves an unusable configuration only by a write that broke off, no misplaced directory, no unreadable store or command line, and a registration still to be replaced only if it failed |
| Recovery.StrandedOnce | internal/core/setup/deploy.go:352-376 | a clean run that fails for a service it registered anew is followed by one that succeeds, while the token it found is usable |
| Guarantees.ConfigWrittenMeansAbsent | internal/core/setup/plan.go:147-151 | the written flag holds if and only if the file was absent at the checks; the file changed exactly to the rendered text when the step was applied |
| TokenStore.Store.Validate | internal/core/auth/store.go:177-197 | accepts exactly the stores with well-formed labels and hashes and no label twice |
| TokenStore.Store.Find | internal/core/auth/store.go:329-337 | finds an entry with the label if and only if there is one |
| TokenStore.Store.AnyUsable | internal/core/auth/verifier.go:43-55 | true exactly when some entry is unexpired, expiry being inclusive |
| TokenStore.Store.Add | internal/core/auth/store.go:301-313 | refuses a bad or taken label changing nothing, and otherwise keeps every other entry and validity |
| TokenStore.Store.Revoke | internal/core/auth/store.go:316-326 | on a valid store exactly the entries with the label go |
| TokenStore.RevocationIsComplete | internal/core/auth/store.go:177-197 | a revoked label survives if and only if the store held it twice, which is why loading validates |
| TokenStore.RevokeUndoesAdd | internal/core/auth/store.go:301-326 | minting a new label and revoking it restores the store |
| ConfigKey.SplitWords | internal/core/config/key.go:199-216 | the loop cuts every dotted segment before each upper-case letter |
| ConfigKey.CollideIff | internal/core/config/key.go:158-216 | for all names, under any case mappings that are ASCII's on ASCII: one flag if and only if the words cut at hyphens agree, one variable if and only if the upper-cased words cut at underscores agree; equal words collide in both |
| ConfigKey.CollideTogether | internal/core/config/key.go:150-153 | names without hyphens and underscores derive one flag exactly when their words agree, and one variable exactly when these agree upper-cased; the documented claim, that these coincide, on ASCII names |
| ConfigKey.FlagWithoutVariableCollision | internal/core/config/key.go:158-195 | an accepted pair of keys with one flag and two variables |
| ConfigKey.VariableWithoutFlagCollision | internal/core/config/key.go:158-195 | an accepted pair of keys with one variable and two flags |
| ConfigKey.CapitalCollision | internal/core/config/key.go:158-195 | an accepted pair, one name outside ASCII and no underscore in either, with one variable and two flags |
| ConfigKey.Index | internal/core/config/key.go:158-183 | the map-filling loop is the registration function, error for error |
| ConfigKey.IndexDecides | internal/core/config/key.go:158-183 | a registration is accepted if and only if it is unambiguous, and then maps every name to its declaration and nothing else |
| ConfigKey.AcceptedKeysAreSettableIff | internal/core/config/key.go:158-195 | in an accepted registration every key has a variable of its own, and a flag unless it is NoFlag, if and only if no two agree once cut at underscores, nor two with flags once cut at hyphens; always, when every name is ASCII and holds neither |
| ConfigKey.AcceptedKeysShareIff | internal/core/config/key.go:158-195 | for the names of two accepted keys: when they derive one flag and when one variable, and that one of them then holds a hyphen, or holds an underscore or is not ASCII |
| Render.TablesOf | internal/core/config/render.go:145-155 | the tables the values need, in first-seen order |
| Render.TablesComplete | internal/core/config/render.go:145-171 | each needed table once and no other |
| Render.TomlString | internal/core/config/render.go:284-336 | the escaping loop is the literal or escaped form of the string |
| Render.CheckProvisioned | internal/core/config/render.go:111-141 | collects every value that cannot be written |
| Render.ProblemsFromDecide | internal/core/config/render.go:111-141 | it finds none if and only if every value is registered, typed right and given once |
| Render.Comment | internal/core/config/render.go:196-219 | the wrapped comment, line for line |
| Render.RenderGroup | internal/core/config/render.go:174-192 | one table's comments and entries appended after any text before them |
| Render.RenderConfig | internal/core/config/render.go:73-103 | the builder's text is the document, line for line, or the same error |
| Resolve.ResolveKeys | internal/core/config/loader.go:151-172 | coerces every key and collects every failure |
| Resolve.ResolutionMeaning | internal/core/config/loader.go:151-185 | resolution succeeds if and only if every layered value coerces, and then holds those values, each of its key's type, for the registered keys and nothing else |
| Resolve.ResolveBytes | internal/core/config/render.go:353-386 | reading, layering over the defaults and resolving a document, with its errors |
| RoundTrip.RenderedDecides | internal/core/config/render.go:73-141 | rendering succeeds if and only if the registration is unambiguous and the values writable |
| RoundTrip.ReadTomlText | internal/core/config/render.go:284-336 | every string, literal or escaped, reads back unchanged |
| RoundTrip.CommentIsRemark | internal/core/config/render.go:196-219 | no wrapped comment leaks into a key line |
| RoundTrip.ReadDocument | internal/core/config/render.go:73-219 | the document reads as exactly the provisioned values, each under its own dotted key, whatever the order and tables |
| RoundTrip.RenderedParses | internal/core/config/render.go:196-219 | a rendered document parses if and only if no provisioned key's usage holds a control character |
| RoundTrip.RenderThenResolve | internal/core/config/render.go:353-386 | what was rendered resolves to the provisioned values plus every other key's default and nothing else, if and only if those defaults coerce |
| RoundTrip.ProvisionedValuesSurvive | internal/core/config/render.go:353-386 | no provisioned value is lost or changed on the way |
| Disk.ApartIsUnpublished | internal/core/auth/store.go:209-241 | preparing a temp file leaves every outcome of a power loss for the target as it was |
| Disk.RenamedIsPublished | internal/core/auth/store.go:209-297 | renaming a flushed file leaves exactly the old outcomes and the complete new bytes |
| Disk.FlushedIsDurable | internal/core/auth/store.go:243-271 | once the directory is flushed nothing but the new bytes can be found |
| Replace.FileSystem.WriteAndClose | internal/core/auth/store.go:276-297 | whatever fails, only the temp file was touched; success means it holds the data, flushed |
| Replace.FileSystem.SyncDir | internal/core/auth/store.go:253-271 | settles every pending change, or is skipped, or fails, as the platform has it |
| Replace.FileSystem.Save | internal/core/auth/store.go:209-241 | at every state passed through a power loss finds an old outcome or the complete new bytes, never fewer and never more; after the directory flush only the new ones |
| Replace.FileSystem.CopyFile | internal/core/setup/deploy.go:201-250 | the same atomicity, and without the flush the old file can still come back |
| Pagination.LessIsTotal | internal/core/pagination/slice.go:58-60 | the comparison the resume uses is a strict total order on byte strings |
| Pagination.PageIsNextRun | internal/core/pagination/slice.go:45-75 | a page is the next run after the key, and carries a cursor if and only if items remain, naming its own last key |
| Pagination.EmptyKeyEndsListing | internal/core/pagination/slice.go:45-75 | a listing ends early if and only if an empty key fills a first page of size one |
| Pagination.WalkNeverRepeats | internal/core/pagination/slice.go:18-44 | over a listing that changes between any two pages the keys seen strictly increase |
| Pagination.WalkMissesNothing | internal/core/pagination/slice.go:18-44 | a completed walk shows every key that was there throughout |
| Pagination.StaticWalkIsListing | internal/core/pagination/slice.go:45-75 | on an unchanging listing the pages concatenate to it and the walk ends within one request per item |
| Base64.DecodeEncode | internal/core/pagination/token.go:77-112 | both alphabets of RFC 4648 decode what they encoded, for all bytes |
| Token.ReadBack | internal/core/pagination/token.go:77-117 | the cursor document reads back as the cursor, arbitrary key bytes included |
| Token.GateAdmitsMinted | internal/core/pagination/token.go:66-72 | the length gate never rejects a minted token |
| Token.TokenRoundTrip | internal/core/pagination/token.go:77-132 | a token decodes to its key under its own scope and to nothing under any other |
| Token.SizeDecides | internal/core/pagination/page.go:115-141 | the fate of every page size text, integer or not, on any int width |
| Token.JunkDependsOnPlatform | internal/core/pagination/page.go:115-141 | for any two int widths one text is clamped on the one and rejected on the other |
| Token.MintedTokenParses | internal/core/pagination/page.go:145-180 | whatever token is handed out resumes at its key, and minting panics exactly on a key too long to read back |
| Token.EchoIsWalk | internal/core/pagination/page.go:93-233 | a client echoing tokens sees exactly the pages of the walk over keys |
| Ipv4.MaskTestsDecide | internal/adapters/dhcpwindows/create.go:483-504 | the bit tricks accept exactly the prefix masks of length 1 to 32, and with hosts 1 to 30 |
| Ipv4.NetworkAddr | internal/adapters/dhcpwindows/create.go:456-465 | masking octet by octet is masking the word |
| Ipv4.BroadcastAddr | internal/adapters/dhcpwindows/create.go:469-478 | filling octet by octet is joining the inverted mask |
| Ipv4.SubnetArithmetic | internal/adapters/dhcpwindows/create.go:456-478 | the network is the address rounded down to the subnet's size, the broadcast that plus the inverted mask |
| Ipv4.SubnetIsInterval | internal/adapters/dhcpwindows/create.go:449-478 | two addresses share a subnet if and only if one lies between the other's network and broadcast addresses |
| ScopeRules.LeasableIsEveryAddress | internal/adapters/dhcpwindows/create.go:209-230 | a range lies strictly inside its subnet if and only if every address of it is a leasable one of the same subnet |
| ScopeRules.ValidateAddressing | internal/adapters/dhcpwindows/create.go:169-230 | accepts exactly the leasable triples and reports each mistake it can judge, not the first |
| ScopeRules.CheckLeasableEnds | internal/adapters/dhcpwindows/create.go:235-247 | names whichever end is not leasable, in order |
| ScopeRules.AppendUnnamed | internal/adapters/dhcpwindows/update.go:281-291 | adds each field not yet named, once |
| ScopeRules.ValidateEffectiveRange | internal/adapters/dhcpwindows/update.go:212-274 | nothing is reported if and only if the merged range is leasable in the existing subnet; each field once; against a well-formed scope only fields that were sent |
| Overlap.OverlapIsSharing | internal/adapters/dhcpwindows/scope.go:285-304 | the two comparisons hold if and only if the blocks share an address |
| Overlap.SameIdShares | internal/adapters/dhcpwindows/scope.go:285-304 | they subsume the exact scopeId match |
| Overlap.PoolsAreDisjoint | internal/adapters/dhcpwindows/scope.go:285-304 | no address can be leased from two scopes |
| Identity.EncodingKeepsOrder | internal/adapters/dhcpwindows/identity.go:22-65 | encoded identities order and compare exactly as their eight bytes |
| Identity.InputsAreRecoverable | internal/adapters/dhcpwindows/identity.go:42-65 | server name and scopeId are determined by the hashed bytes |
| Identity.SharedIdentityIsCollision | internal/adapters/dhcpwindows/identity.go:45-65 | two scopes of a server share an identity if and only if their cut hashes collide |
| Identity.QuadNamesAddress | internal/adapters/dhcpwindows/create.go:449-453 | the text of an address is dotted and names no other |
| Drift.Ledger.Observe | internal/adapters/dhcpwindows/drift.go:91-118 | over any history the ledger is the last sighting of every identity, and the reports those the history calls for |
| Drift.ReportedIffChanged | internal/adapters/dhcpwindows/drift.go:91-118 | a report appears if and only if an identity differs from its own last sighting |
| Drift.ChangedFields | internal/adapters/dhcpwindows/client.go:189-213 | exactly the attributes that differ, so at least one for every report |
| Drift.KnownIsQuiet | internal/adapters/dhcpwindows/drift.go:91-118 | listing what is already known reports nothing |
| Drift.EmittedIffDrifted | internal/adapters/dhcpwindows/client.go:163-180 | over any log of listings, creates and updates an event appears if and only if an identity, listed or created, differs from its last sighting by any of the three |
| Registry.Identify | internal/adapters/dhcpwindows/client.go:275-292 | succeeds if and only if no two scopes derive one identity |
| Registry.SortByIdSorts | internal/adapters/dhcpwindows/client.go:152-158 | the sorted listing has strictly increasing identities, as a page cut demands |
| Registry.FilterByScopeId | internal/adapters/dhcpwindows/scopes.go:248-264 | keeps exactly the matching scopes and the order a page cut demands |
| ScopeWalk.GetPage | internal/adapters/dhcpwindows/scopes.go:196-264 | the page of the filtered listing as it stands with the token of what is left, or an error exactly for a bad token or an unidentifiable listing |
| ScopeWalk.WalkListing | internal/adapters/dhcpwindows/scopes.go:196-264 | a client echoing tokens, the registry serving any requests and suffering any outside changes between two pages: every page is cut, at the size asked for, from the listing of a state the registry had come to by exactly those requests, shows nothing that was not there, and is full unless the last; no identity is shown twice, in order; the walk ends with what is left or when it stops asking or no listing can be identified, and having come to the end has shown every matching scope that was there at each page |
| Registry.ConflictsDecide | internal/adapters/dhcpwindows/scope.go:294-304 | the script's filter is empty if and only if no scope shares an address with the new block, and otherwise begins with the first that does |
| Registry.Client.ListScopes | internal/adapters/dhcpwindows/client.go:134-180 | every scope once, strictly ordered; the ledger then knows all, and exactly the drifted identities have been reported |
| Registry.Client.ResolveScope | internal/adapters/dhcpwindows/mutate.go:70-83 | finds the scope with the identity if and only if there is one, reporting what its listing reports |
| Registry.Client.CreateScope | internal/adapters/dhcpwindows/create.go:304-401 | conflicts if and only if an address would be shared, naming the first such scope and changing nothing; otherwise adds exactly the scope described, the server's defaults for what was left out, and reports it if its identity last looked different |
| Registry.Client.DeleteScope | internal/adapters/dhcpwindows/mutate.go:101-116 | exactly the scope with the identity goes; the ledger keeps its last looks |
| Registry.Client.UpdateScope | internal/adapters/dhcpwindows/mutate.go:135-195 | both ends or neither, omitted fields and identity unchanged, other scopes untouched; reports what its listing reports and nothing of its own change, which the ledger then knows |
| Registry.Client.Serve | internal/adapters/dhcpwindows/mutate.go:101-195 | over any run of requests and outside edits, creates and deletes blocks stay disjoint, no subnet occurs twice, pools stay inside their block and a scope's identity never changes; each request changes exactly what it should, a create adding the described scope if and only if its input is leasable and no address would be shared, an update and a delete acting if and only if the identity is there and, for the former, the range usable; the log grows by what each request saw, and an event has been emitted if and only if some listed or created scope differed from the last sighting of its identity |
| Registry.ListingNotices | internal/adapters/dhcpwindows/drift.go:91-118 | a listing reports a scope if and only if its identity last looked different, so also one recreated on its subnet from outside |
| Controller.Controller.Control | internal/core/winsvc/controller.go:383-411 | an interrogation repeats the last report; the first stop begins the drain at check point 1; a second one does nothing |
| Controller.Controller.DrainingPhase | internal/core/winsvc/controller.go:349-380 | the drain loop is the machine's draining phase, ticks, backstop and requests alike |
| Controller.Controller.Abandon | internal/core/winsvc/controller.go:427-445 | a closed channel is a stop without a report, bounded by a backstop of its own |
| Controller.Controller.Run | internal/core/winsvc/controller.go:239-279 | the three phases in order report what the machine reports and return its exit, for every sequence of events |
| ControllerRuns.TraceHasShape | internal/core/winsvc/controller.go:239-453 | every trace is StartPending, Running, StopPending, Stopped in that order, with Stopped once, last, and exactly when Run is over |
| ControllerRuns.RunningMeansReady | internal/core/winsvc/controller.go:284-312 | Running is reported only after serve signalled ready with no stop, closing or result before |
| ControllerRuns.NoRunningAfterCut | internal/core/winsvc/controller.go:262-279 | after a stop or a closing nothing makes Running be reported |
| ControllerRuns.ExitCode | internal/core/winsvc/controller.go:414-422 | the exit code is non-zero if and only if Run returns an error and no stop or closing came first |
| ControllerRuns.CheckPointCountsTicks | internal/core/winsvc/controller.go:361-364 | the check point is one more than the ticks since the stop, in a 32-bit counter |
| ControllerTime.RunReturns | internal/core/winsvc/controller.go:349-445 | with ready arms taken in any order and time passing only while none is ready, a run that received a stop or a closing is over within a bounded number of moves |
| ControllerTime.NeverStuck | internal/core/winsvc/controller.go:284-445 | and until it is over it can always go on |
| ControllerTime.StopIsBounded | internal/core/winsvc/controller.go:349-445 | Run returns within the deadline of the stop, or of the closing if later, with serve's own result if serve came back within the budget, and by the backstop only at the deadline itself |
| ControllerTime.NothingOutlivesDeadline | internal/core/winsvc/controller.go:349-445 | no time passes that deadline before Run has returned |
| ControllerTime.CheckPointDoesNotWrap | internal/core/winsvc/controller.go:349-380 | the check point does not wrap while the deadline holds fewer than 2^32 - 1 ticks |
| Etag.Split | internal/core/etag/etag.go:90-114 | the one-pass loop splits at the commas outside quotes, or at every comma when the quotes do not pair |
| Etag.Matches | internal/core/etag/etag.go:51-74 | the scan decides whether the header lists the tag |
| Etag.SplitRejoins | internal/core/etag/etag.go:90-114 | for every header the pieces rejoin to it |
| Etag.MatchMeansPresent | internal/core/etag/etag.go:51-149 | for every header a match means the wildcard, or the opaque tag occurs in it |
| Etag.ListMatchesIff | internal/core/etag/etag.go:51-149 | for every list of entity-tags a match means some listed tag is weakly equal, and conversely |
| Conditional.CaptureWriter.WriteHeader | internal/core/etag/handler.go:131-138 | the first status is kept and the real writer untouched |
| Conditional.CaptureWriter.Write | internal/core/etag/handler.go:140-166 | buffers within the bound; past it, the real writer is as if it had been written to all along |
| Conditional.Serve | internal/core/etag/handler.go:39-109 | the client receives the handler's status and bytes in order, but for the tag, and a bare 304 exactly when a whole 200's tag matches; after an informational first status, that one, a 200 and the bytes |
| Conditional.SentMeans | internal/core/etag/handler.go:131-166 | what the handler alone would have sent: its informational statuses, its first final one, and every byte unless that or the method carries none |
| Conditional.InformationalIsInvisibleIff | internal/core/etag/handler.go:131-138 | after an informational first status the client sees no difference if and only if the handler's final status was 200 and it named no second informational one |
| Conditional.HintsHideError | internal/core/etag/handler.go:131-138 | early hints and then a 404 reach the client as a 200 |
| Conditional.FirstStatusIsFinal | internal/core/etag/handler.go:131-138 | the status a handler alone would have sent is the first it named if and only if that is not informational |
| Health.OverallIsWorst | internal/core/health/component.go:55-78 | the overall status is a worst among the components |
| Health.OneBadComponentFailsSafe | internal/core/health/component.go:67-94 | the endpoint answers 200 if and only if every component is healthy or unhealthy |
| Health.EmittedIsChainIff | internal/core/health/health.go:87-118 | the transitions are the links of the de-duplicated history if and only if no empty status is followed by another |
| Health.Handler.Refresh | internal/core/health/health.go:103-118 | probes run only when nothing is cached or the cache is a TTL old, and the status is that of the components served |
| Health.Handler.Serve | internal/core/health/health.go:66-118 | over any run of requests each status is that of the probes of the last request that had to run them, which is the first and each one a TTL after those ended; these start a TTL apart, and the events are those of the statuses, each starting where the last ended unless an empty status was followed by another |
| Steps.BinaryChecked | internal/core/setup/deploy.go:35-103 | of the steps behind Provisioning.RunTale: a differing copy held open by a running service is never replaced without restart, and with it a restart is wanted; blocked says exactly that |
| Steps.BinaryApplied | internal/core/setup/deploy.go:127-192 | of the steps behind Provisioning.RunTale: touches binaries and the service's state alone; success leaves the source's bytes in place, with the service stopped if they replaced a copy |
| Steps.InstallChecked | internal/core/setup/deploy.go:304-350 | of the steps behind Provisioning.RunTale: satisfied means the registered command is the one asked for, ignoring case; a difference is never left standing unrefused without reinstall, an unreadable command line not even with it |
| Steps.InstallApplied | internal/core/setup/install.go:74-169 | of the steps behind Provisioning.RunTale: a new registration names a configuration that would start and a safe directory, and is not running; of all failures only one to secure it leaves it behind, and an existing one is never overwritten |
| Steps.StartChecked | internal/core/setup/deploy.go:429-459 | of the steps behind Provisioning.RunTale: satisfied means running with nothing to pick up; a running service is never restarted unasked |
| Steps.StartApplied | internal/core/setup/deploy.go:461-485 | of the steps behind Provisioning.RunTale: success means a process that read configuration, store and image as they are then, stopped first if a restart was wanted; failure leaves the old state or a stopped service |
| Steps.VerifyFailsIff | internal/core/setup/verify.go:41-207 | of the steps behind Provisioning.RunTale: fails if and only if nothing was resolved, the run was cancelled, the service does not answer, or the protected route refused the minted token |

## Left out

- Replace.FileSystem.Save: requires that a temp name equal to the target be an existing file, which the exclusive create then refuses; a target that does not exist yet and is itself named like a temp file is not covered.
- Replace.FileSystem.CopyFile: the same condition on its temp name.
- Token.TokenRoundTrip: scope names that JSON would escape are not modelled, and of JSON only documents of the printed form are read; any other document is taken as rejected.
- ControllerTime.RunReturns: handling an event takes no time and what is ready is taken before time passes; the requests to come are finitely many, so none can starve the timers.
- Guarantees.SuccessIsFixedPoint: whether a file other than the provisioning directory is locked down is not part of the host, so a registration whose files could not be secured counts as in place on a re-run, as it does in the source.
- Success.CleanRunSucceedsIff: the service also refuses to start over a configuration or token store that is not locked down, or a binary others can write; only the provisioning directory's lock is part of the host, so such a refusal is the failing call of the start step here.
- Recovery.RerunRecoversIff: the same refusal to start is outside the host.
- Recovery.ObedientRunSucceedsIff: likewise.
- Registry.Client.CreateScope: scripts are atomic and do what they were written to do, so two creates racing past the overlap check are not modelled; text, lease, state and type validation is left out, and so is output that does not decode. The server's defaults are one record for all scopes.
- Registry.Client.UpdateScope: a range end that does not parse is judged here rather than by the context-free validation before it, which rejects the same requests.
- Conditional.Serve: a request whose client has left is not modelled, nor is a failing writer; only the entity-tag header is.
- Health.Handler.Serve: requests are served one at a time, as the mutex makes them.
- Setup: the health poll's retries within its deadline, parsing of its body, and the reported component are one input each: it answers or it does not.
- Setup: directories are locked or not; ACLs, registry rights and the canonical form of paths beyond ASCII case are not part of the host.
- The environment and command-line layers of configuration loading, and the configuration file of a run that names one: easy members around the resolution that is modelled.
- Address text, URL rewriting in `Paginator.Next`, problem+json, logging, metrics, CLI reporting, PowerShell output decoding and the Windows halves of the service package: foreign or easy.
- SHA-256, HMAC, randomness and duration text are parameters; `start + Size` in `Slice` does not overflow here because the model's integers are unbounded.
- Concurrency other than the controller's selects: store locking between processes, and the health and ledger mutexes.
