# A Dafny model of the vic container-VM supervisor's control logic and the vic-machine installer's parameter checks

vic runs each container in its own small VM. Inside that VM an init-like
supervisor, the *tether*, launches the container's processes ("sessions"),
acts as the subreaper for every descendant, answers power and guest
operations sent by vSphere through the *toolbox*, and configures the VM's
network interfaces. On the administrator's side, the *vic-machine* installer
validates its command-line parameters before it creates anything.

This project models the parts of both that are sequential logic once the
operating system, vSphere and the network are abstracted:

- **DeviceNumbers** — `Mkdev`, the packing of a major and a minor number into a
  Linux device number, on 64-bit two's-complement words (`bv64`).
- **ExecLookup** — `lookPath`: a `./` or `../` name is joined to the session's
  working directory, any other name holding a `/` is used as it is, and any
  other name is searched for in the first `PATH=` entry of the session's
  environment. An empty PATH element means `.`. The file-system test of
  `findExecutable` is the predicate parameter `executable`.
- **ChildReaper** — one wake-up of the child reaper: a loop over the results
  of `Wait4` that checks the `done` channel before every call. The session
  table is a `map<int, Session>` field of class `Reaper`. The loop reaps
  sessions, skips stop/continue reports, logs adopted zombies and stops on
  shutdown, on "no more children" or on an error. `stopReaper` is modelled as
  the order of its three shutdown steps. The pass is specified by the pure
  function `Drain` over the table and the sequence of wait results. The kernel's
  answers are that sequence; past its end the kernel reports pid 0. The moment
  another goroutine closes `done` is the parameter `closedAt`.
- **Toolbox** — the toolbox's control boundary around one bound session:
  `Reload`, `session`, `kill`, `killHelper`, `containerAuthenticate`,
  `containerStartCommand` and `halt`. The 10-second race in `halt` between the
  supervisor stopping and the timer is the boolean parameter `stoppedInTime`.
  Signal parsing is the parameter `parseSignal`; whether delivery and the
  forced kill succeed are the booleans `delivered` and `killed`. Every signal
  sent and every kill is recorded in the field `actions`.
- **Target** — `HasCredentials` and `URLWithoutPassword` of the installer's
  connection target. The password prompt is the parameter `prompt`.
- **VnetParams** and **Create** — `splitVnetParam`, `parseVnetParam`, the three
  `parseContainerNetwork*` parsers, `processContainerNetworks`,
  `processNetwork`, `processDNSServers`, `processVolumeStores`,
  `processBridgeNetwork` and the validation steps of `processParams`. The
  textual parsers of Go's `net` package and of `ip`, and name resolution, are
  function parameters.
- **NetMock** — the interface table of the mock used by the network test:
  `AddInterface`, and the outcome that `TestSetIpAddress` asserts, which is
  proved for every order in which the supervisor can visit the three networks
  of a Go map.
- **Strings**, **NetTypes** and **Wrappers** — the Go `strings` helpers these
  rely on (`Split`, `Join`, `SplitN`, `Index`, `TrimPrefix`), the `net` address
  values, and `Option`/`Result`.

The three networks in `TestSetIpAddress` (bridge, cnet and external) are applied by code in
lib/tether/net_linux.go, which is not part of this model. `NetMock.Apply` is a
reference model of that step. It states what the test relies on: an endpoint on
the slot an interface holds renames that interface when it asks for a rename,
and a static endpoint adds its address once. The lemmas prove that this
reference model gives the asserted outcome.

## Model

| member | source | states |
|---|---|---|
| DeviceNumbers.MkdevLowMinor | lib/tether/tether_linux.go:39-41 | bits 0-7 of the device number are the low 8 bits of the minor number |
| DeviceNumbers.MkdevLowMajor | lib/tether/tether_linux.go:39-41 | bits 8-19 of the device number are bits 0-11 of the major number |
| DeviceNumbers.MkdevOverlay | lib/tether/tether_linux.go:39-41 | bits 20-31 are minor bits 8-19 or-ed with major bits 12-23 |
| DeviceNumbers.MkdevHighBits | lib/tether/tether_linux.go:39-41 | bits 32-63 are major bits 24-55; major bits 56-63 wrap off the 64-bit word |
| DeviceNumbers.MkdevRoundTrip | lib/tether/tether_linux.go:39-41 | a 12-bit major and a 20-bit minor are recovered from the device number |
| DeviceNumbers.MkdevInjective | lib/tether/tether_linux.go:39-41 | distinct 12-bit/20-bit pairs give distinct device numbers |
| DeviceNumbers.MinorAboveTwentyBitsIsDropped | lib/tether/tether_linux.go:39-41 | a minor bit above bit 19 has no effect on the device number |
| ExecLookup.LookPath | lib/tether/tether_linux.go:165-211 | the method's loops over the environment and over PATH compute exactly the three-case lookup `LookPathSpec` |
| ExecLookup.FoundIsExecutable | lib/tether/tether_linux.go:151-160 | every path the lookup returns passed the executable test |
| ExecLookup.RelativeNameJoinsDir | lib/tether/tether_linux.go:169-177 | a `./` or `../` name gives `dir/name` when that is executable, else an error for that path; PATH is not read |
| ExecLookup.SlashNameUsedAsIs | lib/tether/tether_linux.go:180-185 | another name holding `/` is returned as is when executable, else an error; PATH is not read |
| ExecLookup.SearchPathFirst | lib/tether/tether_linux.go:198-210 | the search returns the first executable candidate in PATH order, every earlier candidate is not executable, and it fails only when no candidate is executable |
| ExecLookup.FirstPathEntryWins | lib/tether/tether_linux.go:188-196 | only the first `PATH=` entry of the environment is searched |
| ExecLookup.NoPathEntryFails | lib/tether/tether_linux.go:188-210 | with no `PATH=` entry a bare name is not found |
| ExecLookup.EmptyElementIsCurrentDirectory | lib/tether/tether_linux.go:198-202 | an empty PATH element is searched as `.`: with `PATH=:/bin` an executable `./file` is found before /bin is tried |
| ChildReaper.ExitStatus | lib/tether/tether_linux.go:118 | the status recorded lies in -1..255 and is -1 exactly when the process did not exit normally, so a signalled death is never read as an exit code; an exit gives its 8-bit code |
| ChildReaper.Reaper.DrainPass | lib/tether/tether_linux.go:83-126 | the loop removes exactly the reaped pids, writes their statuses, hands their sessions to the exit handler in order, and changes nothing else; its trace equals `Drain` |
| ChildReaper.Reaper.RemoveChild | lib/tether/tether_linux.go:112-121 | one reap: the pid leaves the table, its session gets the status and goes to the exit handler; other sessions and the channels are unchanged |
| ChildReaper.Reaper.StopReaper | lib/tether/tether_linux.go:135-149 | notifications are reset, then `done` is closed, then `incoming` is closed, in that order; the table is unchanged |
| ChildReaper.NothingAfterShutdown | lib/tether/tether_linux.go:87-92 | once the done check finds the channel closed no further wait is made and later kernel reports change nothing |
| ChildReaper.ClosedBeforeStartDoesNothing | lib/tether/tether_linux.go:87-92 | a pass that starts with `done` closed makes no wait call and reaps nothing |
| ChildReaper.DrainEndReasons | lib/tether/tether_linux.go:94-104 | pid 0 or ECHILD ends the pass normally, any other error ends it with that error, otherwise it ends on shutdown |
| ChildReaper.SkipsStopAndContinue | lib/tether/tether_linux.go:106-110 | a stop or continue report leaves the table and the rest of the pass as they were |
| ChildReaper.AdoptedZombieLeavesTable | lib/tether/tether_linux.go:122-125 | an exit of a pid without a session reaps nothing and is only logged |
| ChildReaper.ReapsAreOwnedAndOnce | lib/tether/tether_linux.go:112-121 | every reap is of a pid in the table, with its own session, and no pid is reaped twice; each reap's status is the one in the first exit report of that pid the pass acted on (a report after the pass ended never counts) |
| ChildReaper.ExitHandlerOncePerSession | lib/tether/tether_linux.go:112-121 | the exit handler receives each session at most once in a pass |
| ChildReaper.OwnedExitsAreReaped | lib/tether/tether_linux.go:83-126 | for any stream of kernel answers, every exit the pass acted on of a pid the table owned is reaped, whatever stop/continue reports, zombies or repeated pids come between |
| ChildReaper.OwnedExitHandledOnce | lib/tether/tether_linux.go:112-121 | each such pid is reaped exactly once, with the session the table held for it, so the exit handler fires once per owned pid |
| ChildReaper.DrainIsExhaustive | lib/tether/tether_linux.go:83-126 | N owned children that exited before the wake-up are all reaped by that one pass, in the order the kernel reports them |
| Toolbox.SignalName | lib/tether/toolbox.go:136-138 | an empty signal name means SIGTERM; any other name is kept |
| Toolbox.Toolbox.Reload | lib/tether/toolbox.go:97-105 | a config with sessions binds the session under its ID (nil when missing); a nil config or nil sessions leave the binding alone |
| Toolbox.Toolbox.Authenticate | lib/tether/toolbox.go:157-177 | a credential that does not decode fails; nothing bound fails "not yet initialized"; success exactly when the credential name is the bound session's ID, else "failed to verify container ID" |
| Toolbox.Toolbox.KillHelper | lib/tether/toolbox.go:135-155 | a name that does not parse fails and sends nothing; otherwise the parsed signal is sent, and a delivery failure is reported |
| Toolbox.Toolbox.Kill | lib/tether/toolbox.go:118-133 | nothing bound fails "process not found" and sends nothing; otherwise it is killHelper on the bound session |
| Toolbox.Toolbox.StartCommand | lib/tether/toolbox.go:179-186 | every answer has result code -1; only `kill` signals, and it returns kill's own error (no session, unknown signal, failed delivery); anything else is an unknown-command error |
| Toolbox.Toolbox.Halt | lib/tether/toolbox.go:188-215 | nothing bound fails; the stop signal is sent first and killHelper's own error (unknown signal or failed delivery) is returned at once; then a stop in time gives success, else the forced kill's result |
| Target.NoTargetFails | cmd/vic-machine/common/target.go:82-84 | with no URL the credentials fail with "--target argument must be specified" |
| Target.UserPrecedence | cmd/vic-machine/common/target.go:86-99 | the flag user wins, the URL's user fills in, and neither is an error (both directions) |
| Target.PasswordPrecedence | cmd/vic-machine/common/target.go:101-113 | the flag password wins, the URL's fills in when the flag was not given, and the prompt is read and decides only when both are absent |
| Target.AsWrittenIgnoresPromptFailure | cmd/vic-machine/common/target.go:104-108 | the code as written differs from the intended rule only when the prompt fails, and then goes on with an empty password |
| Target.PromptFailureGivesEmptyPassword | cmd/vic-machine/common/target.go:104-108 | `--target root@vc`, no password and an unreadable terminal: as written this succeeds with "", as intended it fails |
| Target.Target.HasCredentials | cmd/vic-machine/common/target.go:81-119 | the method's outcome is the resolution rule: on success the URL's user info is the settled user and password; each error leaves what the source leaves |
| Target.Target.URLWithoutPassword | cmd/vic-machine/common/target.go:70-78 | nil for nil; otherwise the same URL whose user info keeps the user name and has no password |
| VnetParams.SplitVnetParam | cmd/vic-machine/create/create.go:1050-1068 | more than one `:` is an error; an empty network is an error; otherwise success with a non-empty network and a value free of `:` |
| VnetParams.FirstPieceIsEmpty | cmd/vic-machine/create/create.go:1057-1061 | the network part is empty exactly when the parameter is empty or starts with `:` |
| VnetParams.SplitVnetParamOk | cmd/vic-machine/create/create.go:1050-1068 | a successful split is `vnet:value`, or a bare `vnet` with an empty value |
| VnetParams.SplitVnetParamRoundTrip | cmd/vic-machine/create/create.go:1050-1068 | `vnet` and `vnet:value` split back into their parts |
| VnetParams.ParseVnetParamOutcome | cmd/vic-machine/create/create.go:1070-1081 | a split error or a value that does not parse fails against the whole parameter; success exactly when both succeed and gives the network and the parsed value |
| VnetParams.ParseVnetParamRoundTrip | cmd/vic-machine/create/create.go:1070-1081 | `vnet:value` parses to the network and the parsed value |
| VnetParams.ParseContainerNetworkGateways | cmd/vic-machine/create/create.go:997-1014 | the method's loop computes `Gateways` |
| VnetParams.GatewaysMeaning | cmd/vic-machine/create/create.go:997-1014 | the gateways parse exactly when every entry parses and no network has two; then the keys are exactly the networks named and each holds its gateway |
| VnetParams.DuplicateGatewayFails | cmd/vic-machine/create/create.go:1006-1008 | a second gateway for one network is an error |
| VnetParams.GatewaysErrorPersists | cmd/vic-machine/create/create.go:1002-1004 | the first failing entry ends the parse with its error |
| VnetParams.ParseContainerNetworkIPRanges | cmd/vic-machine/create/create.go:1016-1029 | the method's loop computes `Collect` with the range parser |
| VnetParams.ParseContainerNetworkDNS | cmd/vic-machine/create/create.go:1031-1048 | the method's loop computes `Collect` with the DNS parser |
| VnetParams.CollectMeaning | cmd/vic-machine/create/create.go:1016-1048 | the entries collect exactly when each parses; then a network is a key exactly when named, and it holds all its values in input order |
| VnetParams.CollectErrorPersists | cmd/vic-machine/create/create.go:1020-1023 | the first failing entry ends the parse with its error |
| VnetParams.DNSWithoutAddressFails | cmd/vic-machine/create/create.go:1040-1044 | `vnet` or `vnet:` as a DNS entry is an error |
| VnetParams.DNSEntryParses | cmd/vic-machine/create/create.go:1031-1048 | `vnet:addr` with a parsable address gives that server for that network |
| Create.ListedMeans | cmd/vic-machine/create/create.go:584-592 | a network is listed exactly when some container-network entry names it |
| Create.KeysMeans | cmd/vic-machine/create/create.go:584-592 | a key is used exactly when some entry has it as alias or, without alias, as network |
| Create.MapNetworksRecordsEntries | cmd/vic-machine/create/create.go:584-592 | with distinct networks and keys, every entry is recorded under its alias or network name with that network's gateway, ranges and DNS servers |
| Create.MapNetworksFrame | cmd/vic-machine/create/create.go:584-592 | a key no entry uses keeps what the four maps hold for it |
| Create.MapNetworksGrows | cmd/vic-machine/create/create.go:584-592 | no recorded container network is dropped |
| Create.MapNetworksLeavesUnlisted | cmd/vic-machine/create/create.go:584-592 | exactly the pending gateway, range and DNS entries of unlisted networks are left over |
| Create.SecondAliasGetsZeroValues | cmd/vic-machine/create/create.go:584-592 | a network listed under two aliases gives its gateway to the first alias and Go's zero values to the second |
| Create.LeftoverMeansUnlisted | cmd/vic-machine/create/create.go:594-625 | something is left pending exactly when a pending network is not listed |
| Create.ContainerNetworksConsistency | cmd/vic-machine/create/create.go:594-625 | once every option parses, processing fails as inconsistent exactly when a gateway, range or DNS entry names a network that is not a container network |
| Create.Create.ProcessContainerNetworks | cmd/vic-machine/create/create.go:561-627 | the method's result and its four maps are those of `ContainerNetworks`, and every error is a container-network error |
| Create.Create.RecordContainerNetworks | cmd/vic-machine/create/create.go:584-592 | the mapping loop's maps and leftovers are those of `MapNetworks` |
| Create.Create.ProcessBridgeNetwork | cmd/vic-machine/create/create.go:550-559 | a parsable bridge range is stored; otherwise the range is nil and the result is an error |
| Create.FirstInNetworkMeaning | cmd/vic-machine/create/create.go:666-682 | the address chosen is the first resolved one inside the gateway's network, and none is chosen only when none lies in it |
| Create.NetworkOutcomeMeaning | cmd/vic-machine/create/create.go:630-685 | the name is always set; neither IP nor gateway changes nothing else; exactly one of them is an error; with both, the gateway and the IP or the resolved address are taken |
| Create.Create.ProcessNetwork | cmd/vic-machine/create/create.go:630-685 | the method's outcome is `NetworkOutcome` and always names the port group |
| Create.ParsedServersKeepsAll | cmd/vic-machine/create/create.go:689-703 | when every server parses all of them are kept in order, more than three included |
| Create.ParsedServersStopsAtFirstBad | cmd/vic-machine/create/create.go:689-703 | the first server that does not parse stops the step with exactly the earlier servers kept |
| Create.Create.ProcessDNSServers | cmd/vic-machine/create/create.go:688-710 | the servers are appended in order up to the first bad one, and an error is reported exactly when one does not parse |
| Create.ParseVolumeStore | cmd/vic-machine/create/create.go:714-718 | an entry without `:` is malformed; otherwise it is location, first `:`, label |
| Create.VolumeStoreRoundTrip | cmd/vic-machine/create/create.go:714-718 | `location:label` with a `:`-free location parses back into both |
| Create.StoreLocationsOkIff | cmd/vic-machine/create/create.go:712-724 | the volume stores are accepted exactly when every entry is well formed |
| Create.StoreLocationsKeys | cmd/vic-machine/create/create.go:714-721 | the keys are exactly the labels given |
| Create.StoreLocationsLastWins | cmd/vic-machine/create/create.go:714-721 | a label given twice maps to the location of its last entry |
| Create.Create.ProcessVolumeStores | cmd/vic-machine/create/create.go:712-724 | a fresh map filled as `StoreLocations` fills it, and an error exactly when an entry is malformed |
| Strings.Utf8Len | cmd/vic-machine/create/create.go:456 | Go's `len` of a string counts UTF-8 bytes: between one and four per character, and equal to the character count exactly for ASCII |
| Create.AccentedNameExceedsLimit | cmd/vic-machine/create/create.go:456-457 | a display name of sixteen `é` is within 31 characters but 32 bytes, so it is over the limit |
| Create.Create.CheckBasics | cmd/vic-machine/create/create.go:441-458 | credentials first, then the cert/key pairing, then the external-network and bridge defaults, then the display-name limit of 31 UTF-8 bytes; the target is left as `HasCredentials` leaves it (`CredentialsSettled`), so on success the URL's user info is the settled user and password |
| Create.Create.ProcessParams | cmd/vic-machine/create/create.go:434-501 | the basic checks, then each processing step in order; success means the container-network maps are those of `ContainerNetworks`, the bridge range is the parsed one, each network is as processNetwork fills it, the DNS servers are appended, and the volume stores are recorded; it succeeds exactly when the credentials resolve, the cert/key pair matches, the name fits and every later step accepts (`StepsAccepted`); the target is left as `HasCredentials` leaves it |
| Create.Create.ProcessSteps | cmd/vic-machine/create/create.go:460-500 | the steps after the basic checks, with the same success outcome and the volume-store error; it succeeds exactly when the container networks are consistent and every later step accepts |
| Create.Create.ProcessNetworksAndStores | cmd/vic-machine/create/create.go:464-500 | the bridge, network, DNS, certificate, volume-store and registry steps; on success the addresses are settled as each step specifies and the volume stores are recorded; it succeeds exactly when the address steps, the certificates, every volume store and the registries are accepted (`TailAccepted`) |
| Create.Create.ProcessAddresses | cmd/vic-machine/create/create.go:464-486 | the bridge range, the client, external and management networks and the DNS servers, in that order; every error is a bridge-range, network or DNS error; on success each is the value its step computes from the old state; it succeeds exactly when the range parses, no network step fails and every DNS server parses (`AddressesAccepted`) |
| NetMock.Itoa | lib/tether/net_linux_test.go:46 | a slot is written as a decimal string with a sign only for negative numbers |
| NetMock.ItoaRoundTrip | lib/tether/net_linux_test.go:46 | the slot string reads back as the slot |
| NetMock.ItoaInjective | lib/tether/net_linux_test.go:46 | different slots give different strings (both directions) |
| NetMock.Mocker.AddInterface | lib/tether/net_linux_test.go:35-47 | the slot counter goes up by one, the new up interface is stored under its name with that index, nothing else changes, and the slot is returned as its string |
| NetMock.ApplyConsistent | lib/tether/net_linux_test.go:82-131 | applying an endpoint keeps every interface keyed by its name with unique indices |
| NetMock.ApplyWellFormed | lib/tether/net_linux_test.go:82-131 | applying an endpoint hands out no new slot |
| NetMock.ApplyAt | lib/tether/net_linux_test.go:82-131 | the interface holding the endpoint's slot is renamed as asked, brought up, and gets a static address once |
| NetMock.ApplyFrame | lib/tether/net_linux_test.go:82-131 | interfaces on other slots are unchanged |
| NetMock.ApplyIdempotent | lib/tether/net_linux_test.go:82-131 | applying the same endpoint twice is the same as once |
| NetMock.OrdersComplete | lib/tether/net_linux_test.go:82-134 | every arrangement of the three networks is one of the six orders considered |
| NetMock.OutcomeAnyOrder | lib/tether/net_linux_test.go:82-156 | in every visiting order the three endpoints give the asserted table |
| NetMock.SetIpAddressOutcome | lib/tether/net_linux_test.go:146-156 | from any well-formed table that has no "bridge" or "external" interface yet, and with the bridge's address distinct from cnet's, "bridge" has two addresses (the bridge's and cnet's), "external" has the gateway alone, and eth1 and eth2 are gone |
| NetMock.Mocker.SetIpAddress | lib/tether/net_linux_test.go:49-157 | after adding eth1 and eth2 and applying the endpoints in the given order, the mocker's table meets the test's three assertions |
| Strings.JoinSplit | cmd/vic-machine/create/create.go:1051 | joining the pieces of a split gives the string back |
| Strings.SplitJoin | cmd/vic-machine/create/create.go:1051 | splitting a join of `:`-free pieces gives the pieces back |

## Left out

- Signal subscription (`signal.Notify`), `prctl(PR_SET_CHILD_SUBREAPER)`, the reaper goroutine and its `for range incoming` loop, and its panic recovery: concurrency and OS registration. One wake-up is modelled, and the close of `done` by another goroutine is the parameter `closedAt`.
- Target.Target.HasCredentials: the URL is a value, so the write of the user info through the shared `*url.URL` (target.go:116) is seen only through the target's own field; other holders of that pointer are not modelled.
- A wait result that arrives after the done check found the channel open is reaped. The model makes this choice and does not drop such a result.
- `establishPty`, process launch and terminal streams in tether_linux.go: OS I/O.
- `os.Stat` and the mode bits in `findExecutable`: file-system calls, taken as the predicate `executable`.
- Toolbox `NewToolbox`, `Start`, `Stop` and `InContainer`: service start-up and handler registration with the vSphere toolbox library. The locks `sess` and `session.m` are left out; the model is sequential.
- Toolbox `msgs.SignalMsg.FromString` is the parameter `parseSignal`; `Process.Signal` and `Process.Kill` are represented by their outcomes `delivered` and `killed`.
- Toolbox.Toolbox.Authenticate: the binary decoding of the credential is taken as given; `credential` is None when it fails.
- `processParams` flag-parsing, certificate loading and insecure-registry URL parsing: library calls, represented by the booleans `certificatesOk` and `registriesOk`.
- `net.ParseIP`, `net.ParseCIDR`, `ip.ParseIPandMask`, `ip.ParseRange`, `net.LookupIP` and `IPNet.Contains`: library parsing and name resolution, taken as function parameters.
- VnetParams.ParseVnetParam: the function has no contract of its own. Its outcome is stated by `ParseVnetParamOutcome` and `ParseVnetParamRoundTrip`.
- Create.Create.ProcessDNSServers: the warning logged for more than three servers is not modelled. The servers are all kept.
- Create.Create.ProcessParams is proved through `CheckBasics`, `ProcessSteps`, `ProcessAddresses` and `ProcessNetworksAndStores`, which split the one Go function into its stages. On an error after the basic checks these composite methods state that some step rejected the configuration, and that a volume-store failure carries the format error. They do not say which step's error is returned for the others; `ProcessAddresses` says only that its error is a bridge-range, network or DNS error, and the single steps state their own errors.
- Target.Target.HasCredentials follows the corrected resolution `Resolve` (see Findings): a failed prompt is an error there. `Create.Create.CheckBasics` and `Create.Create.ProcessParams` inherit this, so a failed prompt fails them with `Credentials(PasswordReadFailed)`, where the code as written (create.go:441 and target.go:104-110) goes on with an empty password.
- ChildReaper.Reaper.StopReaper: requires a reaper not yet stopped. A second call panics in the source, because Go panics on closing a closed channel; that panic is not modelled.
- The terminal prompt (`terminal.ReadPassword`) in target.go: terminal I/O, taken as the parameter `prompt`.
- A nil `url.Userinfo` is read as the user "" with no password, as current Go's nil-safe methods do.
- lib/tether/net_linux.go, netlink, `/etc/hosts` and `resolv.conf`: not part of this model. Endpoint application is the reference model `NetMock.Apply`. Default routes, DHCP and DNS settings of endpoints are not modelled.
- NetMock.Apply: an endpoint asking for a rename onto a name another interface already has changes nothing. The source of the real step is not part of this model, and the test never triggers that case.
- The order in which Go iterates the endpoint map is unspecified; it is the parameter `order`, and the outcome is proved for all six orders.
- NetMock.Atoi: overflow of Go's `int` is not modelled; slots are unbounded integers.
- The mock's other link operations (`LinkSetUp`, `LinkSetName`, `AddrAdd` and the lookups) are folded into `Apply`.
- lib/install/management/upgrade.go and lib/apiservers/engine/backends/backends.go: remote vSphere tasks and HTTP clients, outside the modelled logic.

## Findings

| source | as written | input that shows it | evidently intended | confidence | as-written member | corrected member |
|---|---|---|---|---|---|---|
| cmd/vic-machine/common/target.go:104-108 | when `terminal.ReadPassword` fails, an error is built but never returned; the target goes on with the empty password read | `--target` with user `root`, no password in the flag or the URL, and a terminal that cannot be read | a failed password read makes `HasCredentials` fail with "Failed to read password from stdin" | not executed | Target.PromptFailureGivesEmptyPassword | Target.Target.HasCredentials |
