# Verified model of the tunnet-lite client

tunnet-lite keeps a directory of proxy nodes fresh, chooses an exit and an entry pool from it, renders a
proxy configuration and runs it. Between its network calls sit small state machines, orders and encodings.
This project models those in Dafny and proves what they guarantee for every input and every run. Server
replies, dial results, file writes, random draws and goroutine scheduling are inputs, never assumptions.

Code that updates state is modelled by classes and methods (`Sessions.Session`, `Pinning.Store`,
`Engines.Engine`, `Transports.EchDialer`, `Rules.Fetcher`, `Updating.Updater`, `Supervising.Supervisor`,
`Inventories.Draft`). Each method is proved against a specification function or a declarative
postcondition, and the run theorems are lemmas about those specifications. Each specification function also has
lemmas that say what it means in terms of its inputs alone.

| file | what it models |
|---|---|
| Session.dfy, SessionRuns.dfy, SessionOutcomes.dfy | the refresh protocol over memory, disk and server, its whole-run theorems, and what one refresh or opening comes to |
| Inventory.dfy, Directory.dfy, Version.dfy | inventories, merging and key normalisation; decoded payloads; the version order |
| Diff.dfy, Updater.dfy | change reports and the watcher that acts on them |
| Pinning.dfy, PinningRuns.dfy | the pin store, one verification at a time and interleaved |
| Probe.dfy, Xcfg.dfy, Engine.dfy, Supervisor.dfy | ranking, rendering, the engine, and the calls that join them |
| Client.dfy, Transport.dfy, Rules.dfy | request binding, the ECH retry dialer, verified downloads |
| System.dfy | refreshes, restarts, launches and the watcher sharing one disk |
| Base64.dfy, Text.dfy, Wrappers.dfy | the library behaviour the above rests on |

## Results worth knowing

Five statements one would expect are false of the code. Each is stated here with its exact condition.

- A saved root domain is kept while the pool holds it, as internal/inventory/inventory.go:160-163 says,
  except that the empty name doubles as "nothing saved": `Supervising.StickyIff` gives the exact
  condition and `Supervising.EmptyRootIsNotSticky` the counterexample.
- TOFU pins are written once when verifications do not overlap. When two first uses overlap, the later
  one replaces the earlier one's pins: `PinningRuns.OverwriteExactlyByStaleLook` says exactly which step
  does it, `PinningRuns.OverlappingFirstUsesCollide` runs it.
- The comment at internal/xcfg/xcfg.go:83-86 asks for an interval above the timeout. The defaults ensure
  it except for timeouts where four times the value wraps around 64 bits, and whole-second printing can
  make the two equal: `Xcfg.IntervalExceedsTimeoutIff`, `Xcfg.RenderedIntervalExceedsTimeoutIff`,
  `Xcfg.RenderedIntervalCanEqualTimeout`.
- The watcher's "nothing changed" is an equivalence, but not equality: a new client id, display name or
  front proxy alone is never installed (`Updating.UnwatchedFieldsStayStale`), and the same key in another
  base64 variant counts as a rotation (`Diff.ReencodedKeyReportedAsRotated`).

- The comment at internal/control/version.go:27-29 says that a malformed version is not treated as newer than
  a real one. `Versions.MalformedNeverAbove` proves it for versions without any number, but a larger number in
  front of the malformed component is enough to be newer (`Versions.PartlyMalformedMayBeAbove`);
  `Versions.JoinedBelowIff` gives the exact condition for any two versions.

## Model

| member | source | states |
|---|---|---|
| Sessions.Session.RefreshDirectory | internal/control/session.go:77-140 | the step-by-step refresh leaves exactly the memory, both files, the requests sent and the two results of the protocol function, for any replies and write outcomes |
| Sessions.Session.TrySyncing | internal/control/session.go:178-203 | sync with one retry at the server's floor: version, requests and merged directory |
| Sessions.Session.ParseSyncPayload | internal/control/session.go:205-217 | a sync is merged onto a loadable previous file before it is validated |
| Sessions.Session.CompleteWith | internal/control/session.go:163-173 | an access answer counts only if it is whole, valid and written; beside a write error the directory is still returned |
| Sessions.Session.Open | internal/control/session.go:49-70 | opening loads a stored identity, creates and saves a missing one, and fails on any other |
| SessionRuns.RefreshWrites | internal/control/session.go:77-140 | the inventory file changes only when Refresh returns nil, and then to the returned valid inventory, which is the received directory completed from the file it replaces |
| SessionRuns.InventoryFileSafe | internal/control/session.go:205-232 | over any refreshes and restarts an absent or valid inventory file stays absent or valid |
| SessionRuns.FieldsMostRecent | internal/inventory/inventory.go:50-70 | after any run each of the four fields on disk is the most recent non-empty value received |
| SessionRuns.SourceIsReal | internal/control/session.go:77-140 | every directory Refresh obtains was read from the reply it names |
| SessionRuns.TicketFollowsSource | internal/control/session.go:142-160 | a pending ticket is dropped exactly by calls that got a whole directory from access or bootstrap; sync keeps it; a call without a directory keeps it or replaces it by its own bootstrap's ticket; a reported ticket is remembered |
| SessionRuns.ApprovedTicketRedeemed | internal/control/session.go:83-93 | a ticket approved between two processes is redeemed by the next one whenever its sync fails for any reason, without a bootstrap, and cleared |
| SessionRuns.TicketDurable | internal/control/session.go:142-160 | while saves succeed, memory and identity file never differ, so a restart loses no ticket |
| SessionRuns.IdentityKept | internal/control/session.go:49-70 | no run, failed saves included, replaces a stored client id or signing key |
| SessionRuns.RefreshSucceedsIff | internal/control/session.go:72-140 | Refresh returns nil exactly through the first of its four sources that delivers and is written |
| SessionRuns.RequestShape | internal/control/session.go:77-140 | one refresh's requests in order, each sent exactly when it is due (first sync, second sync, redemption, bootstrap, approval, completion), with the versions and tickets they carry |
| SessionRuns.VersionNeverDrops | internal/control/session.go:188-196 | within one session the reported version never goes down |
| SessionOutcomes.SyncUsableExactly | internal/control/session.go:205-217 | with a usable inventory file a sync answer is usable exactly when the hosts and groups it carries are, without one exactly when it is valid on its own, and each field comes from it or else from the file |
| SessionOutcomes.PartialSyncMerges | internal/control/session.go:77-81 | a sync without root domains, or without any other field, succeeds on top of a valid file, and the merged directory is returned and on disk |
| SessionOutcomes.PartialResyncMerges | internal/control/session.go:188-203 | the same for the second answer after the server's floor was adopted |
| SessionOutcomes.BootstrapFailureNamed | internal/control/session.go:95-140 | which error the bootstrap stage returns, each exactly when, with the ticket and the URL a human is sent to |
| SessionOutcomes.RefreshFailureNamed | internal/control/session.go:77-93 | Refresh returns the bootstrap stage's result exactly when sync and redemption both failed, and otherwise nil or a failed write |
| SessionOutcomes.OpenExactly | internal/control/session.go:51-70 | a stored identity is used, a missing one created if it can be saved, and an unreadable or incomplete file fails and stays |
| SessionOutcomes.DamagedFileKept | internal/control/identity.go:54-76 | no number of restarts or refreshes overwrites an unreadable or incomplete identity file |
| Inventories.Draft.FillMissingFrom | internal/inventory/inventory.go:54-70 | in-place update equals the field-wise merge |
| Inventories.MergeLaws | internal/inventory/inventory.go:50-70 | merging is associative, idempotent and left-biased, with the empty inventory as unit |
| Inventories.MergeOntoValid | internal/inventory/inventory.go:87-114 | on top of a valid inventory a partial one validates exactly when the fields it carries do |
| Inventories.ValidExactly | internal/inventory/inventory.go:87-114 | what validation accepts, down to keys some base64 variant decodes to 32 bytes, and nothing else |
| Inventories.TrialOrderIrrelevant | internal/inventory/inventory.go:118-128 | the order in which the four base64 decoders are tried never changes the answer |
| Inventories.NormalizesEveryVariant | internal/inventory/inventory.go:116-128 | each of the four encodings of any 32 bytes, line breaks included, normalises to its raw URL form |
| Inventories.NormalizedIffDecodes | internal/inventory/inventory.go:118-128 | a key is accepted exactly when some decoder reads 32 bytes from it |
| Inventories.NormalizedKeyIdempotent | internal/inventory/inventory.go:118-128 | the normal form has 43 characters and is its own normal form |
| Inventories.SameNormalForm | internal/inventory/inventory.go:118-128 | two keys share a normal form exactly when they decode to the same bytes |
| Inventories.SelectHostFirst | internal/inventory/inventory.go:131-144 | the first matching host is returned, and an error only when none matches |
| Inventories.SelectGroupFirst | internal/inventory/inventory.go:146-158 | the first group for an empty name, else the first whose name folds to or contains the request, and an error only when none does |
| Base64.DecodersAgree | internal/inventory/inventory.go:119-126 | any two decoders accepting a text read the same bytes |
| Base64.AcceptedIsEncoding | internal/inventory/inventory.go:119-126 | besides line breaks a decoder accepts only encodings of the bytes it returns, apart from unused bits of the last symbol |
| Base64.DecodeEncode | internal/pinning/pinning.go:106-111 | decoding inverts encoding in all four variants |
| Directories.ParseDirectory | internal/control/directory.go:66-96 | the appending loops build the translated directory, nested envelope first |
| Directories.DirectoryFieldwise | internal/control/directory.go:43-96 | every field of the directory is its namesake in the runtime section in force, host by host and group by group in order |
| Versions.VersionLess | internal/control/version.go:30-50 | the index loop decides lexicographic order on infinite zero-padded integer sequences |
| Versions.PartOfJoined | internal/control/version.go:41-50 | each component is the 64-bit number it denotes without outer spaces, and zero if it denotes none or is missing |
| Versions.DottedParts | internal/control/version.go:41-50 | numbers joined with dots read back as themselves, continued with zeros |
| Versions.JoinedBelowIff | internal/control/version.go:27-39 | any two versions, malformed ones included, compare as the numbers of their components |
| Versions.MalformedNeverAbove | internal/control/version.go:27-29 | a version without any number is never above one written with natural numbers |
| Versions.PartlyMalformedMayBeAbove | internal/control/version.go:27-29 | one unreadable component does not keep a version from being above a real one |
| Versions.BelowTransitive | internal/control/version.go:27-39 | the version order is transitive |
| Versions.NotBelowTransitive | internal/control/version.go:27-39 | so is its incomparability, making it a strict weak order |
| Versions.IncomparableIffEqualParts | internal/control/version.go:27-50 | versions tie exactly when every padded component is equal |
| Diff.Compare | internal/inventory/diff.go:60-104 | each list is the sorted (and for hosts and groups duplicate-free) list of exactly its changes |
| Diff.SortedMissing | internal/inventory/diff.go:122-131 | any map iteration order gives the one sorted list of missing keys |
| Diff.SameAddresses | internal/inventory/diff.go:144-154 | pools are the same exactly when equal as multisets |
| Diff.LastWinsMeaning | internal/inventory/diff.go:106-120 | lookup tables keep the last item of each name |
| Diff.EmptyIffEquivalent | internal/inventory/diff.go:27-33 | a report is empty exactly when the inventories agree on everything compared |
| Diff.HostReported | internal/inventory/diff.go:60-104 | what the report says of any one host, told from where it stands last in each list |
| Diff.GroupReported | internal/inventory/diff.go:60-104 | the same for entry groups and their pools |
| Diff.RootReported | internal/inventory/diff.go:133-142 | how often each root domain is reported as added or removed |
| Diff.EmptyReflexiveSymmetric | internal/inventory/diff.go:60-104 | "nothing changed" is reflexive and symmetric |
| Diff.EmptyTransitive | internal/inventory/diff.go:60-104 | "nothing changed" is transitive |
| Diff.ReportUnique | internal/inventory/diff.go:60-104 | the report is determined by the two inventories |
| Diff.ReportDual | internal/inventory/diff.go:60-104 | comparing the other way swaps added/removed and online/offline and keeps the rest |
| Diff.ReplayReachesLast | internal/inventory/diff.go:60-104 | replaying all reports of a run turns the first name sets into the last |
| Diff.ReencodedKeyReportedAsRotated | internal/inventory/diff.go:82-84 | the same key bytes in another variant are reported as a rotation |
| Updating.Updater.Run | internal/updater/updater.go:32-73 | the polling loop installs exactly the directories that differ from the current one, and always advances |
| Updating.WatchLast | internal/updater/updater.go:48-71 | one more poll: every fetched directory is compared with the one fetched before it and installed exactly if different, and a failed one changes nothing |
| Updating.CancelEnds | internal/updater/updater.go:40-52 | nothing is polled after a cancellation |
| Updating.InstalledAgreesWithFetched | internal/updater/updater.go:48-71 | over any polls the installed inventory agrees with the last fetched, and every installation differs from the one before |
| Updating.UnwatchedFieldsStayStale | internal/updater/updater.go:62-66 | a directory changing only client id, display names or front proxies is never installed |
| Pinning.Store.VerifyChains | internal/pinning/pinning.go:131-157 | one verification is a read step followed by a decision step on the presented keys |
| Pinning.Store.Set | internal/pinning/pinning.go:82-104 | invalid or unwritten entries leave memory and file alone; otherwise both hold the sorted entry |
| Pinning.SetExactly | internal/pinning/pinning.go:82-104 | setting changes one host's pins to the sorted given ones, in memory and file alike, or changes nothing |
| Pinning.ValidEntryExactly | internal/pinning/pinning.go:171-194 | an entry is accepted exactly with a host, at least one pin, and 32 bytes in every pin |
| Pinning.OpenStoreExactly | internal/pinning/pinning.go:55-74 | a blank path, an unreadable file and any ill-formed entry fail, an absent file is empty, any other is the store it holds |
| Pinning.VerdictExactly | internal/pinning/pinning.go:131-157 | every verdict exactly when, and what a verification does to the store |
| Pinning.ChainPins | internal/pinning/pinning.go:159-169 | the presented keys are listed without repetition and are exactly those of all chains |
| Pinning.PresentedIsValid | internal/pinning/pinning.go:106-111 | keys taken from certificates always make a well-formed entry |
| PinningRuns.StoreStaysCoherent | internal/pinning/pinning.go:55-104 | through any operations and failed writes memory equals the last written file, all entries valid, and reopening changes nothing |
| PinningRuns.DamagedPinsKept | internal/pinning/pinning.go:59-73 | a pin file that cannot be read or is ill-formed is never taken for an empty store: no restart opens or overwrites it |
| PinningRuns.InterleavingKeepsCoherent | internal/pinning/pinning.go:76-104 | the same agreement after every step of every interleaving |
| PinningRuns.AloneIsVerify | internal/pinning/pinning.go:134-157 | the two critical sections of a verification that nothing interrupts amount to one verification |
| PinningRuns.StrictRefinesTofu | internal/pinning/pinning.go:135-156 | strict never writes; what it accepts TOFU accepts without writing; what TOFU accepts strict accepts next |
| PinningRuns.PinsWrittenOnce | internal/pinning/pinning.go:141-148 | one at a time, verifications never replace stored pins |
| PinningRuns.LaterAcceptanceIsIntersection | internal/pinning/pinning.go:131-157 | after a recorded first use, acceptance is exactly sharing a key with it |
| PinningRuns.PinsComeFromAnEarlyVerifier | internal/pinning/pinning.go:76-104 | under every interleaving pins are empty or the sorted keys of a verifier that found none |
| PinningRuns.SettledForever | internal/pinning/pinning.go:131-157 | once such verifiers are done, no interleaving changes the pins |
| PinningRuns.OverwriteExactlyByStaleLook | internal/pinning/pinning.go:141-147 | the exact step that replaces recorded pins |
| PinningRuns.OverlappingFirstUsesCollide | internal/pinning/pinning.go:141-147 | two overlapping first uses: the second replaces the first |
| Probing.RankTCP | internal/probe/probe.go:31-50 | for any finishing order the result is the stably sorted arrangement of the outcomes |
| Probing.StableUnique | internal/probe/probe.go:43-48 | the stably sorted arrangement is unique |
| Probing.Reachable | internal/probe/probe.go:66-74 | exactly the answering addresses, in order |
| Probing.RankingMeaning | internal/probe/probe.go:27-50 | answering addresses fastest first, then the rest in input order; a cut keeps the fastest |
| Probing.SortedPositions | internal/probe/probe.go:43-48 | the ranking lists every address once, answering ones first, then by time, then by position |
| Supervising.Supervisor.RankEntries | internal/supervisor/supervisor.go:156-177 | probing, filtering and truncating give the answering addresses of the group fastest first, told from the dials |
| Supervising.EntriesByDial | internal/supervisor/supervisor.go:156-177 | every kept entry answered when dialled, sooner ones come first, ties in the given order, and a cut leaves out only later ones |
| Supervising.Supervisor.ResolvePlan | internal/supervisor/supervisor.go:49-124 | plan, configuration and saved root on every success and error path, the plan also beside a rendering error |
| Supervising.ReachesRootIff | internal/supervisor/supervisor.go:50-63 | with a valid inventory the choices before the root fail only because no host or no group matches |
| Supervising.RootChosenExactly | internal/inventory/inventory.go:160-175 | a pinned root decides alone, whatever was saved; then a saved root the pool holds; then the draw; and what is used is saved if it can be |
| Supervising.PinnedRootUsed | internal/supervisor/supervisor.go:65-75 | a launch with a pin runs under it and saves it, or fails and leaves the saved root alone |
| Supervising.ResolveSucceedsIff | internal/supervisor/supervisor.go:49-124 | exactly when a plan and a configuration result, in terms of matches, pool, dials, front proxy and port |
| Supervising.PlanBesideErrorIff | internal/supervisor/supervisor.go:100-124 | exactly when a plan is returned beside an error |
| Supervising.PlanFollowsInputs | internal/supervisor/supervisor.go:49-124 | the plan describes the first matching host and group, its entries are the fastest first, and the configuration is built from the same parts and the caller's own options |
| Supervising.FallbackIsFastest | internal/supervisor/supervisor.go:154-177 | the fallback outbound dials an address of the group that answered, no answering address of it being faster when dialled; the configuration is closed and its entries are the plan's |
| Supervising.ConfigServesPlan | internal/supervisor/supervisor.go:100-119 | every entry authenticates as the client, names the plan's host under a root of the pool, carries its normalised key, and is fronted exactly unless switched off |
| Supervising.StickyIff | internal/inventory/inventory.go:160-175 | exactly which saved roots are kept while the pool holds them |
| Supervising.EmptyRootIsNotSticky | internal/inventory/inventory.go:171-174 | two draws from a pool with an empty name give two roots |
| Supervising.RootChangesOnlyWhenDropped | internal/supervisor/supervisor.go:65-75 | over any launches, failed saves included, the saved root changes only into the pool, and only if dropped or empty |
| Supervising.RootInUseChangesOnlyWhenDropped | internal/supervisor/supervisor.go:65-75 | over any launches two different roots in use mean a pool dropped the first in between, or it was empty or could not be saved |
| Supervising.RootKept | internal/supervisor/state.go:9-35 | while every pool holds the saved root, it never changes and every launch that chooses uses it, failed saves included |
| Supervising.RunningPlanHasEntry | internal/supervisor/supervisor.go:127-137 | over any starts and stops the running plan has a first entry and no instance leaks |
| Engines.Engine.ApplyPlan | internal/engine/engine.go:55-79 | stop, load, create and start, with the state after each failure |
| Engines.EngineShowsLastOp | internal/engine/engine.go:49-101 | after any history the running plan is the one last applied, if that came up, and the recorded error is that of the last application |
| Engines.EngineConserves | internal/engine/engine.go:49-112 | created equal closed plus the running one; no instance is created while another is open; running exactly when a plan is present |
| Xcfg.Build | internal/xcfg/xcfg.go:153-211 | the appending loops render the specified configuration, or fail on invalid options or endpoint |
| Xcfg.BuildSucceedsIff | internal/xcfg/xcfg.go:133-151 | exactly which options are rendered |
| Xcfg.TrafficReachesBalancer | internal/xcfg/routing.go:82-107 | private destinations go out directly, in smart mode so do the listed ones, and everything else goes to the balancer |
| Xcfg.CatchAllIsLast | internal/xcfg/routing.go:82-107 | only the last rule has no list, and it alone goes to the balancer, for TCP and UDP |
| Xcfg.OutboundsFollowOptions | internal/xcfg/xcfg.go:160-182 | entries, front proxy and direct outbound carry the given options or the documented defaults, the flow rules included |
| Xcfg.InboundFollowsOptions | internal/xcfg/xcfg.go:94-131 | inbound, log level and domain strategy follow the given options or the defaults |
| Xcfg.HealthFollowsOptions | internal/xcfg/xcfg.go:112-124 | probe page, timeout and interval follow the given options or the defaults, each printed in whole seconds |
| Xcfg.RenderedTagsDistinct | internal/xcfg/xcfg.go:160-174 | all outbound tags differ |
| Xcfg.RenderedClosed | internal/xcfg/routing.go:84-107 | every tag named by a rule, the balancer or a dialer proxy resolves to exactly one part |
| Xcfg.SelectorPicksTheEntries | internal/xcfg/xcfg.go:160-189 | the prefix selector picks exactly the entries in order; a front proxy exists exactly when every entry dials through it |
| Xcfg.IntervalExceedsTimeoutIff | internal/xcfg/xcfg.go:116-121 | exactly when the defaults leave the interval above the timeout in 64-bit arithmetic |
| Xcfg.RenderedIntervalExceedsTimeoutIff | internal/xcfg/xcfg.go:290-292 | printed in whole seconds it is never below, and above exactly when it reaches the next whole second |
| Xcfg.RenderedIntervalCanEqualTimeout | internal/xcfg/xcfg.go:290-292 | 1.2 s and 1.5 s are both printed as one second |
| Requests.InfoReadsBack | internal/control/client.go:247-258 | operation, client id and nonce read back from the info string, so no answer opens under another call |
| Requests.InfoText | internal/control/client.go:247-258 | the info string is the version, operation and client id, each ended by a zero byte, and the nonce |
| Requests.ParamsReadBack | internal/control/client.go:229-232 | the signature parameters read back for any client id |
| Requests.ParamsText | internal/control/client.go:225-232 | the parameters spelled out, for any client id and operation |
| Requests.ParamsExpire | internal/control/client.go:229-232 | the expiry reads back as two minutes after the creation |
| Requests.SignatureBaseReadsBack | internal/control/client.go:234-245 | the whole request reads back from what is signed |
| Requests.SignatureBaseText | internal/control/client.go:234-245 | the signed text is the eight labelled lines in order |
| Requests.SignatureBaseInjective | internal/control/client.go:227-245 | two requests with one signature base are the same request |
| Transports.EchDialer.DialTLS | internal/control/transport.go:137-151 | one call on its own is the run of its atomic steps |
| Transports.SoloExactly | internal/control/transport.go:137-173 | one call on its own, told from its handshakes: one retry, exactly after a rejection that brought a list, which is then stored |
| Transports.OfferFollows | internal/control/transport.go:137-151 | a first dial offers the config stored at that moment, a second one the list its own server sent |
| Transports.OffersStayKnown | internal/control/transport.go:117-173 | under every interleaving each handshake offers the initial config or a list some server sent |
| Transports.DialerSound | internal/control/transport.go:117-173 | under every interleaving: at most two dials, no raw connection leaked, ECH accepted under the hook, and only server-sent lists adopted |
| Transports.ConfigNeverEmpty | internal/control/transport.go:125-148 | a dialer that starts with a config never loses it |
| Rules.Fetcher.FetchOne | internal/rules/fetch.go:59-92 | exactly when a file is fetched and which error it ends with; nil means the digest matches, an error leaves the target alone, and downloads stop at the first good one or after the allowed attempts |
| Rules.AttemptsIsMax | internal/rules/fetch.go:71 | at least one attempt, and otherwise as many as configured |
| Rules.Fetcher.Fetch | internal/rules/fetch.go:47-57 | exactly when both files are fetched; each holds its old bytes or bytes of its own digest, and success means both digests match |
| Systems.RootSurvivesRootlessSyncs | internal/control/session.go:205-217 | any number of refreshes without a root pool, restarts and launches keep the pool on disk and the saved root, and every launch that resolves uses it |
| Systems.InstalledAgreesWithDisk | internal/updater/updater.go:48-71 | the watcher's installed inventory agrees with the inventory file, wherever it stops |

## Left out

- Network, TLS, HPKE, signatures and hashing: their outcomes are inputs; a certificate is its key digest.
- JSON: decoded records are the starting point, and what is written is read back unchanged. The independent readers of one payload may fail independently.
- File writes that stop half-way: a write replaces the whole file or changes nothing, although the source truncates in place.
- Two processes or two refreshes of one session at the same time, and the console's own refresh, which installs without telling the watcher.
- Sessions.Session.RefreshDirectory: waits are only "waited" or "cancelled", and the retry-after value is taken after its conversion to a duration.
- Error texts, logging and the order of presented keys inside a mismatch error.
- Strings are sequences of Unicode characters; byte sequences that are not valid UTF-8 are not modelled. In the HPKE info string operation and client id are bytes.
- Case-insensitive group matching (strings.EqualFold) and endpoint splitting are parameters of the model.
- Xcfg.RenderedIntervalExceedsTimeoutIff: seconds are truncated exactly; the source goes through float64, which agrees below 2^22 seconds.
- Xcfg.Build: leaves out the fixed transport settings and browser headers of an entry outbound and the inbound's tag, which never vary.
- Xcfg.TrafficReachesBalancer: takes from the proxy core that the first matching rule decides; which destinations a list names is an input.
- Engines.Engine.ApplyPlan: the start time and the recorded error's text.
- Requests.ParamsReadBack: covers operations without quotes and 16-byte nonces, which is all the client sends.
- DNS over HTTPS, path discovery, command-line handling, the console, and the verification-URL scan: plumbing that would only add easy members.
