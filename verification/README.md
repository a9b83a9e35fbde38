# Gridlane routing model

Gridlane is a stateless router in front of pools of browser backends. It picks a
backend for every new WebDriver session or Playwright upgrade, hands the client a
public session id that names the backend, and lets any replica route later
requests from that id alone. Backends that fail are taken out of new placement
for a while; the configuration can be replaced while requests are in flight;
every request is counted.

This project models those four mechanisms in Dafny and proves what they are for.
`dafny verify dfyconfig.toml` checks all of it.

| file | part of the router |
|---|---|
| `HealthSpec.dfy` | one backend's health as a state machine, and as a statement about its event history alone |
| `Health.dfy` | the health manager: mutable states behind one lock, proved against `HealthSpec` |
| `Routing.dfy`, `Placement.dfy` | capability expansion, catalog match, region fallback, weighted choice; exact shares |
| `SessionId.dfy`, `SideRoute.dfy`, `Proxy.dfy`, `Playwright.dfy` | public ids, token index, path rewriting, body rewriting, minting |
| `CreateSession.dfy`, `Overlap.dfy`, `ReverseProxy.dfy` | one new-session attempt end to end; unusable answers side by side; shaping of upstream requests |
| `MetricsSpec.dfy`, `Metrics.dfy` | counters and histograms as a log of observations; the accumulator that keeps them |
| `Config.dfy` | the configuration's rules and the loops that check them |
| `System.dfy`, `Reload.dfy`, `Service.dfy` | replicas, reloads and requests in flight as one step system; the object whose methods are its steps; whole requests as runs of it |
| `Strings.dfy`, `Json.dfy`, `Iteration.dfy`, `Wrappers.dfy` | strings, JSON trees, map iteration order, options and results |

How to read it:

* A class method is proved against a function of the old state (`HealthSpec.ApplyAll`,
  `MetricsSpec.Counts`, `System.Local`, ...), kept in a ghost field beside the real
  ones. The lemmas about those functions then speak of every run.
* Clock readings are parameters. Lemmas that need a nondecreasing clock say so
  (`Sorted`); the others hold for any clock.
* The route token is the hex form of an arbitrary function from backend ids to 16
  bytes. Affinity assumes that tokens are distinct over all ids ever configured
  anywhere; one load only checks its own ids.
* Random numbers are parameters: `draw` answers each positive bound with any
  smaller number.

Where the code falls short of a plausible promise, the exact condition is proved:

* A backend that answers new sessions with a 2xx status and no usable session id
  reports a success and then, separately, a failure each time. Such answers can
  take it out of rotation if and only if at least as many attempts overlap as its
  threshold counts, and its cooldown is positive (`Overlap.UnusableTripsByOverlap`);
  one after the other they do so only at threshold 1.
* A single scrape can change later availability if and only if it clears an expired
  deadline of a backend with a threshold above 1 and a positive cooldown, and then it
  can do so in either direction: prevent a later outage or cause one
  (`HealthSpec.OneScrapeMatters`). Removing all scrapes from a run can only take a
  backend out of rotation more often.
* An upstream session id that starts with `/` cannot be addressed again
  (`Proxy.WebDriverPathInversion`); on `/video/` and `/logs/` neither can one whose
  first segment is just `.mp4` or `.log` (`Proxy.SidePathRewriting`).

Where code and documentation disagree, the model follows the code:

* `docs/backend-health.adoc:70` promises a fresh counter once a cooldown expires.
  The code clears it only on a success or a snapshot (`HealthSpec.ExpiryKeepsTheCounter`).
* `docs/reload-sighup.adoc:32` promises that surviving pools keep their health.
  Every load builds a new manager (`System.GenerationHealth`).
* `docs/session-id-format.adoc:10` says 16 hex characters per token; the code emits 32
  (`SessionId.TokenShape`).
* `docs/playwright-routing.adoc:63` says versions match exactly; the code matches by
  prefix, in one direction (`Routing.CatalogSupports`).
* WebDriver Level 1, section 7.2, rejects a capability named in both `alwaysMatch`
  and a `firstMatch` entry; the code lets `firstMatch` win (`Placement.EntriesOverrideAlways`).

## Model

| member | source | states |
|---|---|---|
| `HealthSpec.RunRefinesHistory` | internal/health/health.go:75-123 | For every run on an enabled backend, counter and deadline follow from the event log alone: failures since the last effective reset; a deadline iff these reach the threshold, one cooldown after the last failure; unavailable iff that deadline is ahead |
| `HealthSpec.AvailabilityFromHistory` | internal/health/health.go:64-123 | The same for the whole manager: unknown ids are unavailable, disabled backends always available, every other decided by its own projected history |
| `HealthSpec.RunKeepsInStep` | internal/health/health.go:75-123 | Deadline set iff the counter reached the threshold, after any run |
| `HealthSpec.DeadlineNeverEarlier` | internal/health/health.go:75-108 | With a nondecreasing clock, no event dated before a deadline removes it or moves it earlier |
| `HealthSpec.NoEarlyRecovery` | internal/health/health.go:75-108 | Nothing reported or scraped during a cooldown makes the backend available before its end |
| `HealthSpec.BoundedCooldown` | internal/health/health.go:93-108 | An unavailable backend has a failure less than one cooldown old |
| `HealthSpec.FirstTripTakesThreshold` | internal/health/health.go:93-108 | The event that trips is a failure, the threshold-th since the last effective reset, with no success in between, and its deadline is exactly one cooldown later |
| `HealthSpec.DisabledNeverTrips` | internal/health/health.go:75-108 | With health disabled no run changes anything |
| `HealthSpec.ErasureSimulates` | internal/health/health.go:110-123 | The run with all scrapes erased simulates the run with them, whatever the clock does |
| `HealthSpec.ScrapesOnlyPostpone` | internal/health/health.go:110-123 | Unavailable with the scrapes implies unavailable without them |
| `HealthSpec.ManagerErasure` | internal/health/health.go:110-123 | The same for every backend of a whole manager run |
| `HealthSpec.OneScrapeMatters` | internal/health/health.go:110-123 | For any run and any scrape in it: the scrape can make the backend unavailable in some later clock-ordered continuation where it would have been available, iff it can do the opposite, iff it clears an expired deadline with threshold above 1 and a positive cooldown |
| `HealthSpec.LastScrapeOnlyPostpones` | internal/health/health.go:110-123 | When no scrape follows, erasing a single one is a simulation, for any clock; in general `HealthSpec.OneScrapeMatters` decides |
| `HealthSpec.ScrapesCanPostpone` | internal/health/health.go:110-123 | A concrete outage that a scrape prevents, one instance of `HealthSpec.OneScrapeMatters` |
| `HealthSpec.OneMoreScrapeCanTrip` | internal/health/health.go:110-123 | A concrete outage that an added scrape causes, the other instance |
| `HealthSpec.ExpiryKeepsTheCounter` | internal/health/health.go:93-123 | After any successes and scrapes past the deadline, however many, the next failure trips again at once iff there were none or the threshold is 1 |
| `HealthSpec.RunAllProjects` | internal/health/health.go:64-123 | In any interleaved run a backend's state equals that of a run on its own reports and the scrapes |
| `HealthSpec.InterleavingsAgree` | internal/health/health.go:64-123 | Two runs that agree backend by backend end in the same state, however the backends' reports are interleaved |
| `HealthSpec.ReportsCommute` | internal/health/health.go:75-108 | Reports on different backends commute |
| `Health.PolicyOfPool` | internal/health/health.go:35-62 | With distinct ids each pool is governed by its own policy, not by another's |
| `Health.ConfiguredTrip` | internal/health/health.go:35-108 | In the configuration's own fields: n failures and nothing else make a pool unavailable iff its health is enabled, n reaches its threshold (1 if none is given) and its cooldown (30 seconds unless a duration is given) is not over |
| `Health.TripAsConfigured` | internal/health/health.go:35-108 | The same on a manager built from the configuration and told n failures |
| `Health.ByIdOfPool` | internal/health/health.go:35-62 | With distinct ids each backend is described by its own pool |
| `Health.Manager.constructor` | internal/health/health.go:35-62 | One untripped state object per backend, carrying its pool's region, endpoint and protocols, none shared with anything else |
| `Health.Manager.Available` | internal/health/health.go:64-73 | Reads the objects, returns what the history says, changes nothing |
| `Health.Manager.ReportSuccess` | internal/health/health.go:75-91 | The in-place update takes the specified step for this backend and leaves every other backend as it was |
| `Health.Manager.ReportFailure` | internal/health/health.go:93-108 | Likewise for a failure |
| `Health.Manager.Snapshot` | internal/health/health.go:110-144 | Clears exactly the expired cooldowns; one row per backend tells its state after that and carries its configured region, endpoint and protocols; ok iff some backend is available |
| `Health.RowForms` | internal/health/health.go:110-144 | A row is available iff no deadline is ahead, tells the counter as it is, and a deadline only while it lasts |
| `Health.Manager.PublicSnapshot` | internal/health/health.go:163-183 | Counts the backends and the available ones without clearing anything; ok iff some are available |
| `Health.OverallStatus` | internal/health/health.go:201-211 | ok iff some row is available |
| `Health.CountUpIsCardinality` | internal/health/health.go:163-183 | The count over rows is the number of available backends of the model |
| `Routing.CapabilityCandidates` | internal/routing/request.go:95-129 | Every client entry merged in order; fails iff no entry is an object |
| `Routing.ParseWebDriverNewSession` | internal/routing/request.go:31-55 | Usable requests in the client's order, entries without browser or device dropped; fails iff none is left or the document ends past 1 MiB |
| `Routing.CatalogSupports` | internal/routing/request.go:279-296 | True iff some browser matches name, protocol, version and platform, prefixes taken one way |
| `Routing.PrefixMatchAny` | internal/routing/request.go:304-312 | True iff the requested value starts with a declared one, ignoring case |
| `Routing.EntryServes` | internal/routing/request.go:279-312 | A browser serves its declared versions followed by anything and no version cut short; a platform matters only where platforms are declared; name and protocol must always match |
| `Strings.FoldIsLetterwise` | internal/routing/request.go:279-296 | Names compare letter by letter, and only the case of a letter may differ |
| `Routing.CandidateMembers` | internal/routing/request.go:219-251 | A pool is a candidate iff it is eligible and in region, or eligible while no eligible pool is in region; ids stay distinct |
| `Placement.CandidatesByField` | internal/routing/request.go:219-251 | In the pools' own fields: up, weighted and speaking the protocol, and of the wanted region wherever such a pool is; without a manager every pool is up |
| `Routing.Weighted` | internal/routing/request.go:253-268 | Subtracting through the weights finds the pool whose slot holds the draw; the trailing fallback is unreachable |
| `Routing.SlotUnique` | internal/routing/request.go:253-268 | Slots do not overlap |
| `Routing.OwnReading` | internal/routing/request.go:233-251 | With distinct ids a pool counts as up exactly by what was read for it, whatever was read for the others |
| `Routing.Selector.Candidates` | internal/routing/request.go:233-251 | The loop keeps exactly the pools eligible at their own readings, in configuration order, whether or not the manager changes between the readings |
| `Routing.Selector.SelectAcross` | internal/routing/request.go:219-231 | With each pool read on its own, in up to two passes: succeeds iff the catalog supports the request and a pass lists a pool, with the pool whose slot the draw hits; the pool served was up at its own reading |
| `Routing.Selector.Select` | internal/routing/request.go:219-231 | When nothing changes meanwhile: succeeds iff the catalog supports the request and some pool is eligible, with the pool whose slot the draw hits; otherwise says which of the two is missing |
| `Routing.Selector.SelectFirst` | internal/routing/request.go:204-217 | Serves the least-index satisfiable request; fails iff there is none, with the last request's reason |
| `Placement.ExactShares` | internal/routing/request.go:219-268 | Of all draws below the total, a candidate wins exactly its weight and any other pool none |
| `Placement.EveryDrawHasOneWinner` | internal/routing/request.go:253-268 | Each draw has one winner, no more |
| `Placement.PlacementFollowsHealth` | internal/routing/request.go:233-268 | Manager and selector together: a backend cooling by its history wins no draw, any other listed one its full weight |
| `Placement.ShareReturnsAtDeadline` | internal/health/health.go:64-108 | The share is zero before the deadline and whole from it on |
| `Placement.LeastSatisfiableEntry` | internal/routing/request.go:31-55 | The request served comes from the first entry of the client's own list that can be served now |
| `Placement.NoSatisfiableEntry` | internal/routing/request.go:204-217 | Failure means that no entry of the client's list can be served |
| `Placement.EntriesOverrideAlways` | internal/routing/request.go:57-129 | From payload to request: an entry counts iff it is an object and it or `alwaysMatch` (if that is an object) names a browser or device; every field of the request is the entry's own value where it names the key, else the shared one |
| `Placement.LoneEntry` | internal/routing/request.go:95-129 | Without a nonempty `firstMatch` there is one entry: `alwaysMatch`, or the capabilities themselves if that is empty |
| `Placement.LegacyEntry` | internal/routing/request.go:125-128 | Without a `capabilities` object the only entry is `desiredCapabilities`, and without that object there is none |
| `Placement.BrowserOfEntry` | internal/routing/request.go:57-70 | Key by key over the JSON values: a nonempty string under `browserName` is the browser, else one under `deviceName`, else one under `appium:deviceName`, else the entry is dropped; a number or an object in the entry counts as absent even where `alwaysMatch` has a string |
| `Placement.FieldsOfRequest` | internal/routing/request.go:57-70 | The same for version, platform and region, each over its keys in order |
| `SessionId.TokenShape` | internal/sessionid/sessionid.go:23-30 | 32 characters, no underscore or slash; equal tokens only from equal digests; none for the empty id |
| `SessionId.HexInjective` | internal/sessionid/sessionid.go:23-30 | The hex form loses nothing |
| `SessionId.HexDigitsOf` | internal/sessionid/sessionid.go:23-30 | Byte by byte two lower-case digits, the high one first |
| `SessionId.IdForm` | internal/sessionid/sessionid.go:32-43 | A public id is `r1_`, the token, `_` and the upstream id |
| `SessionId.DecodeEncode` | internal/sessionid/sessionid.go:32-58 | Decoding undoes encoding, underscores and all in the upstream id |
| `SessionId.EncodeDecode` | internal/sessionid/sessionid.go:45-58 | Encoding undoes decoding, so an id has one reading |
| `SideRoute.PrefixFree` | internal/sideroute/sideroute.go:18-26 | No side prefix starts another |
| `SideRoute.SessionEndpoints` | internal/sideroute/sideroute.go:18-59 | The seven endpoints one by one, with what follows the prefix, and the history settings |
| `SideRoute.StampedPrefixIsMatched` | internal/sideroute/sideroute.go:48-89 | The prefix stamped by middleware is the one a rescan of the path finds, and no other is |
| `SideRoute.MatchFromSound` | internal/sideroute/sideroute.go:48-59 | A match splits the path without loss |
| `Config.Validate` | internal/config/config.go:131-163 | Succeeds iff every declarative rule holds; otherwise names the first rule broken and the first offending entry |
| `Config.ValidateUsers` | internal/config/config.go:177-196 | The loop with its `seen` map accepts exactly unique, well-formed users |
| `Config.ValidateCatalog` | internal/config/config.go:198-226 | Likewise for browsers |
| `Config.ValidateBackendPools` | internal/config/config.go:228-267 | Likewise for pools |
| `Config.ValidateProtocols` | internal/config/config.go:285-295 | Nonempty and only known protocols |
| `Config.SecretRefForms` | internal/config/config.go:329-350 | A secret is `env:` with a name, or `file:` with an absolute path that is already clean, and nothing else |
| `Config.EndpointForms` | internal/config/config.go:297-315 | An endpoint parses to http or https with a host and no user; what does not parse is refused |
| `Config.HealthForms` | internal/config/config.go:317-327 | A threshold of at least zero and a cooldown that is empty or a duration |
| `Config.EntryForms` | internal/config/config.go:165-196 | Quotas are at least 1, identities name a user header and a well-formed secret or none, users have a name, a well-formed secret and such a quota |
| `Config.BrowserForms` | internal/config/config.go:198-226 | A browser has a name, versions, no empty version or platform, and known protocols |
| `Config.PoolForms` | internal/config/config.go:228-267 | A pool has id, endpoint, region, positive weight, known protocols, well-formed secrets and health |
| `Config.ListForms` | internal/config/config.go:177-267 | A list is accepted iff each entry is and no name or id occurs twice |
| `Config.AcceptedPools` | internal/config/config.go:131-163 | What an accepted configuration guarantees of every pool: version 1, nonempty id and region, positive weight, known protocols, an http or https endpoint with a host |
| `Proxy.IndexTokens` | internal/proxy/proxy.go:137-147 | Collision reported iff two configured ids share a token; otherwise the index inverts the token function and holds nothing else |
| `Proxy.NewHandler` | internal/proxy/proxy.go:120-166 | Succeeds iff the configuration is valid and collision-free |
| `Proxy.SameBackends` | internal/proxy/proxy.go:137-164 | Selector, health map and token index cover exactly the same backend ids |
| `Proxy.RouteIssuedId` | internal/proxy/session.go:136-146 | An issued id reaches its backend's pool with the upstream id, or 404 iff that backend is not configured |
| `Proxy.WebDriverPathInversion` | internal/proxy/session.go:114-130 | The client path goes upstream as exactly `base/u r`, slashes in `u` included, iff `u` does not start with a slash; then it is 400 |
| `Proxy.SplitBase` | internal/proxy/session.go:260-273 | Splitting a session path gives back base, id and remainder for both bases |
| `Proxy.NoSessionNamed` | internal/proxy/session.go:260-273 | A path outside both bases, or one that names no session, is 400 |
| `Proxy.StripKeepsTheRest` | internal/proxy/session.go:194-222 | Stripping removes the top-level id, keeps everything else, and is idempotent |
| `Proxy.SanitizedForms` | internal/proxy/session.go:224-240 | An over-limit body is refused; any other goes on as it is, except that an object loses its top-level `sessionId` and nothing else |
| `Proxy.RewriteNewSessionResponse` | internal/proxy/session.go:148-192 | Slot by slot: a nonempty string under `value.sessionId` is the upstream id unless a nonempty string at the top differs; without a string there, a nonempty one at the top is; everything else fails. The public id `r1_token_id` decodes to both parts and fills every present slot, and the rest of the tree is unchanged |
| `Proxy.SidePathRewriting` | internal/proxy/side.go:36-82 | For every upstream id: the upstream path holds the upstream id (for Playwright the public id) exactly as written, slashes included, `.mp4` added only to a bare video path; refused iff the first segment of the id is empty or is the suffix of the prefix |
| `Proxy.WebDriverSidePath` | internal/proxy/side.go:36-82 | For an id without `pw_`: `/vnc/public/r` goes to `/vnc/u/r` and bare `/video/public` to `/video/u.mp4`, over webdriver |
| `Proxy.PlaywrightSidePath` | internal/proxy/side.go:57-68 | For an id that starts with `pw_` the path goes upstream unchanged, over playwright |
| `Proxy.TrimLead` | internal/proxy/side.go:167-176 | Trimming an artifact suffix never reaches into the id's lead |
| `Proxy.MintedVideoPathsAgree` | internal/proxy/playwright.go:58-64 | For minted ids `/video/id` and `/video/id.mp4` are one upstream resource |
| `Proxy.DefaultBackend` | internal/proxy/side.go:141-149 | The first pool that is up, none iff all are down |
| `Proxy.ProxySideEndpoint` | internal/proxy/side.go:21-88 | The whole handler, stamped prefix or not, equals `SideTarget`, with the history-settings, empty-rest, bad-prefix and body-limit branches |
| `Playwright.DispatchIsClaim` | internal/proxy/proxy.go:190-205 | No path is claimed by two handlers, so the order of the cases never decides |
| `Routing.PlaywrightPathAsks` | internal/routing/request.go:72-89 | `/playwright/b/v`, with anything further, asks for browser `b` and version `v` over playwright, and for nothing else |
| `Routing.OnlyPlaywrightPathsAsk` | internal/routing/request.go:72-89 | No path of another form asks for anything |
| `Playwright.AnsweredByPath` | internal/proxy/playwright.go:20-49 | On such a path an upgrade goes ahead iff that very request can be served and there is randomness, on the pool its draw picks; any other path gets 400 |
| `Playwright.Answer` | internal/proxy/playwright.go:20-49 | Upgrades iff it is an upgrade of a servable path and there is randomness; the minted id routes back to the chosen pool through this handler's index; 400 or 500 otherwise |
| `Playwright.ProxyPlaywright` | internal/proxy/playwright.go:20-53 | The same with its effects: the id sits in the upstream header, `started` is counted once for the chosen pool, and a refusal leaves no trace |
| `Playwright.Mint` | internal/proxy/playwright.go:35-64 | The public id encodes the pool's token and the random bytes and routes back to exactly these |
| `Playwright.MintedIdsDiffer` | internal/proxy/playwright.go:58-64 | Two equal minted ids come from equal tokens and equal random bytes |
| `CreateSession.ReportCount` | internal/proxy/session.go:61-109 | Health reports per attempt: none iff a plain client error, two iff a 2xx answer without usable id, else one |
| `CreateSession.StatusTable` | internal/proxy/reverseproxy.go:124-150 | From 500 on, and for 401, 403, 408, 425 and 429: a failure report and `failure`; other 4xx: no report and `client_error`; below 400: a success report and `success` |
| `CreateSession.ReplyTable` | internal/proxy/session.go:61-109 | The reports and the metric of an attempt, reply by reply and status by status; the second report goes with the refusal |
| `CreateSession.FailingRelaysTrip` | internal/proxy/reverseproxy.go:49-66 | As many proxied requests as the threshold, each unanswered or answered with such a status, take an untripped backend out of rotation until one cooldown after the last |
| `CreateSession.UnusableReports` | internal/proxy/session.go:81-98 | A 2xx answer without usable id is reported as a success and then, at its own instant, as a failure |
| `Overlap.UnusableTripsByOverlap` | internal/proxy/session.go:81-98 | Over every clock-ordered interleaving of such attempts with anything else that is not a failure, at most k attempts being between their two reports: some interleaving takes the backend out of rotation iff k reaches the threshold and the cooldown is positive |
| `Overlap.FailuresBoundedByOverlap` | internal/proxy/session.go:81-98 | In any such interleaving below the threshold, whatever the clock does, failures and open attempts together never exceed k |
| `CreateSession.UnusableAnswersTripOnlyAtOne` | internal/proxy/session.go:81-98 | Without overlap, any positive number of such attempts trips the backend iff the threshold is 1 |
| `CreateSession.ClassifyAndRecord` | internal/proxy/reverseproxy.go:124-173 | At most one report by status class and exactly one metric, under the protocol or, without one, as `side` |
| `CreateSession.ProxiedTable` | internal/proxy/reverseproxy.go:49-66 | The report and the metric of a proxied request, status by status, under the protocol or as `side` |
| `CreateSession.RelayReply` | internal/proxy/reverseproxy.go:49-66 | A proxied request leaves exactly that report with the manager and that metric with the accumulator |
| `CreateSession.Respond` | internal/proxy/session.go:85-109 | An id is handed out iff the answer is a 2xx with a usable id, and it decodes to this backend's token; other statuses are relayed |
| `CreateSession.HandleReply` | internal/proxy/session.go:61-109 | Reports, each at its own instant and told status by status, metrics and answer for every kind of reply |
| `CreateSession.Place` | internal/proxy/session.go:37-52 | A backend iff some client entry is satisfiable, then for the first such entry |
| `CreateSession.ObjectForms` | internal/routing/request.go:31-40 | Only a body that is one JSON object, or `null`, carries a payload |
| `CreateSession.Admit` | internal/proxy/session.go:25-52 | Admitted iff it is a POST within the body limit whose first JSON document ends within the smaller capabilities limit and has a satisfiable entry; then the backend of the first such entry, else 405, 413 or 400 |
| `CreateSession.Create` | internal/proxy/session.go:25-109 | The whole request: refused without a trace, or placed on the first satisfiable entry, accounted for once, answered with a decodable id |
| `ReverseProxy.OneSlashAtTheJoint` | internal/proxy/reverseproxy.go:193-204 | Joined paths have exactly one slash at the joint |
| `ReverseProxy.QueryForms` | internal/proxy/reverseproxy.go:206-215 | An empty query leaves the other; two are joined by one ampersand, the target's first |
| `ReverseProxy.IdentityHeaders` | internal/proxy/reverseproxy.go:90-117 | The user header is the subject, or `guest` for a guest without one; the admin header is `true` for an admin; the secret header is the secret; all are absent without an allowed identity, and no other header changes |
| `ReverseProxy.IdentityOff` | internal/proxy/reverseproxy.go:90-117 | Without a configured user header nothing is stripped or set |
| `ReverseProxy.CredentialForms` | internal/proxy/credentials.go:45-51 | Only authorization changes, and only for a backend with credentials |
| `ReverseProxy.KeptForms` | internal/proxy/reverseproxy.go:242-275 | Which client headers a new request takes over, by name |
| `ReverseProxy.Outgoing.ApplyBackendCredentials` | internal/proxy/credentials.go:45-51 | Sets authorization where the backend has credentials, no other header |
| `ReverseProxy.Outgoing.ApplyUpstreamIdentity` | internal/proxy/reverseproxy.go:90-117 | Owned headers depend on identity and configuration only, whatever arrived; all others keep their values |
| `ReverseProxy.Stripped` | internal/proxy/proxy.go:80-93 | The strip list names exactly the headers the router owns |
| `ReverseProxy.Director` | internal/proxy/reverseproxy.go:39-49 | The in-place shaping, header by header |
| `ReverseProxy.CopyUpstreamRequestHeaders` | internal/proxy/reverseproxy.go:242-275 | Copies exactly the headers that may pass, whatever the iteration order |
| `ReverseProxy.NewUpstreamRequest` | internal/proxy/reverseproxy.go:70-84 | The from-scratch shaping, header by header |
| `ReverseProxy.ShapersAgree` | internal/proxy/reverseproxy.go:39-84 | Both shapers give the same URL and headers for the same input, but for `Host` and hop-by-hop names |
| `MetricsSpec.Conservation` | internal/observe/metrics.go:87-110 | After any log, a group's counters over all labels sum to its histogram's observations |
| `MetricsSpec.NothingIsLost` | internal/observe/metrics.go:87-110 | No counter decreases and no sample disappears |
| `MetricsSpec.BucketsNested` | internal/observe/metrics.go:249-257 | Counts at growing bounds are nondecreasing and never exceed the total |
| `MetricsSpec.CountIsCardinality` | internal/observe/metrics.go:249-257 | A bucket's count is the number of observations at most its bound, the bound included |
| `MetricsSpec.OrdersAreTotal` | internal/observe/metrics.go:298-425 | The three hand-written comparators are strict total orders, so no two series tie |
| `MetricsSpec.SeriesOrder` | internal/observe/metrics.go:298-425 | Request series sort by route, method, status; proxy series by backend, protocol, outcome; events by backend, event |
| `MetricsSpec.TextByFirstDifference` | internal/observe/metrics.go:298-425 | Text compares at the first difference, a proper prefix first |
| `MetricsSpec.SortedListingUnique` | internal/observe/metrics.go:298-425 | There is one sorted listing of a key set, whatever order it was collected in |
| `Metrics.Histogram.Observe` | internal/observe/metrics.go:249-257 | Bucket i always equals the number of observed values at most bound i |
| `Metrics.Histogram.Clone` | internal/observe/metrics.go:396-402 | An equal histogram sharing no storage |
| `Metrics.Histogram.BucketsAreCumulative` | internal/observe/metrics.go:245-257 | On a live histogram buckets are nondecreasing and at most the count |
| `Metrics.DurationTable.Observe` | internal/observe/metrics.go:227-243 | Adds the sample to its own group, creating the histogram on first use; no other group's changes |
| `Metrics.Family.Record` | internal/observe/metrics.go:87-110 | Both maps follow one log of observations |
| `Metrics.Family.CountersMatchHistogram` | internal/observe/metrics.go:87-110 | On the live maps a group's counters sum to its histogram's count |
| `Metrics.SortedEntries` | internal/observe/metrics.go:298-425 | Every key once, in strictly increasing order, with its value |
| `Metrics.InsertKeySorts` | internal/observe/metrics.go:298-425 | Inserting keeps the listing sorted and adds only the key |
| `Metrics.ListingUnique` | internal/observe/metrics.go:298-425 | The export does not depend on map iteration order |
| `Metrics.Export` | internal/observe/metrics.go:298-402 | Sorted counters and sorted copies of every histogram, telling the same log |
| `Metrics.ScrapeThenRecord` | internal/observe/metrics.go:131-138 | The complete, ordered copies of a scrape keep telling that moment through any later recording, and agree with its counters |
| `Metrics.Accumulator.constructor` | internal/observe/metrics.go:65-73 | Empty families over the latency buckets, sharing no storage with each other or anything else |
| `Metrics.Accumulator.RecordHttpRequest` | internal/observe/metrics.go:87-99 | One observation in the request family, none in the other |
| `Metrics.Accumulator.RecordProxyRequest` | internal/observe/metrics.go:101-110 | One observation in the proxy family, none in the other |
| `Metrics.Accumulator.RecordWebSocketSession` | internal/observe/metrics.go:112-119 | Key by key: this backend and event has one more, every other series is as it was, no series appears or disappears otherwise |
| `Metrics.CopyIsCumulative` | internal/observe/metrics.go:245-257 | Over growing bounds every pair of buckets is nondecreasing and none exceeds the count; `Metrics.ExportFamily` applies it to every copy it makes |
| `Metrics.ExportFamily` | internal/observe/metrics.go:131-138 | One fresh copy for exactly the groups seen, in order; each holds its group's samples over the latency buckets, is cumulative, and counts the sum of its group's counters |
| `Metrics.Accumulator.Scrape` | internal/observe/metrics.go:131-138 | Five complete sorted listings of the accumulated logs; every histogram a fresh cumulative copy whose count is the sum of its group's counters |
| `System.StepKeepsInv` | internal/app/reload.go:29-59 | Every step of any replica (load, store, begin, mint, report, scrape, end) keeps the invariant; issued ids and known backends only grow |
| `System.RunKeepsInv` | internal/app/reload.go:29-59 | The invariant holds after every run of any number of replicas |
| `System.Affinity` | internal/proxy/session.go:114-146 | After any run, on any replica and any configuration it ever loaded, an issued id reaches its owner's pool with the upstream id, or 404 iff the owner is absent there |
| `System.FollowUpReachesOwner` | internal/proxy/session.go:114-130 | For any request in flight anywhere, the WebDriver path under an issued id goes to the owner's pool as exactly `base/u r`, or 404 where the owner is absent; 400 iff the upstream id starts with a slash; 413 only for the owner's pool and an over-limit body |
| `System.SideFollowUpReachesOwner` | internal/proxy/side.go:36-82 | The same for side endpoints, WebDriver and Playwright, whatever the upstream id; 400 iff its first segment is empty or the prefix's suffix |
| `System.OwnerInIndex` | internal/proxy/proxy.go:137-147 | The index a request in flight uses maps an issued id's token to its owner's pool or to nothing |
| `System.IssuedForGood` | internal/app/reload.go:29-59 | No run takes an issued id back |
| `System.CreatedIsMint` | internal/proxy/session.go:85-109 | An id answered for a pool of the request's own load is mintable there, and is what the mint step issues; `Service.NewSession` rests on it |
| `System.UpgradeIsMint` | internal/proxy/playwright.go:35-52 | Likewise for a Playwright upgrade and `Service.PlaywrightSession` |
| `Service.NewSession` | internal/proxy/session.go:25-109 | A served new-session request holds the load that was current when it began, is answered as that load, its health and the reply decide, and is exactly the run begin, its reports, mint if an id is handed out, end; the id is for a pool of that load; afterwards nothing is held |
| `Service.PlaywrightSession` | internal/proxy/playwright.go:20-53 | The same for a Playwright upgrade, with its header and its one counter |
| `Service.FollowUp` | internal/proxy/session.go:114-130 | A served follow-up is routed by the load current when it began, whatever its health; it reports to that load's manager iff it went out, records one metric then, and is exactly the run begin, its reports, end |
| `Service.ServedFollowUpReachesOwner` | internal/proxy/session.go:114-146 | Served by any replica after any run, a follow-up under an issued id goes to the owner's pool at exactly `base/u r`, or 404 where the owner is absent, 413 for an over-limit body, 400 iff the upstream id starts with a slash |
| `Service.RequestRun` | internal/app/reload.go:29-49 | What the steps of one request add up to: its reports on its own generation, at most one issued id, nothing else |
| `System.PinnedForLife` | internal/app/reload.go:29-36 | A request keeps the generation it loaded, through any steps but its own end |
| `System.ReportStaysHome` | internal/app/reload.go:29-49 | A report from a request in flight changes the manager of its own generation on its own replica, and nothing else |
| `System.PublishedInStep` | internal/app/reload.go:40-49 | Handler and published health are the same generation, or one apart between the two stores |
| `System.GenerationHealth` | internal/app/runtime.go:30-58 | Each generation's availability is a function of its own reports and scrapes since its load |
| `Reload.NewRuntime` | internal/app/runtime.go:30-58 | Fails iff the configuration is invalid; else a fresh manager, and a handler iff tokens are distinct, whose selector, pools, index and health are all of that configuration |
| `Reload.NewReloadingHandler` | internal/app/reload.go:21-27 | Nothing is served without a first load; after it the object is a started replica of the step system with sound metrics of its own |
| `Reload.ReloadingHandler.Reload` | internal/app/reload.go:40-49 | A failed load changes nothing; a good one is exactly the two store steps; no older manager and no metric is touched |
| `Reload.Prepare` | internal/app/reload.go:40-45 | Whatever replica it is for, storing what a load built is the two store steps |
| `Reload.ReloadingHandler.Publish` | internal/app/reload.go:46-47 | The two stores, one after the other |
| `Reload.ReloadingHandler.Load` | internal/app/reload.go:29-36 | The begin step: handler, selector, index and health of one load, able to serve; the "not loaded" branch is unreachable |
| `Reload.ReloadingHandler.ReportOutcome` | internal/app/reload.go:29-49 | On the real objects, a late report takes the report step on its own manager and leaves every other manager's objects as they were |
| `Reload.ReloadingHandler.Snapshot` | internal/app/reload.go:53-59 | The scrape step on the published manager only, with that manager's rows and their backends' own descriptions |
| `Reload.ReloadingHandler.Attempt` | internal/proxy/session.go:25-109 | A new-session request on what it loaded: its reports reach its own manager and no other load's, its metrics the shared accumulator, and all invariants survive |
| `Reload.ReloadingHandler.Upgrade` | internal/proxy/playwright.go:20-53 | A Playwright upgrade on what it loaded, with the one counter it moves |
| `Reload.ReloadingHandler.Relay` | internal/proxy/reverseproxy.go:49-66 | The end of a proxied request reaches the manager of what it loaded and the shared metrics, all invariants kept |
| `Reload.ReloadingHandler.RecordRequest` | internal/observe/metrics.go:75-99 | One more observation in the request family, all invariants kept |
| `Reload.ReloadingHandler.MetricsConserved` | internal/app/reload.go:21-49 | In every state the object can be in, across loads and requests, each group's counters sum to its histogram's count, in both families |
| `Reload.ReloadingHandler.Expose` | internal/app/reload.go:63-65 | What a scrape hands out in any such state: complete sorted listings and fresh copies in which the same holds |

## Left out

- Routing.Selector.SelectFirst: nothing changes between the readings; `Routing.Selector.SelectAcross` covers one request whose readings other requests move.
- Routing.Selector.Select: one instant for both passes, likewise. The generator is a parameter and its state is not modelled, so nothing is said about how draws are distributed over several requests.
- Routing.CatalogSupports: case folding is over ASCII.
- Health.Manager.Snapshot: rows come in an arbitrary order, as the map yields them, and the formatted expiry time is an optional instant. Mutexes are modelled by each method being one step.
- SessionId.TokenShape: HMAC-SHA256 is an arbitrary function to 16 bytes; that tokens of different ids differ is an assumption, checked by the code within one configuration only.
- System.FollowUpReachesOwner: paths are taken as the handler receives them; the standard mux redirects a path with an empty or a dot segment before any handler runs, so an id or remainder with such a segment gets a redirect first.
- System.SideFollowUpReachesOwner: the same redirect; a WebDriver id that begins with `pw_` is treated as Playwright, as the code does.
- Reload.ReloadingHandler.Reload: the two stores happen within one call; that requests and scrapes may fall between them is modelled in `System`. Reading the file, parsing it and resolving secrets are one optional configuration.
- Proxy.RewriteNewSessionResponse: JSON is a tree; decoding and re-encoding text, number formatting and key order are left out, and the decoded maps are reassigned rather than updated in place.
- Proxy.ProxySideEndpoint: stops at the routing decision; what the upstream answers is not modelled. `/host/` information is left out.
- CreateSession.HandleReply: runs without interruption; that reports of other requests fall between its two is modelled by the separate report steps of `System` and by `Overlap`.
- CreateSession.UnusableAnswersTripOnlyAtOne: attempts one after the other; `Overlap.UnusableTripsByOverlap` covers the rest.
- Service.FollowUp: WebDriver follow-ups; side endpoints are served the same way and stop at the routing decision.
- Service.NewSession: one request without interruption; interleavings of several requests are runs of `System`.
- Reload.NewRuntime: takes a configuration whose secrets resolve; a load that fails to read, parse or resolve is the absent configuration of `Reload.ReloadingHandler.Reload`.
- Reload.ReloadingHandler.Expose: the metrics part of the exposition; its health part is `Snapshot`, taken after it.
- CreateSession.Create: where the body's JSON document ends is a parameter, since text is not modelled. The attempt stops at the decoded answer. A backend URL that fails to parse or a request that cannot be built (both 502 before any report), `Location` rewriting and copied response headers are left out.
- Playwright.ProxyPlaywright: stops before the tunnel; the upgraded connection, its `upgraded` counter and the echoed id header are left out.
- ReverseProxy.Director: header names are kept in lower case; hop-by-hop removal happens in the library after this point.
- ReverseProxy.Outgoing.ApplyBackendCredentials: the authorization value of each backend is given; its encoding is left out.
- Metrics.Histogram.Observe: the floating-point sum is left out and latencies are reals; bucket bounds are a field of the histogram rather than a package constant.
- Metrics.Family.Record: the request and the proxy family share one class, as their code has the same shape; route labels and the exposition text are left out.
- Metrics.SortedEntries: the library sort is modelled by insertion.
- Config.Validate: URL parsing, duration parsing and path cleaning are arbitrary functions; error texts are reduced to the rule and the index of the entry.
- Integers are unbounded, and times are integers with the zero time as an absent value.
- Authentication, quotas (nothing in the code counts sessions), the sanitized configuration views, listeners, timeouts, TLS and logging.
