# CaddyTower, verified

A Dafny account of the logic that CaddyTower, a control plane for projects behind one shared Caddy
server, rests on. It covers

- the route pipeline: project routes are expanded per host, sorted by specificity, merged into a live
  Caddy config that also carries other people's routes, and read back to report drift;
- applying a project: the steps of a deploy, its history rows, the health wait and the automatic
  rollback, as a machine whose invocations interleave freely, and as the service that runs it;
- the four text formats of the project form: HTTP routes, mounts, environment and ports;
- the sliding-window limit per address, the login lockout and the fixed-window webhook limit;
- the deploy event bus, the controller's replacement of its own container, and release ordering.

Each imperative Go function is a method proved against a specification function, or a class whose
methods state their whole effect; the theorems say of those specifications, in terms of inputs and of what
the outside world answers, what they come to. Strings are ASCII with Go's ASCII white space. Clocks, Docker,
Caddy, DNS, the health probe and credentials are parameters, so every statement holds for all their answers.

Run `dafny verify dfyconfig.toml` in this directory.

## Where the code does less than one might expect

- A deploy row stays "running" after its invocation has returned exactly when, at some step of the run,
  the store inserted the row and could not read it back, or failed the row's last write
  (`DeployRuns.StaysRunningIff`). So with every write made it stays running exactly when the read-back
  failed (`DeployRuns.WithWritesMade`); `DeployWitnesses.ReadBackFailureLeavesRunning` is such a run.
- An error means a failed row or none exactly when the store did neither of these, nor wrote "live" without
  being able to tell; and the row says "live" under an error exactly when it did the last
  (`DeployRuns.ErrorMeansFailedIff`). `DeployWitnesses.UntoldWriteErrsLive` is a run with every write made that
  ends in an error over a live row.
- The drift report adds up exactly when the comparison is reached or nothing is expected; otherwise both
  counts are zero (`RouteDrift.CaddyDiagnostics`).
- After a reconcile, the live config can be read exactly when what is kept of it can: the unmanaged routes,
  the rest of srv0, and the config around it (`ReadMerged.ReadableIff`). Then, unless srv0 also spells its
  routes another way, as below, the drift report is clean exactly when projects are served under one key
  only if they share an upstream, and no route of others is read under one of those keys, sorted after all
  wanted routes of the key, and leading elsewhere (`DriftAfterMerge.ReconcileThenDiagnose`). Such routes exist
  because the writer and the reader read live routes differently: for every wanted prefix route there is one
  with a blank exact path next to the prefix (`DriftWitnesses.BlankExactPathDrifts`), for every wanted host
  route one whose host is spelled "Host" (`DriftWitnesses.CapitalHostDrifts`), so even a reconcile without projects can leave drift
  (`DriftWitnesses.ReconcileLeavesDrift`). Where all unmanaged live routes are plain there are none
  (`DriftAfterMerge.PlainReconcileThenDiagnose`).
- When srv0 spells its routes another way, say "Routes", the merge writes "routes" beside it, and the reader
  decodes the second into what the first left. A wanted route is then read with its own matcher exactly when
  no path left in its place overrides it (`ReadMerged.ReadsBack`). While none does, the statement above holds
  (`Spared` is its condition); with distinct keys and no foreign route read under one, the report is clean
  exactly then (`DriftAfterMerge.CleanIffSpared`). `DriftWitnesses.SecondSpellingDrifts` has a live config
  for which it is not.
- Extracting built routes keeps their order exactly when priorities never contradict the order of the
  matchers (`CaddyExtract.OrderSurvivesIff`, `CaddyExtract.OrderIsLost`).
- A live config whose body is the JSON text `null` makes the merge store into a nil map, which panics
  (outcomes `CaddyMerge.NilMap` and `ProjectRoutes.Panicked`); an empty body merges, but the reconcile
  around it then fails, because an empty body cannot be normalized.
- An accepted hostname can be `@domains` (written `.@domains`) or carry white space at an end; printing
  and parsing then changes it, and nothing else does (`RouteText.RoutesRoundTrip`,
  `RouteText.KeywordHostIsLost`).
- Comparing releases is transitive through release versions only: anything else compares as equal
  (`Releases.TransitiveThroughReleasesOnly`).
- Any interval of one window length lets at most `2 * limit - 1` webhook calls of a key through, one less
  than two full windows, and this is the best bound (`WebhookLimiter.IntervalBoundIsReached`).

## Model

| member | source | states |
|---|---|---|
| CaddyRoutes.BuildConfig | internal/caddyadmin/service.go:101-171 | the built config is one server with one rule per route, in the sorted order, the specification that the routing theorems are about |
| CaddyRoutes.RouteLessIsStrictWeakOrder | internal/caddyadmin/service.go:546-571 | the comparison given to the sort is a strict weak order on all routes |
| CaddyRoutes.SortedMeans | internal/caddyadmin/service.go:546-571 | sorted well-formed routes come by host, those of a host in the order in which they are served, and what that leaves open by value |
| CaddyRoutes.FirstMatchIsMostSpecific | internal/caddyadmin/service.go:101-171 | for every request and every sorted permutation, the first matching rule comes from a matching route that is maximal in exact over prefix over host, then value length, then least priority |
| CaddyRoutes.AnsweredIffMatched | internal/caddyadmin/service.go:101-171 | a request is answered by some rule if and only if some input route is meant for it |
| CaddyServing.RuleServes | internal/caddyadmin/service.go:115-161 | the rule of a well-formed route takes every request that the route is meant for, is terminal, and passes it to exactly the route's upstreams, gzip or zstd encoded, with the path that has the prefix stripped and the value replaced as the route says |
| CaddyServing.ConfigServes | internal/caddyadmin/service.go:101-171 | a built config listens on :80 and :443 as srv0, and passes every request that some route is meant for on as a most specific such route promises |
| CaddyServing.PrefixIsRewritten | internal/caddyadmin/service.go:133-147 | a prefix that occurs once is replaced, and the rest of the path stays |
| CaddyServing.StrippingRuleAsJson | internal/caddyadmin/service.go:46-76 | the whole JSON that is written for a prefix route that strips |
| CaddyServing.RewritingRuleAsJson | internal/caddyadmin/service.go:46-76 | and for an exact route that rewrites |
| CaddyRuns.LiveFirstMatch | internal/caddyadmin/service.go:324-367 | after a merge, a request is answered by the first kept live route that takes it, whatever those routes are, and if none does by a most specific of the merged routes for it |
| CaddyRuns.LiveAnswers | internal/caddyadmin/service.go:324-367 | it is answered if and only if a kept route takes it or a merged one is meant for it |
| CaddyJson.DecodeEncodedRule | internal/caddyadmin/service.go:46-75 | a rule written as JSON, with empty members left out, reads back as the same rule |
| CaddyJson.DecodeEncodedConfig | internal/caddyadmin/service.go:31-75 | so does a whole config |
| CaddyMerge.RouteMatchesManagedKeys | internal/caddyadmin/service.go:463-516 | a live route is managed if and only if some matcher and string host of it give a managed key |
| CaddyMerge.ManagedIff | internal/caddyadmin/service.go:463-516 | in terms of the JSON: some matcher lists a host that, with the first exact path of the matcher or else its first prefix, gives a managed key |
| CaddyMerge.RuleHasItsKey | internal/caddyadmin/service.go:463-524 | the rule written for a well-formed route carries that route's key and no other |
| CaddyMerge.MergeManagedRoutes | internal/caddyadmin/service.go:324-367 | the merged tree, or the failing outcome, for every current body |
| CaddyMerge.MergeFrame | internal/caddyadmin/service.go:324-367 | every path of the tree that is off the way to srv0 and outside its routes keeps its value, except that absent listen addresses are filled in |
| CaddyMerge.MergeIsFixpoint | internal/caddyadmin/service.go:324-367 | merging again changes nothing when every desired rule carries one of the keys |
| CaddyMerge.MergeTwiceIsOnce | internal/caddyadmin/service.go:278-367 | so the second of two equal reconciles finds the config it would load, when the keys cover the well-formed routes |
| CaddyRuns.LiveAfterRun | internal/caddyadmin/service.go:324-367 | the live routes after any run of merges in closed form: original routes no call manages, then each call's rules that no later call manages |
| CaddyRuns.LastWriterWins | internal/caddyadmin/service.go:324-367 | after any run, the live routes under a key are those of the last call whose keys contain it |
| CaddyRuns.DesiredWithKey | internal/caddyadmin/service.go:338-363 | what one call puts under a key: its own routes with that key, in sorted order |
| CaddyRuns.UnmanagedKeyUntouched | internal/caddyadmin/service.go:338-363 | the live routes under a never-managed key stay the original ones if and only if none of them also carries a managed key |
| CaddyRuns.OneMatcherRoutesUntouched | internal/caddyadmin/service.go:463-516 | which holds of live routes with one matcher and one host |
| CaddyRuns.NeverManagedKeepOrder | internal/caddyadmin/service.go:338-363 | live routes that no call of the run manages are kept, in their order, whatever their shape |
| CaddyExtract.ExtractHTTPRoutes | internal/caddyadmin/service.go:369-443 | what the reader returns for every tree, including trees it cannot decode; member names count in any case of letters, and a member under several spellings is decoded into what the ones before left |
| CaddyExtract.RuleReads | internal/caddyadmin/service.go:385-440 | what is read of any rule: the hosts of all matchers, the path of the last matcher that has one, all upstreams of proxies that are not blank, sorted, and what the rewriting handlers do |
| CaddyExtract.RuleIsRead | internal/caddyadmin/service.go:385-440 | a route is read for every host of a rule that proxies somewhere |
| CaddyExtract.ReadOwnRule | internal/caddyadmin/service.go:118-171 | reading the rule of a well-formed route gives the route back, its priority forgotten and its upstreams sorted |
| CaddyExtract.ExtractOfBuild | internal/caddyadmin/service.go:369-443 | extracting a built config gives back the same multiset of routes, sorted |
| CaddyExtract.OrderSurvivesIff | internal/caddyadmin/service.go:369-443 | it gives back the same sequence if and only if priorities never contradict the order of matchers |
| CaddyExtract.OrderIsLost | internal/caddyadmin/service.go:369-443 | two well-formed routes for which it does not |
| ProjectRoutes.EffectiveProjectRouteHosts | internal/projects/service.go:741-761 | a host is in the list if and only if it is the non-empty normal form of one of the project's names, and the list strictly increases |
| ProjectRoutes.ExpandedProjectRoutes | internal/projects/service.go:701-739 | the routes of a project on each of its hosts, or on the host a route names |
| ProjectRoutes.ProjectRoutesAre | internal/projects/service.go:701-739 | a route is in the expansion if and only if the project is a web project and some spec of it, or the default, is served on the route's host and says its kind of match, value, strip flag, rewrite and priority, and the upstream is the project's container and port |
| ProjectRoutes.ProjectRoutesCount | internal/projects/service.go:701-739 | the expansion is sorted by key and has one route for every spec and host |
| ProjectRoutes.ExpandedRoutesWellFormed | internal/projects/service.go:701-739 | a project whose routes the form accepted expands to well-formed routes only |
| ProjectRoutes.EmptyExpandsAsPrintedDefault | internal/projects/service.go:701-739 | no stored routes, and the printed default parsed again, expand to the same routes |
| ProjectRoutes.ExpectedManagedRoutes | internal/projects/service.go:679-699 | the routes the diagnostics expect |
| ProjectRoutes.AdminRouteIs | internal/projects/service.go:679-699 | the controller's own route, field by field |
| ProjectRoutes.ExpectedAreWanted | internal/projects/service.go:2041-2091 | they are the routes a reconcile wants, as a multiset |
| ProjectRoutes.SharedCaddy.ReconcileManagedRoutes | internal/caddyadmin/service.go:278-322 | the config is loaded only when it changes; every failure, and the panic on a null body, leaves it as it was |
| ProjectRoutes.SharedCaddy.ReconcileCaddy | internal/projects/service.go:2041-2091 | a reconcile merges the wanted routes under exactly their keys, does nothing without a client or routes, and fails on unread settings or projects and without a root domain |
| RouteDrift.CaddyDiagnostics | internal/projects/service.go:576-677 | which counts, verdicts and status a report has, when it warns, and exactly for which inputs healthy and drifted routes add up to the managed ones |
| RouteDrift.DiagnosisMeans | internal/projects/service.go:602-677 | a line of the report names what is wanted and what the last live route under the same key has, is Missing if and only if there is none, and Healthy if and only if both have the same upstreams |
| CaddyRoutes.SummaryTellsMatcher | internal/caddyadmin/service.go:526-544 | two routes have the same summary if and only if they have the same kind of matcher and, but for hosts, the same value |
| ReadMerged.ReadAfterMerge | internal/caddyadmin/service.go:324-443 | after a merge that can be read, the reader finds the kept routes of others and then the written ones, each decoded into what other spellings of "routes" left in its place, sorted; where nothing is left those are the wanted routes |
| ReadMerged.ReadsBack | internal/caddyadmin/service.go:369-443 | a written route reads back as one route to the same upstreams, and with its own matcher if and only if no path left in its place overrides it |
| ReadMerged.ReadableIff | internal/caddyadmin/service.go:324-377 | the merged config can be read if and only if the kept routes, the rest of srv0 and the config around it can |
| ReadMerged.StaysReadable | internal/caddyadmin/service.go:324-443 | a merge does not make a readable config unreadable |
| DriftAfterMerge.Winner | internal/projects/service.go:627-642 | under the key of a wanted route the report finds the last route of others if it sorts after every wanted route of the key, and else a wanted route |
| DriftAfterMerge.MergeThenDiagnose | internal/projects/service.go:602-677 | after a merge that can be read, where no wanted route is written over an overriding path, every wanted route is healthy if and only if routes under one key go to the same upstreams and no route of others wins a wanted key and goes elsewhere |
| DriftAfterMerge.CleanIffSpared | internal/projects/service.go:602-677 | with distinct wanted keys and no route of others read under one, every wanted route is healthy if and only if none is written over an overriding path |
| DriftAfterMerge.ConsistentIff | internal/projects/service.go:679-739 | the wanted routes agree about where one key goes if and only if projects are served under one key only if they share an upstream, and under the controller's key only if that is theirs |
| DriftAfterMerge.KeyMeans | internal/caddyadmin/service.go:518-524 | routes have the same key if and only if their hosts are the same but for case and white space, they match in the same way, and their values are the same but for white space |
| DriftAfterMerge.ReconcileThenDiagnose | internal/projects/service.go:576-699 | for a whole reconcile and report, where no wanted route is written over an overriding path: zero drift if and only if the projects agree and the routes of others are harmless |
| DriftAfterMerge.ReaderKeysAreWriterKeys | internal/caddyadmin/service.go:369-516 | on plain routes, every key the reader sees is one the writer matches |
| DriftAfterMerge.PlainReconcileThenDiagnose | internal/projects/service.go:576-699 | where srv0 spells its routes in one way and the unmanaged ones are plain, zero drift if and only if the projects agree |
| DriftWitnesses.BlankExactPathDrifts | internal/caddyadmin/service.go:384-414 | for every wanted prefix route, a readable live config with a blank exact path next to a prefix for which a reconcile leaves drift |
| DriftWitnesses.CapitalHostDrifts | internal/caddyadmin/service.go:54-58 | for every wanted host route, a readable live config with a host spelled "Host" for which it does |
| DriftWitnesses.ReconcileLeavesDrift | internal/projects/service.go:2041-2091 | for every root domain, such a config for a reconcile that serves no project |
| DriftWitnesses.SecondSpellingDrifts | internal/caddyadmin/service.go:374-379 | for every wanted host route, a config whose srv0 spells "Routes", without any route that the writer sees, for which a reconcile leaves drift |
| RouteText.ParseHTTPRoutesText | internal/projects/service.go:2553-2632 | the routes of a text, or its first failing line and why |
| RouteText.HTTPRoutesText | internal/projects/service.go:2524-2551 | the printed form of a list of routes |
| RouteText.ParserAccepts | internal/projects/service.go:2553-2632 | every list the parser returns has valid matchers, at most one transform a route, priorities equal to positions and pairwise different keys |
| RouteText.ParsedIff | internal/projects/service.go:2553-2632 | for every text, the parser returns a list if and only if it is what the lines that are not blank say, in their order, no two with the same matcher |
| RouteText.RoutesRoundTrip | internal/projects/service.go:2524-2632 | printing and parsing an accepted list gives it back if and only if every hostname is trimmed and is not the keyword for all domains |
| RouteText.KeywordHostIsLost | internal/projects/service.go:2573-2582 | a text whose only hostname becomes the keyword and does not come back |
| RouteText.RouteTable.Replace | internal/store/projects.go:736-769 | the stored rows after a replacement |
| RouteText.RouteTable.Load | internal/store/projects.go:630-670 | the routes loaded from them |
| RouteText.StoreAndLoad | internal/store/projects.go:630-769 | storing and loading an accepted list keeps its routes and their order |
| MountText.ParseMountsText | internal/projects/service.go:2472-2522 | the mounts of a text, or the first error |
| MountText.MountsText | internal/projects/service.go:2456-2470 | the printed form of a list of mounts |
| MountText.ParserAccepts | internal/projects/service.go:2472-2522 | parsed sources and targets are absolute, no target is reserved, none occurs twice |
| MountText.ParsedIff | internal/projects/service.go:2472-2522 | for every text, the parser returns a list if and only if it is what the lines that are not blank say, no target twice |
| MountText.MountsRoundTrip | internal/projects/service.go:2456-2522 | for every list, printing and parsing gives it back if and only if it is one the parser returns |
| PortText.ParsePortMappings | internal/projects/service.go:2364-2419 | the sorted ports of a text, or the first error |
| PortText.PortMappingsText | internal/projects/service.go:2352-2362 | the printed form of a list of ports |
| PortText.ParserAccepts | internal/projects/service.go:2364-2419 | parsed ports are at least one, in 1..65535, of the protocol, and strictly increasing by host port |
| PortText.ParsedIff | internal/projects/service.go:2364-2419 | for every text, the parser returns these ports if and only if its lines that are not blank say them in some order, and they are increasing by host port |
| PortText.PortsRoundTrip | internal/projects/service.go:2352-2419 | for every list and protocol, printing and parsing gives it back if and only if it is one the parser returns |
| EnvText.ParseEnvText | internal/projects/service.go:2421-2440 | the map a text sets |
| EnvText.LastLineWins | internal/projects/service.go:2421-2440 | a key is in the map if and only if some line sets it, with the value of the last such line |
| EnvText.SpacedLineReads | internal/projects/service.go:2421-2440 | a line sets the key to the value, whatever spaces stand around them |
| EnvText.PrintEnv | internal/projects/service.go:2442-2454 | the map's entries, one a line, by key |
| EnvText.PrintsOneText | internal/projects/service.go:2442-2454 | the order in which the map yields its keys does not show |
| EnvText.ParserAccepts | internal/projects/service.go:2421-2440 | parsed keys are trimmed, not empty, without "=", and open no comment |
| EnvText.EnvRoundTrip | internal/projects/service.go:2421-2454 | for every map, printing and parsing gives it back if and only if it is one the parser returns |
| DeployHistory.DeployStore.StartProjectDeploy | internal/store/project_page.go:153-166 | a new row with the next id, even when reading it back fails |
| DeployHistory.DeployStore.FinishProjectDeploy | internal/store/project_page.go:168-185 | exactly the row of that project and id changes, or nothing; an error may follow a change that was made |
| DeployHistory.DeployStore.ListProjectDeploys | internal/store/project_page.go:213-250 | the newest ids of the project, newest first |
| DeployHistory.NewestIdsAre | internal/store/project_page.go:213-250 | at most so many rows of the project, from the newest down, and none left out that is newer than a listed one |
| DeployHistory.FallbackIsNewest | internal/projects/service.go:1918-1932 | a deploy is the fallback if and only if it is the newest other live deploy with a digest and fewer than 20 of the project's deploys are newer |
| DeployHistory.PinIsFallback | internal/projects/service.go:1918-1932 | the pin is the fallback's digest, and blank if and only if there is none |
| DeployMachine.StepKeepsInv | internal/projects/service.go:1895-2028 | every step of every invocation, call, edit or configuration change keeps the invariant of rows, terminal events, pins and rollback links |
| DeployMachine.HistorySafety | internal/projects/service.go:1895-2028 | between any two moments of any interleaving, every row is unchanged or has left "running" once, and no row disappears |
| DeployMachine.OutcomesAgree | internal/projects/service.go:1895-2028 | in any interleaving, nil means the own row is live, an error that is not the store's means failed or never created, and unless the row was left running the one terminal event agrees with it |
| DeployRuns.StaysRunningIff | internal/projects/service.go:1895-2028 | in any interleaving, a returned invocation's row is running if and only if at some step the store inserted it and could not read it back, or failed its last write |
| DeployRuns.WithWritesMade | internal/store/project_page.go:153-166 | when every write that was asked for was made, if and only if the new row could not be read back |
| DeployWitnesses.ReadBackFailureLeavesRunning | internal/store/project_page.go:153-166 | a run in which every write succeeds and the row stays running under an error |
| DeploySteps.FailedIff | internal/projects/service.go:1935-2021 | in any interleaving, an invocation has failed for a cause and with a text if and only if it stepped at the step of that cause and was answered so: the pull of an image that is not pinned, the creation, the check of a web project with a health check, routing, DNS |
| DeploySteps.LiveIff | internal/projects/service.go:1895-2028 | in any interleaving, a returned invocation's row is live if and only if its settings were there, its row was created and read back, no step failed and the last write was made; it returned nil if and only if the store could also tell; and its row is failed if and only if a step failed and the row did not stay running |
| DeploySteps.LiveHasPassed | internal/projects/service.go:1935-2021 | an invocation with a live row has stepped through the check, routing and DNS, and with Docker through the pull and the creation, and none failed |
| DeploySteps.RowTells | internal/projects/service.go:1900-1916 | the row names image, trigger, actor, the digest that the creation answered, and the text of the step that failed |
| DeploySteps.RollsBackIff | internal/projects/service.go:1983-2001 | in any interleaving, an invocation rolls back if and only if the failure of its health check was recorded, it had a pin, and rolling back was not disabled; it gave up if and only if the project could not be read, stored or loaded; otherwise it ends as the rollback did |
| DeploySteps.PinIsFound | internal/projects/service.go:1918-1932 | the pin is the fallback of the table at the moment of choosing, and nothing if rolling back is disabled or the deploys could not be listed |
| DeploySteps.StoryIsTold | internal/projects/service.go:1933-2024 | in any interleaving, which stages an invocation has announced, how often, and in which order |
| DeployWitnesses.FailedCheckRollsBack | internal/projects/service.go:1983-2001 | from every start with a fallback, a run that fails its check, spawns the rollback and ends rolled back over a failed row, with the rollback's row live |
| DeployRuns.ErrorMeansFailedIff | internal/projects/service.go:1895-2028 | in any interleaving, an error goes with a failed row or none if and only if the store neither left the row without its last status nor wrote "live" without telling, and with a live row if and only if it did the latter |
| DeployWitnesses.UntoldWriteErrsLive | internal/store/project_page.go:168-185 | a run in which every write succeeds and the caller gets an error for a live row |
| DeployMachine.RowsHaveOneOwner | internal/projects/service.go:1900-1909 | no two invocations of any run own the same row |
| DeployMachine.RollbackIsSound | internal/projects/service.go:1985-2001 | in any interleaving, a rollback's parent failed its health check and its row says so, the pin is the digest of another live deploy, it is the parent's only rollback, and it starts none itself |
| DeployRuns.RollbackGoesBack | internal/projects/service.go:1594-1612 | in any interleaving, the pin is the fallback of the table at the moment the parent chose it, the parent stored it and then started the rollback, and the rollback applies it unless something else wrote the project in between |
| DeployRuns.PinReplacesImage | internal/projects/service.go:1594-1601 | storing the pin replaces the image of the project as it was read, and changes no other project |
| DeployMachine.StepMakesProgress | internal/projects/service.go:1895-2028 | every step brings an invocation closer to its end, within 17 steps, unless it awaits a running rollback |
| ApplyProject.ProjectService.ChoosePin | internal/projects/service.go:1918-1932 | the loop over the listed deploys finds the fallback's digest |
| ApplyProject.ProjectService.Begin | internal/projects/service.go:1895-1909 | the settings check and the creation of the row are the machine's first two steps |
| ApplyProject.ProjectService.BuildContainer | internal/projects/service.go:1935-1981 | pulling unless pinned and recreating the container are its next two, with their failures |
| ApplyProject.ProjectService.CheckHealth | internal/projects/service.go:1983-2004 | so is the health check, where the project asks for one |
| ApplyProject.ProjectService.Publish | internal/projects/service.go:2006-2023 | and routing, DNS and the announcement |
| ApplyProject.ProjectService.Finalize | internal/projects/service.go:1911-1916 | the last event and the last write, and whether a rollback follows |
| ApplyProject.ProjectService.AutoRollback | internal/projects/service.go:1594-1612 | a rollback stores the pin as the project's image before it applies it, and creates at most one further row |
| ApplyProject.ProjectService.Apply | internal/projects/service.go:1895-2028 | one call creates at most two rows, the second only by rolling back to the newest fallback's image, which the project then has; a rollback never starts another |
| ApplyProject.ProjectService.DeployProject | internal/projects/service.go:1895-2028 | an uninterrupted call is a run of the machine over the answers of the outside world: the history is safe, outcome, row, terminal event and announced stages agree, and it returns nil if and only if no answer kept it from that |
| HealthWait.WaitForProjectHealthy | internal/projects/service.go:2735-2773 | verdict, attempts, end, requested waiting and announcements against a world that decides every turn |
| HealthWait.HealthWaitIsBounded | internal/projects/service.go:2677-2759 | with a health check and a timeout of t seconds, or of 5 where none is set, at most 3 * t + 1 attempts and 3 * t seconds of requested waiting; nil exactly when the last check succeeded; giving up only when 3 * t seconds are over, where they fit the type; one attempt without a health check |
| HealthWait.EndsAtIff | internal/projects/service.go:2735-2773 | for every world, the wait ends at an attempt and with a verdict if and only if every attempt before failed inside the window and its wait was not cancelled, and this one ends it so |
| HealthWait.BoundsAreReached | internal/projects/service.go:2735-2759 | both bounds are reached by a world that never becomes healthy |
| DeployBus.Channel.TrySend | internal/projects/service.go:413-418 | a send on an open channel is accepted if and only if it holds fewer than 16 events |
| DeployBus.DeployBus.SubscribeDeployEvents | internal/projects/service.go:378-386 | the new channel is open, empty, and the only change |
| DeployBus.DeployBus.Cancel | internal/projects/service.go:388-398 | the first cancel closes the channel and drops empty sets; a second one panics and changes nothing |
| DeployBus.DeployBus.EmitDeployEvent | internal/projects/service.go:402-419 | every open channel of the project gets exactly one offer, no other channel changes, and no send meets a closed channel |
| DeployBus.DeployBus.Delivery | internal/projects/service.go:378-419 | in every reachable state, received plus buffered events are, in order, those emitted about the project while subscribed, missing exactly the ones emitted while the buffer held 16 |
| IpLimiter.Limiter.AllowIP | internal/auth/service.go:415-438 | the decision and the pruned list after every call |
| IpLimiter.Limiter.ClearIPAttempts | internal/auth/service.go:440-448 | the list of one address is forgotten |
| IpLimiter.DecidesAsFullHistory | internal/auth/service.go:415-438 | with a non-decreasing clock, every call is decided as by the full history since the last clear |
| IpLimiter.WindowBound | internal/auth/service.go:415-438 | no closed interval as long as the window holds more than the limit of admitted calls of one address |
| LoginLockout.AuthService.Login | internal/auth/service.go:190-258 | which replies, user record, sessions and limiter calls one login leads to, with a clock reading for each of the limit and the lockout |
| LoginLockout.LoginAnswers | internal/auth/service.go:207-258 | told from the history: a session, and with it the clearing of the address, if and only if no lockout runs, the secret is readable, the credentials are right and the store clears the failures and keeps the session; each reply if and only if it should be given |
| LoginLockout.StoredStateIsHistory | internal/auth/service.go:215-236 | the stored count is the number of failures since the last right credentials, and the stored lock runs one lockout from the last of them |
| LoginLockout.FailuresAreSpaced | internal/auth/service.go:207-236 | from the locking failure on, failures are at least one lockout apart, however the clock moves |
| LoginLockout.KthFailure | internal/auth/service.go:207-236 | the k-th failure comes no sooner than k - lockoutAfter lockouts after the lockoutAfter-th |
| LoginLockout.NoSessionWhileLocked | internal/auth/service.go:207-258 | until a lockout is over every login is refused and changes nothing; a session needs right credentials |
| WebhookLimiter.Limiter.Sweep | internal/server/middleware.go:81-85 | exactly the entries not seen within the window are dropped, in any order of the map |
| WebhookLimiter.Limiter.Allow | internal/server/middleware.go:75-103 | the decision and the entries after every call |
| WebhookLimiter.SweepChangesNothing | internal/server/middleware.go:75-103 | with a non-decreasing clock, every call is decided as by a limiter that never sweeps |
| WebhookLimiter.WindowBound | internal/server/middleware.go:87-102 | every window of a key admits at most the limit, or one call if the limit is less |
| WebhookLimiter.AnyIntervalBound | internal/server/middleware.go:75-103 | any half-open interval of one window length admits at most 2 * limit - 1 calls of a key |
| WebhookLimiter.IntervalBoundIsReached | internal/server/middleware.go:75-103 | for every limit, a run that admits that many |
| DockerControl.EnvSlice | internal/dockerx/service.go:593-610 | the entries of a map, by key, whatever order the map yields |
| DockerControl.BindMounts | internal/dockerx/service.go:612-627 | the sorted bind strings of the mounts |
| DockerControl.BindMountsFromInspect | internal/dockerx/service.go:629-661 | the sorted mounts that bind strings describe |
| DockerControl.PortBindings | internal/dockerx/service.go:680-694 | the port map of the bindings |
| DockerControl.PublishedPortsFromInspect | internal/dockerx/service.go:696-723 | every binding of a port map as often as the map has it, whatever order the map yields |
| DockerControl.EnvRoundTrips | internal/projects/controller_update.go:123-136 | a map comes back from its entries if and only if no key contains "=" |
| DockerControl.BindsRoundTrip | internal/dockerx/service.go:612-661 | mounts come back from their bind strings, as a multiset, if and only if no path contains a colon |
| DockerControl.OptionsRead | internal/dockerx/service.go:629-661 | a bind string is read as read-only if and only if one of its options is "ro" in any case |
| DockerControl.PortsRoundTrip | internal/dockerx/service.go:680-723 | bindings come back from the port map, as a multiset, if and only if their protocols are lower case and not blank |
| DockerControl.OneBindingListed | internal/dockerx/service.go:680-738 | a published port is listed under its protocol in lower case, or as tcp when it names none |
| SelfUpdate.Docker.InspectContainer | internal/dockerx/service.go:201-249 | what an inspection shows of a stored container |
| SelfUpdate.Docker.RecreateContainer | internal/dockerx/service.go:384-444 | the container is the described one if Docker does all that it is asked; else the last call failed and leaves the old one, perhaps stopped, none, or the new one; no other container changes |
| SelfUpdate.BuiltIsUpdated | internal/projects/controller_update.go:42-62 | a container built from what was seen differs from the seen one in ids, image, image variable and networks only, up to the order of mounts and ports and to an unknown restart policy |
| SelfUpdate.SelfUpdateController | internal/projects/controller_update.go:24-68 | if Docker does all that it is asked and the container exists, the update keeps everything else an inspection shows; otherwise the last call failed, and it leaves the old container, perhaps stopped, none, or the updated one |
| SelfUpdate.SelfUpdateTwice | internal/projects/controller_update.go:24-68 | of two successive updates to the same image, the second changes nothing that an inspection shows but the ids |
| Releases.NormalizeReleaseVersion | internal/server/controller_update.go:210-236 | the normal form of a version, or none |
| Releases.ReleaseIff | internal/server/controller_update.go:210-236 | a text is a release version of some parts if and only if it spells them: numbers joined by dots, perhaps after a v and before a suffix |
| Releases.NormalizedIsNormal | internal/server/controller_update.go:210-236 | normalizing twice is normalizing once, and does not change any comparison |
| Releases.CompareReleaseVersions | internal/server/controller_update.go:238-272 | the sign of the first difference between the parts |
| Releases.CompareMeans | internal/server/controller_update.go:238-261 | the result is -1, 1 or 0 exactly when the first part that differs, missing parts counting as zero, is smaller, larger, or does not exist |
| Releases.ComparesNumbers | internal/server/controller_update.go:238-272 | for all release numbers as they are written, the result is the sign of the first difference between the numbers, missing ones counting as zero |
| Releases.ComparisonIsAPreorder | internal/server/controller_update.go:238-261 | antisymmetric in sign, reflexive, and transitive through releases |
| Releases.TransitiveThroughReleasesOnly | internal/server/controller_update.go:238-261 | transitivity holds through a version if and only if it is a release version |
| Releases.EqualUpToZeros | internal/server/controller_update.go:238-272 | releases compare as equal if and only if they differ in trailing zero parts only |
| ControllerUpdate.ControllerUpdateStatus | internal/server/controller_update.go:29-104 | an update is offered if and only if the latest release is strictly greater than the running version, and triggering also if and only if a moving channel has no two releases to compare; the target is of the same repository |
| ControllerUpdate.OfferedIffOlder | internal/server/controller_update.go:29-104 | the latest release is offered if and only if the release that runs is older in its numbers, told from the controller's version or else from its image's tag |
| ControllerUpdate.ChannelsRefresh | internal/server/controller_update.go:29-104 | without a known release, an image can be pulled again if and only if its tag is latest or main |
| ControllerUpdate.TargetReadsBack | internal/server/controller_update.go:175-198 | an offered image reads back as the same repository with the offered tag |
| ControllerUpdate.UpdateSettles | internal/server/controller_update.go:29-104 | once the offered image runs, the same latest release is reported as the running one |

## Left out

- CaddyMerge.MergeManagedRoutes: nested objects are values written back, not Go maps updated through shared references.
- CaddyRoutes.BuildConfig: ties of the unstable sort are broken by the input order; FirstMatchIsMostSpecific holds for every sorted permutation.
- CaddyExtract.ExtractHTTPRoutes: members come in the byte order of their names, as Caddy and the merge write them, and once each; a body that is not JSON at all is not represented.
- DriftAfterMerge.MergeThenDiagnose: ties of the unstable sort are broken by the order of the rules.
- CaddyRuns.LiveFirstMatch: how Caddy takes a kept route of others is a parameter; a route that passes requests on counts as not taking them.
- RouteDrift.CaddyDiagnostics: messages are not modelled, only verdicts, counts and status.
- ProjectRoutes.SharedCaddy.ReconcileManagedRoutes: configs are compared as trees, not as normalized bytes, and the failed requests are parameters.
- ProjectRoutes.ExpectedAreWanted: the root domain must be trimmed, as the settings store it; the port of the controller's address is a parameter, for its parsing is not part of this model.
- CaddyServing.RuleServes: what Caddy does beside these handlers to a request, such as cleaning a path and rewriting its query, is not modelled.
- DeployMachine.StepKeepsInv: the "running" events of single health attempts are not in the machine's log; HealthWait has them.
- DeployMachine.HistorySafety: projects are not deleted while they are applied, and started_at grows with the id.
- ApplyProject.ProjectService.DeployProject: the service runs without interruption; interleavings are the machine's.
- DeployBus.DeployBus.EmitDeployEvent: an emission is one atomic step; receives between the sends of one emission touch one channel each and are covered by a receive before or after it.
- SelfUpdate.Docker.InspectContainer: containers are found by name, not by id.
- LoginLockout.AuthService.Login: hashing, one-time codes, tokens and session records are a yes or no of the credentials check and a session's user and time.
- DockerControl.PortBindings: port numbers are valid, so the panic on an invalid one does not occur; container creation options that an inspection does not show (exposed but unpublished ports, entrypoint, resource limits) are not described.
- SelfUpdate.BuiltIsUpdated: a restart policy that is blank or unknown becomes "unless-stopped", and the retry count of "on-failure" is not read.
- ControllerUpdate.TargetReadsBack: the tag must hold no "@" and no ":", which registry tags never do.
- Unicode: white space and case are ASCII.
- SQL, HTTP, Docker, Cloudflare and GitHub clients, JSON bytes, cryptography: outside effects, decided by parameters.
- Database provisioning, backups, image checks, GitHub import, configuration loading, templates and statistics: they would add only easy members.
