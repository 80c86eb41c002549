# ip·Solis verification project

This project models the stateful and arithmetic cores of ip·Solis, a self-service portal for ordering IT
assets, and proves properties of them in Dafny. Check it with `dafny verify dfyconfig.toml`.

One module per file; each models one part of the system:

- `SeedScripts`, `RunbookSeeds` (with `Text`): scripts and runbooks are exported to headed text files and
  JSON documents, and read back by the first migration. The printer and the parser were written
  separately. The round trip is characterised exactly; repeated export/import is shown to converge.
- `CostReport`, `FxReport`: the contract view and the per-order rows price the same seats independently
  (two roundings against one), rows are grouped into buckets, and buckets are converted across currencies.
  Bounds and conservation laws hold over any set of orders and for any rounding to a nearest cent.
- `Locales`: the validator compares sets of dotted key paths instead of key trees.
- `AccessReport`: a "latest successful event per key" query stands in for replaying a log.
- `Certification`, `CertificationRuns`: campaigns, reviews and orders under every run of the campaign
  routes, of the three decision routes, and of the rest of the system changing orders meanwhile.
- `Dispatch`: commit first, send the task second, with interleaving requests and a crash possible between
  any two steps.
- `LicenseTrust`: the list of trusted keys and its index grow together; verification has a routed and a
  fallback path.
- `ReferentialIntegrity`: DELETE under the declared foreign keys (cascade, set null, no action), the
  deletion routes and the retention cleanup.
- `ConfigCache`: the per-worker cache of configuration globals with its double-checked lock.
- `MigrationImport`: the insert-only configuration import, planned and then committed, and its partner
  the export.
- `CloneName`: the search for a free name when an asset type is cloned.
- `AdminUsers`: the guard that keeps one active superadmin.

Code that changes rows or globals in place is a class whose methods are proved equal to a specification
function (`Certification.Handle`, `MigrationImport.Import`, `AdminUsers.After`, …); loops carry
invariants against such functions, and the theorems are about the functions. The protocols (`Dispatch`,
`ConfigCache`) are state machines over small steps, because interleaving is the point there.

## Where the code differs from its own words

- **Round trip of seed scripts.** It fails when a body line inside the five-line header window looks like
  a header, and when the flattened description still holds a line boundary other than CR and LF (a vertical
  tab, a form feed, U+2028). `RoundTrip` gives the exact condition; `TornDescription` says what becomes of
  the second kind.
- **Runbook steps.** A zero retry count comes back as 1. Seeding never replaces a row, so a step whose script
  has the name of a row already there (the migration inserts six built-in scripts before it reads the files)
  runs that row, not the exported script. A step whose script's name is untrimmed or holds a line break,
  which the script API accepts, loses its link (`StepFindsItsScript` gives the exact condition).
- **Locale check.** The path sets do not decide tree equality on their own. With a well-formed master they do
  exactly for files whose keys are non-empty and free of dots (`ComparisonDecides`); `TwinPasses` and
  `WrappedPasses` give, for every nested file, different trees the check accepts.
- **Deleting an asset type** is described as always succeeding. It fails exactly when an order of another
  type still holds one of its assets, which editing the type of a free asset can bring about
  (`RetypingBlocksDeletion`). The database cascades order steps although a comment says it does not; the
  explicit delete in the code is then redundant, and is modelled.
- **Commit then dispatch.** A request that dies between its commit and its send never sends its task; the
  order waits for a task that will not come unless another request sends one (`DueTaskSentIff`,
  `CrashLosesTask`).
- **Configuration cache.** The timestamp starts at zero, so a worker that starts within the TTL of the monotonic
  clock's origin lets calls pass before the first refresh. The start reads title and logo but no update keys,
  so such calls return to stale globals exactly when the table holds an update key that is not at its default
  (`FreshFromTheStartIff`, `FreshFromHydrationIff`).
- **Access report.** The grant/revoke log is called immutable, but its rows go with their order, so deleting an
  order can change reports of the past; `DeletionKeepsReportIff` says exactly when.
- **License verification** promises never to raise. It raises on a `type` that is a list or an object, without
  any valid signature when the payload names no key (`VerifyLicense`).
- **Migration import.** A dry run accepts a document that names the same new type twice; the real import
  then fails as a whole. The export leaves out six configuration columns, so types that use them do not
  travel unchanged (`TypeTravelsIff`).
- **Clone names** run "Foo (copy)", "Foo (copy) 2", not "Foo (copy 2)" as the route's comment has it.
- **Superadmin guard.** It refuses some harmless requests; `RefusalIsNeededIff` says which.

## Model

| member | source | states |
|---|---|---|
| SeedScripts.RenderScriptFile | api/app/routes/admin_seed_export.py:85-112 | the header-stripping loop produces the specified file text for every row |
| SeedScripts.ParseScriptFile | api/alembic/versions/0001_initial_schema.py:1678-1698 | the five-line scan with its moving body start equals the recursive reading of the file |
| SeedScripts.RoundTrip | api/app/routes/admin_seed_export.py:85-112 | export then import gives the trimmed name, flattened description, stripped and right-trimmed body back if and only if the header fits and no body line in the window is taken for one |
| SeedScripts.ImportSettles | api/alembic/versions/0001_initial_schema.py:1684-1698 | any imported row, from any text, has a trimmed one-line description and a body without trailing blanks; its name is a trimmed single line too, unless the file names none and its stem does not make one |
| SeedScripts.CycleShrinksOrStays | api/app/routes/admin_seed_export.py:99-112 | on an imported row one more cycle either loses body lines or changes nothing |
| SeedScripts.SettledConverges | api/alembic/versions/0001_initial_schema.py:1684-1697 | a settled row is a fixed point after at most as many cycles as its body has lines |
| SeedScripts.CyclesConverge | api/app/routes/admin_seed_export.py:99-112 | a row is imported again if and only if its type has a seed suffix; repeated cycles then reach a fixed point, and a good name is never lost on the way |
| SeedScripts.NameSurvives | api/alembic/versions/0001_initial_schema.py:1686-1689 | a trimmed non-empty single-line name survives whatever body and description follow it |
| SeedScripts.FirstCycleNeverGrows | api/app/routes/admin_seed_export.py:99-112 | with a single-line description the body never gains lines, not even on the first cycle |
| SeedScripts.TornDescription | api/app/routes/admin_seed_export.py:93-97 | a description holding other line boundaries tears the header: for any body, only its first line comes back as the description and the others head the body if and only if none of those lines is taken for a header; the body then grows by the lines torn off |
| SeedScripts.SlugIsGoodName | api/app/routes/admin_seed_export.py:68-78 | a file named after a slug falls back to a usable name |
| SeedScripts.ExportedTextIs | api/app/routes/admin_seed_export.py:85-112 | for every row, the exported text is the name line, the description line if any, and the content's lines without trailing white space; only a leading run of lines starting with one of the two tags is left out, and the first line kept starts with neither |
| SeedScripts.UntouchedBody | api/app/routes/admin_seed_export.py:99-112 | a script whose first line is not blank and starts with neither tag comes back from a cycle whole, line by line, if no line in the window looks like a description |
| SeedScripts.OneLineIs | api/app/routes/admin_seed_export.py:92-93 | in a description a carriage return goes, a line feed becomes a space, and every other character stays in its place |
| SeedScripts.SafeNameIsItsSlug | api/app/routes/admin_seed_export.py:68-78 | a name of safe characters without a dot or underscore at its ends is its own slug |
| SeedScripts.HeaderlessName | api/alembic/versions/0001_initial_schema.py:1684-1695 | a file that names nothing in its first five lines is named after its stem, underscores becoming blanks |
| RunbookSeeds.SeedScriptModules | api/alembic/versions/0001_initial_schema.py:1700-1712 | the seeding loop inserts exactly the parsed rows whose names are new |
| RunbookSeeds.SeededRow | api/alembic/versions/0001_initial_schema.py:1700-1712 | whatever the table held and whatever the files, a name finds the row that was there before, else the first file imported under it |
| RunbookSeeds.SeedExported | api/alembic/versions/0001_initial_schema.py:1700-1712 | after seeding any table from an exported library, a script's name finds the row the table had under it, or else the script as one cycle leaves it if the header carries the name and the type has a suffix, or else nothing |
| RunbookSeeds.StepLink | api/alembic/versions/0001_initial_schema.py:1714-1764 | the row an exported step runs after seeding any table, also when several scripts are imported under one name: the first file wins |
| RunbookSeeds.StepFindsItsScript | api/app/routes/admin_seed_export.py:130-178 | for any table seeded, built-in rows included: exactly when a step comes back with a script, and exactly when that is its own script as one cycle leaves it |
| RunbookSeeds.FileOfNameless | api/app/routes/admin_seed_export.py:120-126 | a script without a name is exported to a file named after its id |
| RunbookSeeds.StepFieldsSurvive | api/app/routes/admin_seed_export.py:130-178 | the other fields of a step come back as they were, a zero retry count as 1 and a zero timeout as 120 |
| RunbookSeeds.StepDefaults | api/alembic/versions/0001_initial_schema.py:1759-1760 | a step that gives neither count nor timeout is seeded with 3 retries and 120 seconds |
| CostReport.SeatPricesWithinACent | api/app/routes/admin_cost_report.py:207-214 | one seat priced with one rounding and with two differs by at most a cent |
| CostReport.SeatPricesDoDiffer | api/app/routes/admin_cost_report.py:322-332 | a contract for which the two prices really differ |
| CostReport.PricingsAgree | api/app/routes/admin_cost_report.py:295-337 | over any orders, the per-order costs billed to a contract are within `consumption` cents of its `allocated_monthly` |
| CostReport.ContractConserved | api/app/routes/admin_contracts.py:114-134 | until over-allocation, allocated plus shelfware is seats times the seat price, within half a cent per seat of the monthly value; beyond it there is no shelfware; twelve monthly values of a yearly contract are within 6 cents of its value, three of a quarterly one within a cent |
| CostReport.NoSeatsNoPrice | api/app/routes/admin_contracts.py:114-134 | a contract without seats has a monthly value and nothing else |
| CostReport.OrderRowIs | api/app/routes/admin_cost_report.py:207-260 | which orders have a row and what it bills: an active order of a priced type; per seat to the nearest cent of the contract's value over 12, 3 or 1 months and its seats, else the type's own monthly cost, in the currency the price comes from |
| CostReport.AggregateBy | api/app/routes/admin_cost_report.py:362-383 | the bucket loop equals the recursive grouping |
| CostReport.GroupingKeepsMoney | api/app/routes/admin_cost_report.py:362-383 | grouping conserves money under any weighting of keys and currencies |
| CostReport.GroupingKeepsOrders | api/app/routes/admin_cost_report.py:362-383 | grouping conserves order counts and the set of asset types for any selection of keys and currencies |
| CostReport.GroupingKeepsKeysApart | api/app/routes/admin_cost_report.py:362-383 | there is one bucket per key and currency |
| CostReport.GroupedTypesApart | api/app/routes/admin_cost_report.py:362-383 | since a type has one effective currency, buckets of one key never share an asset type |
| FxReport.ConvertList | api/app/routes/admin_cost_report.py:574-602 | the conversion loop yields the specified rows and exactly the excluded currencies (what the rows are worth: ConversionKeepsWorth) |
| FxReport.AggregateConverted | api/app/routes/admin_cost_report.py:134-158 | the re-aggregation loop equals its recursive specification |
| FxReport.CollapseConserves | api/app/routes/admin_cost_report.py:134-158 | re-aggregation leaves one row per key and conserves each key's total, orders and type count |
| FxReport.ConversionKeepsWorth | api/app/routes/admin_cost_report.py:586-600 | a converted row keeps its worth: its amount times the rate of the target is within half a cent's worth of the old amount times the rate of the old currency |
| FxReport.ConvertedTotals | api/app/routes/admin_cost_report.py:574-608 | one row per key, and conversion keeps its worth: in the canonical currency it is within half a cent of the target, per converted row, of the key's rows before, each at its own currency's rate |
| FxReport.ConvertedOrders | api/app/routes/admin_cost_report.py:574-608 | order counts survive except for rows without a currency or in one reported as excluded |
| FxReport.CardsMatchOrders | api/app/routes/admin_cost_report.py:550-615 | from the orders to the converted cards: exact order and asset-type counts, and in the canonical currency the amount is within half a cent of the target, per converted bucket, of the sum of every order's cost at its own currency's rate |
| Locales.FlattenKeys | tools/validate_locales.py:19-29 | the recursive loop returns the specified set of dotted paths |
| Locales.FlatKeysAreRoutes | tools/validate_locales.py:19-29 | those paths are exactly the root-to-leaf routes of the key tree, dotted |
| Locales.SameTreeSameKeys | tools/validate_locales.py:53-61 | equal key trees always give equal path sets |
| Locales.FlatteningIsExact | tools/validate_locales.py:53-61 | for keys non-empty and free of dots, equal path sets if and only if equal key trees |
| Locales.ComparisonDecides | tools/validate_locales.py:53-61 | for a master with keys non-empty and free of dots, another file has its key tree if and only if the path sets are equal and its keys are such keys too |
| Locales.TwinPasses | tools/validate_locales.py:19-29 | every nested file has a one-level twin with the same path set and another tree |
| Locales.WrappedPasses | tools/validate_locales.py:19-29 | every nested file passes against itself put under an empty key, which is another tree |
| Locales.Validate | tools/validate_locales.py:37-79 | the exit code: 2 without a master, and 0 exactly when the German, French, Spanish and Italian files exist and have the master's path set |
| Locales.MatchMeansSameTree | tools/validate_locales.py:53-78 | for such a master, a locale has its key tree if and only if the validator reports a match and the locale has such keys |
| AccessReport.QueryIsReplay | api/app/routes/admin_access_report.py:93-128 | the query equals folding the log in (executed_at, id) order up to the cutoff, adding on grant and removing on any other successful event |
| AccessReport.NextDay | api/app/routes/admin_access_report.py:54-77 | the set for one day is the set for the day before with only that UTC day's events replayed |
| AccessReport.OnlyPastSuccessesMatter | api/app/routes/admin_access_report.py:93-128 | failed rows and rows after the cutoff never change the answer |
| AccessReport.OneRowPerKey | api/app/routes/admin_access_report.py:93-128 | the report has one row per key |
| AccessReport.ShownIff | api/app/routes/admin_access_report.py:93-128 | a row is shown if and only if it is a successful grant before the cutoff and every other success for its key before the cutoff is older, or as old with a smaller id |
| AccessReport.CutoffIsMidnight | api/app/routes/admin_access_report.py:54-77 | a report for a day covers exactly the events up to the end of that UTC day |
| AccessReport.DeletionKeepsReportIff | api/alembic/versions/0001_initial_schema.py:964 | deleting orders leaves a past report as it was if and only if no key's latest event, belonging to such an order, is a grant or hid a remaining grant |
| Certification.WideningKeepsOrders | api/app/routes/admin_certifications.py:356-376 | widening any scope list never loses an order |
| Certification.ScopeIsConjunction | api/app/routes/admin_certifications.py:356-376 | the empty scope admits every order, and the four lists restrict independently |
| Certification.ScopeListIsDisjunction | api/app/routes/admin_certifications.py:356-376 | within a list two parts admit what either admits |
| Certification.ScopeEntryMeans | api/app/routes/admin_certifications.py:356-376 | what one entry asks of an order, a missing cost centre counting as "(unassigned)" and addresses compared trimmed and in lower case |
| Certification.Service.UpdateCampaign | api/app/routes/admin_certifications.py:239-289 | assigns fields before its last check and still ends in the old or the fully edited state |
| Certification.Service.CreateReviews | api/app/routes/admin_certifications.py:413-432 | the kickoff loop adds exactly the specified reviews (which these are and to whom they go: StartCreatesOneReviewPerOrder) |
| Certification.Service.StartCampaign | api/app/routes/admin_certifications.py:383-446 | starts only a draft and reports the number of reviews created |
| Certification.Service.AdminDecide | api/app/routes/admin_certifications.py:639-722 | the administrator's route, its own tail written out, takes the common decision step or changes nothing |
| Certification.Service.TokenDecide | api/app/routes/certifications_external.py:153-236 | the same for the signed-link route and its tail |
| Certification.Service.PortalDecide | api/app/routes/portal_certifications.py:100-191 | the same for the portal route and its tail, for the reviewer only |
| Certification.DecideEachWay | api/app/routes/certifications_external.py:153-236 | the three routes called on the same database and review: link and administrator accept together, the portal if besides the reviewer is signed in, and all leave the same rows and tasks but for the deciding name |
| Certification.StartCreatesOneReviewPerOrder | api/app/routes/admin_certifications.py:335-446 | kickoff creates exactly one pending review per order in scope that is not revoking, revoked, failed, expired, cancelled or rejected and has an address, and no other; it goes to the manager on file, without one to the owner, and to the requester only without either |
| Certification.HandleKeepsValid | api/app/routes/admin_certifications.py:639-722 | every request keeps: reviews only for started campaigns, one per order, decision time set exactly when decided |
| CertificationRuns.StepMovesCampaigns | api/app/routes/admin_certifications.py:251-279 | a campaign moves from draft to running, to closed or to cancelled if and only if its own start, close or cancel request finds it where it may, dated then; name and scope freeze at the start |
| CertificationRuns.StepMovesReviews | api/app/routes/admin_certifications.py:663-680 | a review changes if and only if it is pending, its campaign runs and the request is one entitled to decide it (this campaign's administrator, a link naming it, its reviewer signed in); verdict, time, name and comment on record are the request's |
| CertificationRuns.StepCampaignRows | api/app/routes/admin_certifications.py:194-323 | campaigns come only by a create with a due date ahead, as drafts, and go exactly by a delete while not running |
| CertificationRuns.StepReviewRows | api/app/routes/admin_certifications.py:292-323 | a review goes if and only if its order does or its campaign is deleted |
| CertificationRuns.StepEdits | api/app/routes/admin_certifications.py:239-289 | an edit is taken whole, field by field, for a draft or a running campaign given only a due date, with the date ahead; otherwise nothing changes |
| CertificationRuns.RunsEvolve | api/app/routes/admin_certifications.py:579-622 | over whole runs nothing settled is ever unsettled: statuses move forward, frozen fields stay, a review is decided at most once |
| CertificationRuns.ReachableIsValid | api/app/routes/admin_certifications.py:397-446 | from the empty database every reachable state meets the invariants |
| CertificationRuns.DeletionsAreRevocations | api/app/routes/admin_certifications.py:693-720 | over a run, the delete tasks sent for an order are exactly the revocations by requests entitled to decide a review of it that found it neither revoked, cancelled nor rejected |
| CertificationRuns.OnlyRevocationsTouchOrders | api/app/routes/portal_certifications.py:164-190 | outside the rest of the system an order changes if and only if such a revocation reaches it, and then is left revoking with action delete |
| CertificationRuns.DispatchKickoff | api/app/routes/admin_certifications.py:500-557 | the grouping loop equals its specification |
| CertificationRuns.MailsPartitionReviews | api/app/routes/admin_certifications.py:500-557 | one mail per reviewer, each counting exactly that reviewer's reviews; the counts sum to all |
| CertificationRuns.KickoffMailsCountCreated | api/app/routes/admin_certifications.py:432-557 | right after kickoff the mail counts sum to the reviews it reported as created |
| Dispatch.RunsAreSafe | api/app/routes/webhook.py:183-204 | under all interleavings and crashes: every task was called for by an earlier commit of the same request, for its order, and is on "reclaim" exactly when the action committed is a deletion, else on "provision"; a task id is only stored if that task was sent for that order; no request sends twice; a finished request sent the task its commit called for, and none otherwise |
| Dispatch.ReachableIsSafe | api/app/routes/orders.py:137-157 | the same from the start, the cancel, revoke and retry paths included |
| Dispatch.TasksGoToTheirQueue | api/app/routes/webhook.py:219-245 | over all runs every task followed a commit of its order by the same request, and its queue is the one of the action that commit called for |
| Dispatch.DueIsTheRowsAction | api/app/routes/webhook.py:183-204 | the action a commit calls for is the one it writes to the row; a retry writes none and calls for the one it read |
| Dispatch.CancellationCommits | api/app/routes/orders.py:225-247 | a cancellation calls for a deletion exactly for an order delivered, processing or provisioned, and its task goes to "reclaim" |
| Dispatch.RevocationsAndRetriesCommit | api/app/routes/ui.py:612-648 | a revocation commits a deletion for an order not over, a retry the row's own action for a failed one; for others neither does anything |
| Dispatch.DueTaskSentIff | api/app/routes/webhook.py:183-204 | over all runs, a task a commit called for has been sent by that request if and only if the request is past the point between commit and send and did not die there |
| Dispatch.OrderWithoutTaskIff | api/app/routes/orders.py:225-247 | no task was sent for an order if and only if every request that owes it one waits or died at that point |
| Dispatch.CrashLosesTask | api/app/routes/webhook.py:183-204 | a request that dies between commit and send never sends its task, whatever happens later |
| LicenseTrust.TrustStore.LoadOperatorKeys | api/app/license/operator_keys.py:100-146 | list and index end as the specification says and stay in one-to-one agreement |
| LicenseTrust.LoadingAppends | api/app/license/operator_keys.py:131-143 | loading only appends; ids stay distinct and bundled entries unchanged |
| LicenseTrust.EntryIsKeyIff | api/app/license/operator_keys.py:45-97 | exactly which entries become keys, and field by field which keys |
| LicenseTrust.EntryVouchesFor | api/app/license/verify.py:92-110 | which payloads a key of the file may vouch for: a payload without a type counts as "demo", an entry without types accepts "demo" alone |
| LicenseTrust.EveryGoodEntryIsTrusted | api/app/license/operator_keys.py:45-97 | after loading, the id of every well-formed entry is trusted |
| LicenseTrust.LoadingTwiceIsOnce | api/app/license/operator_keys.py:131-143 | loading the same file again changes nothing |
| LicenseTrust.VerifyLicense | api/app/license/verify.py:81-157 | the branching routed path and the fallback loop equal the specified verdict, and exactly when the verifier raises in place of answering |
| LicenseTrust.FallbackFindsFirst | api/app/license/verify.py:124-157 | the fallback verifies if and only if some key accepts the type and checks the signature, by the first such key, else lists all it tried |
| LicenseTrust.IndexMatchesList | api/app/license/trusted_keys.py:71-98 | the index finds what walking the list would find |
| LicenseTrust.BundledKeysSplitTypes | api/app/license/trusted_keys.py:71-98 | without an operator file only the commercial key verifies commercial payloads and only the demo key demo or untyped ones, on both paths |
| LicenseTrust.LoadingIsMonotone | api/app/license/operator_keys.py:131-143 | a payload verified before loading is verified after, by the same key, on both paths |
| LicenseTrust.KnownIdsAreSettled | api/app/license/verify.py:97-122 | for an id already trusted the verdict does not depend on the operator file |
| ReferentialIntegrity.DeleteKeepsIntegrity | api/alembic/versions/0001_initial_schema.py:955-973 | a DELETE that goes through leaves no dangling reference |
| ReferentialIntegrity.DeleteSucceeds | api/alembic/versions/0001_initial_schema.py:955-973 | it fails if and only if a surviving row's NO ACTION key points at a row named |
| ReferentialIntegrity.DeleteRemoves | api/alembic/versions/0001_initial_schema.py:955-973 | after it, a row is gone if and only if it was named or a CASCADE key of it points at a row that is gone |
| ReferentialIntegrity.OrdersAreDeletable | api/app/routes/admin.py:1243-1256 | unlink, delete steps, delete orders always goes through and takes no other order, asset or type |
| ReferentialIntegrity.OrdersRemoved | api/app/routes/admin.py:1243-1256 | and it takes exactly the orders and what cascades from them |
| ReferentialIntegrity.AssetTypeDeletion | api/app/routes/admin.py:1234-1272 | deleting a type succeeds if and only if no order of another type holds one of its assets; nothing then dangles, and a row is gone if and only if it is the type, one of its orders or assets, or cascades from a row that is gone |
| ReferentialIntegrity.TypeDeletionSweeps | api/app/routes/admin.py:1234-1272 | table by table what goes with a type: orders, assets, grants, runbooks, bundle items, and what belongs to those orders and runbooks |
| ReferentialIntegrity.TypeDeletionUnlinks | api/alembic/versions/0004_drift_reconciliation.py:49-50 | drift findings and attestations outlive the type and its orders and lose the link |
| ReferentialIntegrity.ParentTakesAlong | api/alembic/versions/0001_initial_schema.py:956-960 | deleting a user, campaign or bundle always goes through and takes its grants, reviews or items along |
| ReferentialIntegrity.ParentUnlinks | api/alembic/versions/0008_onboarding_bundles.py:68-77 | orders outlive their group, groups their bundle and types their contract, without the link |
| ReferentialIntegrity.ScriptUnlinks | api/alembic/versions/0001_initial_schema.py:969 | runbook steps outlive the script they ran, without the link |
| ReferentialIntegrity.AssetDeletion | api/app/routes/admin.py:1429-1449 | deleting an asset always succeeds, leaves nothing dangling, and takes exactly the asset and what cascades from it |
| ReferentialIntegrity.AssetRelease | api/app/routes/admin.py:1606-1623 | releasing an asset keeps every row and integrity |
| ReferentialIntegrity.AssetRevocation | api/app/routes/admin.py:1604-1623 | the whole state after a revocation, row by row: holders lose the link and are cancelled unless already over, the asset is free and names no order, every other row is unchanged |
| ReferentialIntegrity.RetypingBlocksDeletion | api/app/routes/admin.py:1389-1407 | giving a new type to a free asset an order still names makes that type undeletable |
| ReferentialIntegrity.RetentionCleanup | api/app/routes/admin_maintenance.py:530-592 | the cleanup always goes through and keeps integrity; a row is gone if and only if it is older than the days of 24 hours set for its table, one of the three retention tables, or cascades from a row that is gone |
| ReferentialIntegrity.CleanupSweeps | api/app/routes/admin_maintenance.py:530-592 | with an overdue order go its steps, approvals, change log and reviews, with an overdue run its steps |
| ReferentialIntegrity.Database.DeleteType | api/app/routes/admin.py:1234-1272 | the bulk statements, with roll-back, equal the specified deletion |
| ReferentialIntegrity.Database.RemoveAsset | api/app/routes/admin.py:1429-1449 | only a free asset or one under maintenance is deleted |
| ReferentialIntegrity.Database.ForceDeleteAsset | api/app/routes/admin.py:1533-1558 | any asset goes, after its orders are cancelled and unlinked; integrity holds |
| ReferentialIntegrity.Database.RevokeAsset | api/app/routes/admin.py:1606-1623 | the statements of the route equal cancel, unlink and release (what that leaves: AssetRevocation) |
| ReferentialIntegrity.Database.RunCleanup | api/app/routes/admin_maintenance.py:551-592 | the loop performs the specified cleanup, and a dry run counts exactly what the real run deletes |
| ConfigCache.Refreshed | api/app/templates_instance.py:123-145 | after a refresh the globals show every present key, the logo and all update keys also when absent, and keep the other absent ones; each global shows its own key, trimmed where the code trims, and the update check is on exactly for one of five words |
| ConfigCache.ShowsDetermines | api/app/templates_instance.py:207-223 | that description leaves no freedom: two environments meeting it are equal |
| ConfigCache.TemplateEnv.PushRows | api/app/templates_instance.py:276-296 | the loop over the rows, in any order, produces exactly those globals |
| ConfigCache.RunsAreSafe | api/app/templates_instance.py:249-309 | every interleaving of callers, clock, writers and failures keeps the protocol's invariant |
| ConfigCache.CacheIsFresh | api/app/templates_instance.py:249-309 | once warm, a call that does not fail returns to globals that show the table at a moment less than one TTL before the call, or later; unforced refreshes are one TTL apart, so waiters do not repeat them |
| ConfigCache.RunEffects | api/app/templates_instance.py:263-309 | over every run: the globals are the pushes of snapshots the database went through, in order; the timestamp is that of the last completed refresh; no refresh completes without its own push |
| ConfigCache.FailuresChangeNothing | api/app/templates_instance.py:270-309 | over any stretch in which reads fail globals and timestamp stay; over any in which refreshes fail after their push the timestamp stays |
| ConfigCache.FreshFromTheStartIff | api/app/templates_instance.py:249-309 | over all runs every call that does not fail returns to globals that show a moment of the table younger than the TTL if and only if the worker begins at least one TTL after the origin of the monotonic clock or the globals it begins with show the table |
| ConfigCache.FreshFromHydrationIff | api/app/main.py:60-74 | for a worker that read title and logo at its start: if and only if it begins that late or no update key holds anything but its default; for one whose start failed to read: or the table shows the defaults |
| ConfigCache.TemplateEnv.HydrateAtStart | api/app/main.py:60-72 | the start's loop over the rows, in any order, produces exactly the specified globals |
| MigrationImport.TypeTravelsIff | api/app/routes/admin_migration.py:56-180 | an exported type is rebuilt unchanged if and only if no column holds a value the import coerces or the export drops |
| MigrationImport.BuiltColumns | api/app/routes/admin_migration.py:134-180 | how each column is rebuilt: its default when left out (mode columns and quota also when falsy), switches as booleans, columns no document carries at their default, every other value as it is |
| MigrationImport.DryRunForetells | api/app/routes/admin_migration.py:203-322 | a real import that goes through reports the dry run's counts (so the missing-id skip never happens); it goes through if and only if the planned rows are storable and type names distinct; no existing row changes |
| MigrationImport.ReimportCreatesNothing | api/app/routes/admin_migration.py:203-322 | importing the same document again succeeds and creates nothing |
| MigrationImport.FreshImportRebuilds | api/app/routes/admin_migration.py:86-322 | exporting and importing into empty tables rebuilds every portable type and every instance, bound to the type of the same name |
| MigrationImport.PlannedTypes | api/app/routes/admin_migration.py:217-243 | every type entry ends in exactly one list: planned if and only if its row is plannable, skipped if a type has its name, else invalid |
| MigrationImport.PlannableIff | api/app/routes/admin_migration.py:217-243 | what planning asks of a row: a name not taken, one of five categories, and no constraint violated with falsy modes at their defaults |
| MigrationImport.ReportAccounts | api/app/routes/admin_migration.py:203-322 | created, skipped and invalid add up to the type entries, and the created counts are the rows really added |
| MigrationImport.PlannedPool | api/app/routes/admin_migration.py:249-267 | planned instances have distinct new names and a known type |
| MigrationImport.InsertTypesIff | api/app/routes/admin_migration.py:288-292 | the inserts go through if and only if every row is storable and names are new and distinct |
| MigrationImport.PlanTypesLoop | api/app/routes/admin_migration.py:211-243 | the type-planning loop equals its specification, exceptions included |
| MigrationImport.PlanPoolLoop | api/app/routes/admin_migration.py:249-267 | the pool-planning loop equals its specification, exceptions included |
| MigrationImport.InsertPoolLoop | api/app/routes/admin_migration.py:304-314 | the commit loop inserts what the specification inserts and counts it |
| MigrationImport.ConfigStore.ImportConfig | api/app/routes/admin_migration.py:184-322 | the whole route, dry or real, with roll-back on any failure |
| CloneName.PrintedIsInjective | api/app/routes/admin.py:1173 | different suffixes print differently |
| CloneName.PrintedReadsBack | api/app/routes/admin.py:1173 | a printed suffix is the decimal of its number, without a leading zero |
| CloneName.TakenBound | api/app/routes/admin.py:1165-1174 | pigeonhole: no more candidates can be taken than there are names |
| CloneName.FindCloneName | api/app/routes/admin.py:1165-1174 | terminates after at most one probe more than there are names, with the first free candidate, which is the name with " (copy)" and from the second probe on that probe's number |
| CloneName.RepeatedClones | api/app/routes/admin.py:1165-1174 | k searches in a row, among any names, each adding its name: ever later candidates, none taken before, no free one passed over |
| AdminUsers.Service.CreateUser | api/app/routes/admin_users.py:129-169 | creates an active user under a normalised new name, or changes nothing |
| AdminUsers.Service.UpdateUser | api/app/routes/admin_users.py:173-255 | edits the row in the session, and a rejection after the role was already changed still leaves the committed table alone |
| AdminUsers.Service.DeleteUser | api/app/routes/admin_users.py:259-302 | deletes the row or changes nothing |
| AdminUsers.RunsKeepASuperadmin | api/app/routes/admin_users.py:193-300 | once an active superadmin exists, one exists after every sequence of requests |
| AdminUsers.OwnRequestsAreSafe | api/app/routes/admin_users.py:193-280 | no superadmin loses role, access or account by a request of their own |
| AdminUsers.CreateIs | api/app/routes/admin_users.py:129-169 | a user is created if and only if the trimmed lower-case name has 3 to 128 permitted characters and is free; the row is active and the only change |
| AdminUsers.UpdateIs | api/app/routes/admin_users.py:173-255 | an accepted update sets exactly the fields given; it conflicts only on the caller's own standing or with at most one active superadmin; it is unprocessable only when it changes nothing |
| AdminUsers.DeleteIs | api/app/routes/admin_users.py:259-302 | an account is deleted if and only if it exists, is not the caller's and is not the last active superadmin's |
| AdminUsers.RefusalIsNeededIff | api/app/routes/admin_users.py:199-224 | a refused update would have left no active superadmin if and only if its target is an active superadmin |

## Left out

- HTTP, templates, authentication, audit rows, e-mail, Teams, CSV, metrics, backups: plumbing around the cores. The broker is the sequence of tasks sent; `aaudit` and logging calls are omitted.
- Signature cryptography and PEM or hexadecimal decoding: one key's check is an arbitrary deterministic predicate, and the decoded length of a hexadecimal key is an input.
- Worker workflows, `auto_revoked`, approvals, capacity and tier checks, `process_leaver`: not part of this model. In `CertificationRuns` and `Dispatch` the rest of the system may change orders freely, except that it stores no task ids of its own; the routes that do are modelled as creates, cancels, revocations and retries.
- Binary floating point and the finite scale of SQL division: amounts are whole cents, rates exact reals, and rounding any choice of a nearest cent.
- Unicode beyond line boundaries and white space: `upper`, `lower` and `casefold` act on ASCII letters.
- Report ordering, `_summarise` and the filters of the access report, snapshots, the utilisation percentage: presentation of values proved elsewhere.
- SeedScripts.RoundTrip: a script's parameter schema and active flag are not in the seed format and not modelled; two scripts whose slugs collide overwrite each other's file, which is excluded; so is the "Virtual Machine Recycler" step wired after seeding.
- RunbookSeeds.StepFindsItsScript: speaks of a script alone under its imported name, `StepLink` of the others; a step's parameter template and a runbook's own fields are not modelled, because they are copied as they are.
- Races between serial requests outside `Dispatch` and `ConfigCache` (check-then-insert, two demotions at once): every other route is one atomic request.
- ConfigCache.CacheIsFresh: a direct configuration save on the same worker and the license globals are not modelled.
- Update banner and version-tag parsing (`_compute_banner_state`, `_normalise_version_tag`): pure display values.
- MigrationImport.DryRunForetells: entries are objects, falsy or something else; `validate_asset_type`, number parsing and what the columns can store are arbitrary predicates, and JSON `1`, `1.0` and `true` count as different names although Python treats them as equal.
- MigrationImport.FreshImportRebuilds: a type outside the portable form is covered by `TypeTravelsIff` only; timestamps are not modelled.
- CloneName.FindCloneName: the 100-character limit of the column is not modelled; a name beyond it would be refused by the insert.
- AdminUsers.RunsKeepASuperadmin: password history, lockouts and other ways into the table (bootstrap, SCIM, leaver processing) are not modelled.
- `set_user_grants`, `bulk_create_assets`, reorder endpoints and plain create/read/update routes: easy members.
