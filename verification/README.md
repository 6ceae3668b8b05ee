# Verified models of the Passwall server's state machines

This project models the parts of the Passwall server whose correctness depends on state that lives across
calls, and proves what those parts promise over whole runs. Each service is modelled twice: as functions
of its tables, about which the theorems are proved, and as an object whose methods check and update the
tables in the order the service does and are proved to do exactly what the functions say.

`dafny verify dfyconfig.toml` checks everything.

| files | what they model |
|---|---|
| `Sessions`, `SessionService`, `SessionRuns`, `SessionAnswers`, `DeviceCap` | sign-in without a second factor, SSO issue, refresh rotation, validation, sign-out and the password-change wipe over one token table; the shape of every table these calls reach, what each call answers and stores, permanence of revocation, the free-plan device cap |
| `FailedLogin`, `FailedLoginSweep`, `FailedLoginHistory`, `LoginGuard` | the failed-login tracker, its sweeper, its meaning as a function of the failures seen, and the tracker composed with the guard in sign-in |
| `OrgTables`, `OrgInvariant`, `OrgMembership`, `OrgSharing`, `OrgRuns`, `OrgOneRow`, `OrgTenants`, `OrgAcceptance`, `OrgReasons`, `OrgEffects`, `OrgConsequences`, `OrgServices`, `CollectionAccess`, `ScimGroups`, `ScimService` | organizations, memberships, teams, collections, grants and items, changed by 32 kinds of call; tenancy, uniqueness and item placement in every reachable state; which calls keep teams at one row per member and which stay within their organization; who may do what, and what it does; computed access; SCIM group replacement and paging |
| `PolicyCatalog`, `PolicyProtocol`, `PolicyAnswers`, `PolicyReach` | enabling and disabling policies under a dependency catalog; which sets of enabled policies can be reached |
| `Strings`, `PagePath`, `PagePathMeaning`, `PagePathIdempotence`, `TelemetryIngest`, `TelemetryReplay` | the canonical form of page paths and what each segment becomes, dedupe keys, sampling, and the seven-day dedupe window over whole runs |
| `EmergencyAccess`, `EmergencyRuns`, `EmergencyParties`, `EmergencyKeys` | the emergency-access protocol, the books it keeps, who can be a party to it, and which key a vault read hands out |
| `Prefixes`, `Firewall` | address blocks by prefix arithmetic, first-match rules, and the rewritings of a rule list that keep every answer |
| `Decimal`, `SupportId`, `Members`, `Wrappers` | decimal printing, support ids, membership rows, option and result types |

## Where the code does less than one might expect

Several properties hold only under a condition. Each is stated as an equivalence, with a concrete run or
input for the other side.

* The free-plan device cap: the count behind it looks at rows of kind access only
  (`internal/repository/gormrepo/token.go:55-66`), so a session whose access token has expired but whose
  refresh token lives on is not counted. The cap holds exactly when refresh tokens do not outlive access
  tokens; a count over all unexpired rows would always enforce it (`DeviceCap.CapHoldsIff`,
  `DeviceCap.ShippedCapHoldsIff`). With the default lifetimes of 30 minutes and 15 days it does not hold
  (`DeviceCap.DefaultsBreakCap`).
* The sweeper of the failed-login tracker goes unnoticed, and blocks last their full time, exactly when the
  configured windows and blocks fit its fixed two hours (`FailedLoginSweep.SweepUnobservableIffBounded`,
  `LoginGuard.BlocksPersistIff`).
* Earning a block is not enough to be blocked: the failures of a window that has already blocked do not
  block again (`FailedLoginHistory.EarnedBlockMayNotHold`, with the exact rule in `UnsweptBlockedIff` and
  `BlockedIff`).
* The site of a page address is only compared at its start, so a page of a longer name is filed under the
  shorter domain (`PagePathMeaning.LongerNameMeaning`).
* A canonical page path longer than 512 characters is cut, and the cut can end in a segment that is not
  canonical; canonicalizing is idempotent exactly otherwise (`PagePathIdempotence.IdempotentIff`).
* Replaying a telemetry batch inside the window stores nothing exactly when no row that made the first call
  skip an event has left the window in between (`TelemetryReplay.ReplayStoresNothingIff`).
* After `ReKeyForUser` a vault reader gets the old key exactly when a recovery request was pending at that
  call, because such grants are not listed for the new key (`EmergencyKeys.ReadGetsNewKeyIff`). Nothing in
  the shipped code calls it: it is missing from the service's interface
  (`internal/service/emergency_access_service.go:16-27`), and `ChangeMasterPassword` re-keys no grant.
* A vault read asks for ten thousand items, but the repository cuts the page to 5000
  (`EmergencyAccess.VaultIsWholeIff`).
* The date two-factor enforcement began survives a later call exactly when that call carries no settings, or
  settings that keep it (`PolicyProtocol.EnabledAtKeptIff`).
* Adding members to a SCIM group does not look at who is a member already, so a group can hold a member
  twice; a run avoids it exactly when no group call adds a member who is there or names one twice
  (`OrgOneRow.RunUniqueIff`).
* Changing a member's role and changing or removing a row of a team do not compare organizations. A call
  stays within the organization it is made for exactly when it is none of these on a row of another one
  (`OrgTenants.CallIsolatedIff`).
* A first grant on a collection always includes reading, because the column defaults to true
  (`internal/domain/collection.go:59`) and an insert takes the default for false
  (`OrgConsequences.GrantedAsAskedIff`).
* A firewall rule that is covered by an earlier one can be deleted without changing an answer exactly when
  it is not the last allow rule, or no address falls through the rest (`Firewall.DeleteCoveredIff`).
* Told of a failure during a block, the tracker alone drops the block if the failure is late for its window;
  only the guard in sign-in keeps such failures away (`LoginGuard.TrackerAloneDropsBlockIff`).

## Model

| member | source | states |
|---|---|---|
| `SupportId.FormatLosesNothing` | internal/domain/organization_item.go:70-79 | every id from 0 to 2^63-1 prints as five groups of 4, 4, 4, 4 and 3 digits, and reading the digits back gives the id |
| `SupportId.FormatInjective` | internal/domain/organization_item.go:70-79 | no two ids print alike |
| `FailedLogin.Setting` | internal/service/policy_failed_login.go:119-142 | a setting is a positive number cut to an integer, or the default when it is missing, of another type, or not positive |
| `FailedLogin.GetConfig` | internal/service/policy_failed_login.go:113-143 | an organization has settings if and only if its policy is enabled |
| `FailedLogin.KeyInjective` | internal/service/policy_failed_login.go:42-44 | no two pairs of organization and address share an entry |
| `FailedLogin.ToldToWait` | internal/service/policy_failed_login.go:91-103 | waiting the minutes one is told is enough, and one minute less is not |
| `FailedLogin.Tracker.RecordFailedAttempt` | internal/service/policy_failed_login.go:46-76 | the in-place update of one entry is Fail: a late failure restarts the window, the limit-th starts the block, every other entry stays |
| `FailedLogin.Tracker.IsBlocked` | internal/service/policy_failed_login.go:78-104 | reports the minutes to wait, and changes nothing |
| `FailedLogin.Tracker.RecordSuccess` | internal/service/policy_failed_login.go:106-111 | removes the pair's entry and no other |
| `FailedLogin.Tracker.Cleanup` | internal/service/policy_failed_login.go:145-164 | the deleting loop removes exactly the entries past the age limit, in any order |
| `FailedLogin.RunIsWellTimed` | internal/service/policy_failed_login.go:46-76 | in every reachable tracker a block never precedes its window and nothing lies in the future |
| `FailedLoginSweep.RunSimulates` | internal/service/policy_failed_login.go:145-164 | with windows and blocks of at most 120 minutes a swept tracker simulates one that is never swept |
| `FailedLoginSweep.RunAnswersAlike` | internal/service/policy_failed_login.go:145-164 | and gives the same answer to every question, for any failures, successes, questions and sweeps |
| `FailedLoginSweep.SweepUnobservableIffBounded` | internal/service/policy_failed_login.go:145-164 | the sweeper is unobservable if and only if every configured window and block is at most 120 minutes |
| `FailedLoginHistory.TrackerRefinesHistory` | internal/service/policy_failed_login.go:46-76 | without sweeps each entry is a function of that pair's failures since its last success |
| `FailedLoginHistory.EntryOfSuffix` | internal/service/policy_failed_login.go:46-164 | with any settings and sweeps at any times an entry is that function of the last of these failures, those since a sweep dropped it |
| `FailedLoginHistory.UnsweptVerdict` | internal/service/policy_failed_login.go:78-104 | without sweeps, whatever the settings, every answer is decided by those failures |
| `FailedLoginHistory.BlockedIsDecidedByHistory` | internal/service/policy_failed_login.go:78-104 | and with sweeps too when that organization's window and block are at most 120 minutes |
| `FailedLoginHistory.BlockImpliesEnoughFailures` | internal/service/policy_failed_login.go:46-76 | with any settings and sweeps a block means the limit's number of failures within one window, the last of them no longer ago than the block time |
| `FailedLoginHistory.UnsweptBlockedIff` | internal/service/policy_failed_login.go:78-104 | without sweeps, whatever the settings, an address is blocked if and only if its current window reached the limit and the limit-th failure is recent enough |
| `FailedLoginHistory.BlockedIff` | internal/service/policy_failed_login.go:78-164 | and with sweeps too when that organization's window and block are at most 120 minutes |
| `FailedLoginHistory.EarnedBlockMayNotHold` | internal/service/policy_failed_login.go:62-75 | failures that would earn a block need not block: a window blocks once |
| `LoginGuard.AuthService.CheckPassword` | internal/service/auth.go:306-338 | the guard and the two loops over the user's organizations: refused while any is blocked, else a failure recorded for each or all cleared |
| `LoginGuard.AttemptAnswer` | internal/service/auth.go:306-338 | a sign-in is refused if and only if some active organization blocks its known address, with the minutes of the first that does; otherwise the password decides |
| `LoginGuard.AttemptRecords` | internal/service/auth.go:306-338 | a right password clears the address in all active organizations, a wrong one is recorded in each that counts failures, a refusal changes nothing |
| `LoginGuard.BlockPersists` | internal/service/auth.go:306-338 | whatever other sign-ins and sweeps happen meanwhile, an active member signing in from a blocked address is refused until the block has passed |
| `LoginGuard.BlocksPersistIff` | internal/service/policy_failed_login.go:145-164 | every block that ever arises lasts its full time if and only if blocks are at most 120 minutes |
| `LoginGuard.TrackerAloneDropsBlockIff` | internal/service/policy_failed_login.go:62-75 | without the guard one more failure drops a block exactly when it is late for its window and does not reach the limit by itself |
| `Members.GetUserOrgIDs` | internal/service/auth.go:1313-1325 | the appending loop yields exactly the organizations of the active memberships, in order |
| `Members.ActiveOrgsInOrder` | internal/service/auth.go:1313-1325 | memberships are read in order and count when accepted or confirmed |
| `SessionService.AuthService.EnforceDeviceLimit` | internal/service/auth.go:507-560 | a sign-in is past the cap exactly for a free personal plan without an active paid organization and with a counted session |
| `SessionService.AuthService.SignIn` | internal/service/auth.go:295-442 | the in-place sign-in is the function SignIn of the table: refusals change nothing but the device's dropped session |
| `SessionService.AuthService.IssueTokenForUser` | internal/service/auth.go:446-505 | the in-place SSO issue is the function IssueTokenForUser of the table |
| `SessionService.AuthService.RefreshToken` | internal/service/auth.go:562-644 | the in-place rotation is the function RefreshToken of the table, with every refusal and the row it deletes |
| `SessionService.AuthService.ValidateToken` | internal/service/auth.go:646-699 | the in-place validation is the function ValidateToken of the table |
| `SessionService.AuthService.SignOut` | internal/service/auth.go:701-713 | removes the token's session, or only its row when it has none |
| `SessionService.AuthService.ChangeMasterPassword` | internal/service/auth.go:897-900 | an accepted change wipes the user's tokens and nobody else's |
| `SessionRuns.ReachableShape` | internal/service/auth.go:365-393 | from an empty table every session has at most one access and one refresh row, of one user, and each row's token carries that row's identifier, user, session and expiry |
| `SessionRuns.AcceptedTokenMatchesItsRow` | internal/service/auth.go:613-641 | an accepted token was issued, equals its row's, and names its row's session, so the branch for tokens without a session is never taken |
| `SessionRuns.StoredPairLifetimes` | internal/service/auth.go:715-762 | the two tokens of a pair are accepted for exactly their lifetimes in whole seconds |
| `SessionRuns.SignInOpensSession` | internal/service/auth.go:365-393 | a sign-in leaves the session with the new pair only, and removes nothing but that session's rows or, past the cap, that user's |
| `SessionRuns.RotationStaysInSession` | internal/service/auth.go:613-641 | rotation keeps session, owner, device and app, and leaves the session with the new pair only |
| `SessionRuns.RevokedRowsLeave` | internal/service/auth.go:562-713 | rotation, sign-out and a password change remove the token they name together with its sibling, and nothing of other sessions |
| `SessionRuns.AbsentIsRefused` | internal/service/auth.go:589-612 | a token whose row is gone is refused by refresh and validation, which then change nothing |
| `SessionRuns.RevokedNeverReturns` | internal/service/auth.go:589-619 | rows that a call rotated away, signed out or wiped are absent from every later state of the run |
| `SessionRuns.RevocationIsPermanent` | internal/service/auth.go:589-619 | once consumed, signed out or wiped, a token and its sibling are refused in every later state of the run |
| `SessionAnswers.SignInAnswer` | internal/service/auth.go:306-393 | a sign-in is accepted if and only if the password is right, the account verified and without a second factor, and others are logged out, the user is not capped, or holds no counted unexpired token outside the device's session; each error has its own condition |
| `SessionAnswers.RefusedSignInRows` | internal/service/auth.go:320-393 | a refused sign-in changes nothing, except that the cap costs the device its own session |
| `SessionAnswers.SignInRows` | internal/service/auth.go:365-442 | an accepted one removes the device's session, past the cap all of the user's rows, and adds one row of each kind with the tokens it returns |
| `SessionAnswers.IssueAnswer` | internal/service/auth.go:446-505 | the same for issuing tokens after single sign-on: verified and not past the cap, with the rows a refusal leaves |
| `SessionAnswers.IssueRows` | internal/service/auth.go:470-505 | and the rows it stores when accepted |
| `SessionAnswers.ValidateAnswer` | internal/service/auth.go:646-699 | in every reachable table a token is valid if and only if it is live, its row stores it and its user is known; it yields the user its row was issued for, and a live token that its row does not store deletes that row |
| `SessionAnswers.RefreshAnswer` | internal/service/auth.go:562-612 | rotation accepts exactly the same tokens, of either kind, and names each refusal |
| `SessionAnswers.RefreshRows` | internal/service/auth.go:613-641 | an accepted rotation replaces all rows of the session by the pair it returns, for the same user, device and app |
| `SessionAnswers.CleanupIsUnnoticed` | internal/repository/gormrepo/token.go:80-88 | deleting expired rows deletes no others and changes no later answer of sign-in, rotation or validation |
| `DeviceCap.CapHoldsIff` | internal/service/auth.go:507-533 | at most one session of a capped user holds an unexpired token in every reachable state if and only if no refresh token can live on uncounted |
| `DeviceCap.ShippedCapHoldsIff` | internal/repository/gormrepo/token.go:55-66 | with the shipped count that is exactly when refresh tokens do not outlive access tokens |
| `DeviceCap.DefaultsBreakCap` | internal/config/config.go:294-295 | with the default lifetimes it does not hold |
| `PolicyCatalog.InitTierMap` | internal/domain/organization_policy.go:304-309 | the filling loop yields the tier of every listed type and of no other |
| `PolicyCatalog.InitDependencyMap` | internal/domain/organization_policy.go:320-332 | for any list of definitions the filling loop makes a lookup yield the last non-empty prerequisites listed for the type |
| `PolicyCatalog.LastListedIsLast` | internal/domain/organization_policy.go:320-332 | that is the last non-empty list given for the type, or nothing when none is |
| `PolicyCatalog.DistinctLookup` | internal/domain/organization_policy.go:320-332 | when no type is defined twice, those are exactly the type's prerequisites, so leaving out empty lists makes no difference |
| `PolicyCatalog.DefinitionsAreDistinct` | internal/domain/organization_policy.go:158-299 | the shipped list defines no type twice |
| `PolicyCatalog.ShippedLookup` | internal/domain/organization_policy.go:317-332 | so in the shipped list every lookup yields the type's own prerequisites |
| `PolicyProtocol.OrganizationPolicyService.FindDependentTypes` | internal/service/organization_policy_service.go:336-353 | the nested loop finds exactly the enabled policies that list the given one as prerequisite |
| `PolicyProtocol.OrganizationPolicyService.Update` | internal/service/organization_policy_service.go:122-228 | the in-place update is the function UpdatePolicy of the stored policies, with every refusal in order |
| `PolicyProtocol.SwitchAccepted` | internal/service/organization_policy_service.go:137-195 | a switch succeeds if and only if an administrator makes it and catalog, plan and enabled set allow it; a refusal changes nothing |
| `PolicyProtocol.SwitchEffect` | internal/service/organization_policy_service.go:137-195 | an accepted switch changes that one policy of that one organization |
| `PolicyProtocol.SettingsEffect` | internal/service/organization_policy_service.go:137-195 | a call that only carries settings changes no organization's enabled set |
| `PolicyProtocol.EnabledAtKeptIff` | internal/service/organization_policy_service.go:195-228 | an accepted call keeps the date two-factor enforcement began if and only if it carries no settings, the same date, or leaves it to be written anew with the same value; a refused one always does |
| `PolicyAnswers.UpdateAcceptedIff` | internal/service/organization_policy_service.go:122-195 | any update, settings or switch, is accepted if and only if an administrator makes it, the type is listed, the plan reaches its tier, and a switch fits the enabled policies |
| `PolicyAnswers.UpdateRefusals` | internal/service/organization_policy_service.go:122-195 | a refusal changes nothing and names the first reason that applies, with the tier, the first missing prerequisite or exactly the dependents |
| `PolicyAnswers.UpdateStores` | internal/service/organization_policy_service.go:195-228 | an accepted update stores one policy: switched as asked, signed by its switcher, with the settings given or kept, and for two-factor enforcement a date and a week's grace where missing |
| `PolicyAnswers.TierMetIff` | internal/domain/organization_policy.go:342-357 | which plans reach which tier |
| `PolicyAnswers.BasePlanMeaning` | internal/service/organization_policy_service.go:314-331 | a plan code loses its billing period and nothing else |
| `PolicyReach.RunKeepsClosed` | internal/service/organization_policy_service.go:137-195 | after any run, for any catalog, no policy is enabled without its prerequisites |
| `PolicyReach.RunKeepsListed` | internal/service/organization_policy_service.go:122-137 | and only listed policies are ever enabled |
| `PolicyReach.Route` | internal/service/organization_policy_service.go:137-195 | in an acyclic catalog any closed set is reached from any other by one switch per policy that differs, when the plan meets their tiers |
| `PolicyReach.NoShorterRoute` | internal/service/organization_policy_service.go:137-195 | and by no shorter sequence |
| `PolicyReach.CompleteIffAcyclic` | internal/domain/organization_policy.go:317-332 | every closed set is reachable if and only if the catalog is acyclic |
| `PolicyReach.CallsFollowMoves` | internal/service/organization_policy_service.go:122-228 | such a sequence of switches is a sequence of accepted calls of an administrator |
| `PolicyReach.AdministratorReaches` | internal/service/organization_policy_service.go:122-228 | from every reachable state an administrator reaches any closed set with one accepted call per policy that differs |
| `PolicyReach.ShippedIsComplete` | internal/domain/organization_policy.go:158-299 | the shipped catalog is acyclic, so all its closed sets are reachable |
| `PagePath.NormalizeCompatPagePath` | internal/service/compat_telemetry.go:347-381 | the method that rewrites its argument and list of segments computes Normalize |
| `PagePath.SegmentForm` | internal/service/compat_telemetry.go:383-398 | a canonical segment is its own canonical form, trimmed and free of separators; a lower-case segment that is not gets shorter |
| `PagePath.SegmentsAreCanonical` | internal/service/compat_telemetry.go:369-376 | every segment of every result before the length limit is canonical |
| `PagePathIdempotence.FixedIffStable` | internal/service/compat_telemetry.go:347-381 | a lower-case path under the domain is unchanged if and only if each of its segments is canonical, and gets shorter otherwise |
| `PagePathIdempotence.IdempotentIff` | internal/service/compat_telemetry.go:347-381 | for every valid domain and every raw path, canonicalizing twice equals once if and only if the unclipped form fits 512 characters or the segment the limit cuts is canonical |
| `PagePathIdempotence.IdempotentWhenUnclipped` | internal/service/compat_telemetry.go:347-381 | in particular whenever the unclipped form fits |
| `PagePathIdempotence.ClippedPathMayChange` | internal/service/compat_telemetry.go:302-309 | a path of 509 characters, short enough for the service to pass on uncut, on which canonicalizing twice differs from once |
| `PagePathMeaning.SegmentMeaning` | internal/service/compat_telemetry.go:383-398 | a segment, trimmed, becomes ":n" if it is four or more digits, else ":id" if it is twenty or more letters, digits, underscores and hyphens, else its lower case, and nothing else |
| `PagePathMeaning.UuidBecomesId` | internal/service/compat_telemetry.go:388-390 | in particular hexadecimal groups of 8, 4, 4, 4 and 12 become ":id" |
| `PagePathMeaning.PathMeaning` | internal/service/compat_telemetry.go:347-381 | for every domain and list of segments, under the domain in any case with or without a scheme, or relative, with white space in front and a query behind: the result is the domain and one segment for each given, which is what that segment becomes, cut to 512 characters |
| `PagePathMeaning.LongerNameMeaning` | internal/service/compat_telemetry.go:361-369 | a name that only begins with the domain is taken for a page of it: what goes on after the domain becomes the first segment |
| `PagePathMeaning.OtherSiteMeaning` | internal/service/compat_telemetry.go:361-363 | an address that does not even begin like the site becomes the bare domain |
| `TelemetryIngest.KeyInjective` | internal/service/compat_telemetry.go:181-194 | without bars in the fields two events have one key if and only if all key fields agree, the error code up to its normal form |
| `TelemetryIngest.KeyText` | internal/service/compat_telemetry.go:181-194 | the key is the seven fields in order, with bars between them and the word none for a blank error code |
| `TelemetryIngest.BarsMayCollide` | internal/service/compat_telemetry.go:189-194 | with a bar at the end of a path under the event's domain two different events share a key |
| `TelemetryIngest.StoredKeyIsKey` | internal/repository/gormrepo/compat_telemetry.go:30-40 | trimming blanks in SQL and white space in Go gives a stored row the key its event had |
| `TelemetryIngest.FailuresAreKept` | internal/service/compat_telemetry.go:329-345 | an event is dropped if and only if it succeeded, has no error code, and its hash is among the last eighty of a hundred; the hash does not depend on the error code or the rest of the row |
| `TelemetryIngest.HashValues` | internal/service/compat_telemetry.go:341-343 | the hash takes up one character after the other and has the published values of FNV-1a |
| `TelemetryIngest.StoredIsFirst` | internal/service/compat_telemetry.go:152-164 | what is stored is the first event kept with each unknown key |
| `TelemetryIngest.CompatTelemetryService.ListExistingCompatKeys` | internal/repository/gormrepo/compat_telemetry.go:30-40 | the listed rows have exactly the keys of the rows inside the window |
| `TelemetryIngest.CompatTelemetryService.IngestBatch` | internal/service/compat_telemetry.go:141-179 | the two loops store exactly the events that sampling keeps, whose key is unknown and that are the first with it |
| `TelemetryReplay.StoredKeys` | internal/service/compat_telemetry.go:152-164 | a batch adds one row for each reported key without a row in the window, and no other |
| `TelemetryReplay.ReplayStoresNothingIff` | internal/service/compat_telemetry.go:141-179 | replaying a batch stores nothing if and only if, within the window, no row that caused a skip has aged out, and, after it, sampling drops every event |
| `TelemetryReplay.NewBatchReplays` | internal/service/compat_telemetry.go:141-179 | a batch of new keys can be replayed for the whole window |
| `TelemetryReplay.SkippedBatchMayBeStored` | internal/service/compat_telemetry.go:141-179 | a skipped batch can be stored one nanosecond later |
| `TelemetryReplay.RunKeepsSpacing` | internal/service/compat_telemetry.go:141-179 | in every run two rows with one key are more than seven days apart |
| `TelemetryReplay.ReportsAreRepresented` | internal/service/compat_telemetry.go:141-179 | and every event that sampling keeps has a row with its key that was at most seven days old when it was reported |
| `EmergencyAccess.EmergencyAccessService.Invite` | internal/service/emergency_access_service.go:62-92 | the in-place invitation, with its three refusals and the cleaned address |
| `EmergencyAccess.EmergencyAccessService.Accept` | internal/service/emergency_access_service.go:112-141 | binds the grantee whose address matches, once |
| `EmergencyAccess.EmergencyAccessService.Confirm` | internal/service/emergency_access_service.go:143-169 | stores the key of an accepted grant for its grantor only |
| `EmergencyAccess.EmergencyAccessService.RequestRecovery` | internal/service/emergency_access_service.go:171-197 | opens a request of the grantee on a confirmed grant |
| `EmergencyAccess.EmergencyAccessService.ApproveRecovery` | internal/service/emergency_access_service.go:199-226 | approves an open request for the grantor only |
| `EmergencyAccess.EmergencyAccessService.RejectRecovery` | internal/service/emergency_access_service.go:228-249 | rejects an open request for the grantor only |
| `EmergencyAccess.EmergencyAccessService.Revoke` | internal/service/emergency_access_service.go:251-262 | deletes the grant in any status for the grantor only |
| `EmergencyAccess.EmergencyAccessService.GetVaultForRecovery` | internal/service/emergency_access_service.go:264-309 | hands out the grant's key and the first page of the grantor's personal organization, and uses up the approval |
| `EmergencyAccess.VaultIsWholeIff` | internal/repository/gormrepo/organization_item.go:151-163 | that page is the whole vault if and only if it holds at most 5000 items |
| `EmergencyAccess.EmergencyAccessService.ReKeyForUser` | internal/service/emergency_access_service.go:312-336 | the loop over listed grants, in any order, replaces exactly the keys it can translate |
| `EmergencyRuns.RunKeepsOrder` | internal/service/emergency_access_service.go:62-309 | in every run each grant's events are invitation, acceptance, confirmation and then rounds of request, approval and read, by the right parties; a rejection ends the last round; the status is the one the last event left |
| `EmergencyRuns.ReadsAreApproved` | internal/service/emergency_access_service.go:264-309 | each read directly follows an approval by the grantor that directly follows a request by the reader, after a confirmation |
| `EmergencyRuns.BooksBalance` | internal/service/emergency_access_service.go:171-309 | approvals minus reads is 1 exactly while approved, requests minus approvals minus rejections is 1 exactly while requested, otherwise 0 |
| `EmergencyKeys.RunDescends` | internal/service/emergency_access_service.go:112-309 | through any later calls a grant keeps its grantor and its accepted grantee, a rejection stays final, and an identifier never names another grant |
| `EmergencyKeys.ReadGetsNewKeyIff` | internal/repository/gormrepo/emergency_access.go:84-96 | after a call of ReKeyForUser a later read gets the new key if and only if no request was pending at that call |
| `EmergencyKeys.PendingRequestReadsOldKey` | internal/service/emergency_access_service.go:312-336 | with a request pending at ReKeyForUser one approval makes the old key readable |
| `EmergencyParties.InviteAcceptedIff` | internal/service/emergency_access_service.go:62-92 | an invitation is accepted if and only if a registered user makes it for an address that is not blank and not the user's own |
| `EmergencyParties.MoveAcceptedIff` | internal/service/emergency_access_service.go:112-309 | any call about a grant is accepted if and only if the grant is there, the call comes from the party whose move it is (the user with the address invited, the grantor, the grantee), in the right status, and the key is there |
| `EmergencyParties.RefusalReason` | internal/service/emergency_access_service.go:112-309 | each refusal says whether the grant is missing, the party is another, or the move is out of turn |
| `EmergencyParties.ChangesComeFromParties` | internal/service/emergency_access_service.go:112-336 | a grant changes only by the party whose move it is, or gets a new key by its grantor, and disappears only by its grantor |
| `EmergencyParties.RunKeepsTimes` | internal/service/emergency_access_service.go:171-309 | in every run a grant has a request time exactly in the three recovery statuses, and an approval time exactly while approved |
| `EmergencyParties.GrantsGoBackToInvitations` | internal/service/emergency_access_service.go:62-141 | in every run each grant goes back to an invitation by its grantor, and its grantee is registered under the address invited, letter case and blanks aside |
| `EmergencyParties.ReaderWasInvited` | internal/service/emergency_access_service.go:264-309 | in every run whoever reads a vault is registered under the address that an earlier invitation of that grant named, and is not its grantor |
| `Prefixes.ShiftIsRange` | internal/service/policy_firewall.go:82-86 | the addresses with given leading bits are one aligned range |
| `Prefixes.ContainsIsRange` | internal/service/policy_firewall.go:82-86 | a block contains exactly the addresses of its family in the aligned range of its base, of 2 to the power of 32 or 128 minus its length |
| `Prefixes.OverlapIff` | internal/service/policy_firewall.go:82-86 | two blocks share an address if and only if the base of the longer prefix lies in the other |
| `Prefixes.WithinIff` | internal/service/policy_firewall.go:82-86 | a block lies inside another if and only if its prefix is at least as long and its base lies in the other |
| `Prefixes.NestedOrDisjoint` | internal/service/policy_firewall.go:82-86 | blocks that share an address are nested |
| `Firewall.ParseFirewallRules` | internal/service/policy_firewall.go:137-172 | the appending loop keeps exactly the objects with a type and an action, in order |
| `Firewall.CheckAccess` | internal/service/policy_firewall.go:49-135 | without rules everyone is let in, with rules an unparsable address is not, and otherwise the rules decide |
| `Firewall.Evaluate` | internal/service/policy_firewall.go:72-134 | the loop with early return computes Decide, implicit deny included |
| `Firewall.FirstDecisionIsFirst` | internal/service/policy_firewall.go:71-116 | the answer is that of a rule that decides the address while no earlier rule does |
| `Firewall.AdmittedIff` | internal/service/policy_firewall.go:71-134 | a client is let in if and only if the first rule that answers for it does not deny, or none answers and the list has no allow rule |
| `Firewall.RulesAreValid` | internal/service/policy_firewall.go:75-95 | rules of well-formed addresses and blocks, of up to 32 or 128 bits, are the ones the results on rewriting speak of |
| `Firewall.ParsedConcat` | internal/service/policy_firewall.go:137-172 | a stored list is read entry by entry, in order |
| `Firewall.ParsedOne` | internal/service/policy_firewall.go:137-172 | an entry becomes a rule if and only if it is an object with a type and an action |
| `Firewall.SwapPreservesIff` | internal/service/policy_firewall.go:71-134 | neighbours can be swapped in every list without changing an answer if and only if their blocks do not overlap, their answers agree, or one has no known action |
| `Firewall.DeleteCoveredIff` | internal/service/policy_firewall.go:71-134 | a rule covered by an earlier one can be deleted without changing an answer if and only if it is not the last allow rule or the rest decides every address |
| `CollectionAccess.ComputeCollectionAccess` | internal/authz/collection_access.go:30-91 | for any order of the rows the accumulated access is the union of the direct grant and the grants to the member's teams |
| `CollectionAccess.GrantedIsMonotone` | internal/authz/collection_access.go:51-90 | more grants and team memberships never take a right away |
| `CollectionAccess.UserGrantFrame` | internal/authz/collection_access.go:51-90 | a change of one member's direct grant on one collection changes no other access |
| `CollectionAccess.TeamGrantFrame` | internal/authz/collection_access.go:51-90 | a change of one team's grant on one collection changes the access of its members there at most |
| `OrgServices.OrganizationService.EnsureDefaultTeam` | internal/service/organization_service.go:84-107 | finds the default team or creates it |
| `OrgServices.OrganizationService.EnsureDefaultCollection` | internal/service/organization_service.go:109-132 | finds the live default collection or creates it |
| `OrgServices.OrganizationService.EnsureDefaultCollectionTeamAccess` | internal/service/organization_service.go:134-151 | adds the team's read grant only where there is none |
| `OrgServices.OrganizationService.EnsureOrgUserInDefaultTeam` | internal/service/organization_service.go:153-172 | adds the member's row only where there is none |
| `OrgServices.OrganizationService.CheckSingleOrganizationPolicy` | internal/service/organization_service.go:931-970 | the loop over memberships refuses exactly users with an active membership that the policy of either side forbids |
| `OrgServices.OrganizationService.Create` | internal/service/organization_service.go:174-274 | creates organization, owner and defaults, and purges them again without a free plan |
| `OrgServices.OrganizationService.Delete` | internal/service/organization_service.go:365-398 | an owner purges the data of a shared organization and keeps its row |
| `OrgServices.OrganizationService.InviteUser` | internal/service/organization_service.go:400-519 | the in-place invitation with its refusals in order, that of the invitation service last, then the new membership and the defaults |
| `OrgServices.OrganizationService.UpdateMemberRole` | internal/service/organization_service.go:536-578 | changes role and access of any non-owner membership, whose organization is not compared |
| `OrgServices.OrganizationService.RemoveMember` | internal/service/organization_service.go:580-635 | the two deleting loops, in any order of rows, and the deletion of the membership amount to DeleteOrgUser |
| `OrgServices.OrganizationService.AcceptInvitation` | internal/service/organization_service.go:637-703 | accepts the user's own pending invitation unless the policy forbids it |
| `OrgServices.OrganizationService.ConfirmProvisionedMember` | internal/service/organization_service.go:705-746 | confirms a provisioned member of the administrator's organization |
| `OrgServices.OrganizationService.AddExistingMember` | internal/service/organization_service.go:748-816 | adds a member, or accepts a pending invitation with the role it already has |
| `OrgServices.OrganizationService.DeclineInvitationForUser` | internal/service/organization_service.go:820-845 | deletes a pending invitation only |
| `OrgServices.TeamService.CheckTeamMemberManagePermission` | internal/service/team_service.go:313-337 | administrators and the team's managers, found by a loop in any order |
| `OrgServices.TeamService.Create` | internal/service/team_service.go:36-69 | creates a team under a new name |
| `OrgServices.TeamService.Delete` | internal/service/team_service.go:152-174 | deletes a team that is not the default, with its members and grants |
| `OrgServices.TeamService.AddMember` | internal/service/team_service.go:176-217 | adds a member of the same organization who is not in the team yet |
| `OrgServices.TeamService.UpdateMember` | internal/service/team_service.go:239-265 | changes the manager flag of the row named |
| `OrgServices.TeamService.RemoveMember` | internal/service/team_service.go:267-285 | deletes the row named |
| `OrgServices.CollectionService.Create` | internal/service/collection_service.go:56-105 | creates a collection under a new name within the plan's limit |
| `OrgServices.CollectionService.Delete` | internal/service/collection_service.go:217-255 | moves the items to the default collection and then marks the collection deleted |
| `OrgServices.CollectionService.GrantUserAccess` | internal/service/collection_service.go:257-318 | overwrites the pair's row or creates it, for a member of the same organization |
| `OrgServices.CollectionService.GrantTeamAccess` | internal/service/collection_service.go:320-381 | overwrites the pair's row or creates it, for a team of the same organization |
| `OrgServices.CollectionService.RevokeUserAccess` | internal/service/collection_service.go:383-406 | deletes the rows of the pair |
| `OrgServices.CollectionService.RevokeTeamAccess` | internal/service/collection_service.go:408-431 | deletes the rows of the pair |
| `OrgServices.OrganizationItemService.Create` | internal/service/organization_item_service.go:69-159 | places the item in the collection named or the default one, which it creates if needed and keeps even when the call then fails |
| `OrgServices.OrganizationItemService.Update` | internal/service/organization_item_service.go:309-407 | moves an item only to a live collection of its organization that the user may write to |
| `OrgServices.OrganizationItemService.Delete` | internal/service/organization_item_service.go:409-454 | marks an item deleted for users who may write to it |
| `ScimService.Service.CreateUser` | internal/service/scim_service.go:226-266 | provisions a registered user once |
| `ScimService.Service.UpdateUser` | internal/service/scim_service.go:268-296 | suspends, or reactivates a suspended member, and leaves other statuses alone |
| `ScimService.Service.PatchUser` | internal/service/scim_service.go:298-333 | the loop over operations leaves the status of the last one |
| `ScimService.Service.DeleteUser` | internal/service/scim_service.go:335-348 | deletes the membership with its team and collection rows |
| `ScimService.Service.SyncGroupMembers` | internal/service/scim_service.go:569-611 | the adding loop and the deleting loop, in any order of rows, compute Sync |
| `ScimService.Service.UpdateGroup` | internal/service/scim_service.go:421-447 | renames a group of the token's organization and replaces its members |
| `ScimService.Service.HandleGroupMemberAdd` | internal/service/scim_service.go:613-638 | adds a row for every reference that resolves, members or not |
| `ScimService.Service.HandleGroupMemberRemove` | internal/service/scim_service.go:640-657 | deletes the rows of the member the reference resolves to |
| `ScimService.Service.DeleteGroup` | internal/service/scim_service.go:486-499 | deletes a group of the token's organization, the default team too |
| `ScimService.Page` | internal/service/scim_service.go:180-190 | the slice for a start index and count is in range and is PageOf, for every start index and count |
| `ScimService.PagesCoverList` | internal/service/scim_service.go:180-190 | a client that asks from start index 1 on, each time after the entries it has, with any count, sees every entry once, in order |
| `ScimGroups.SyncReachesTarget` | internal/service/scim_service.go:569-611 | afterwards the members of the group are exactly the listed references that resolve in its organization |
| `ScimGroups.SyncKeepsStayers` | internal/service/scim_service.go:601-608 | rows of members who stay and of other groups are untouched, rows of the others are gone |
| `ScimGroups.SyncAgainIsIdentity` | internal/service/scim_service.go:569-611 | a second identical call changes nothing |
| `ScimGroups.OneRowEachIff` | internal/service/scim_service.go:580-599 | adding references keeps one row per member if and only if none of them names a member who is there or was named before |
| `ScimGroups.AddingMemberAgain` | internal/service/scim_service.go:613-638 | adding a member again makes a second row |
| `OrgRuns.RunKeepsValid` | internal/service/collection_service.go:257-381 | after any calls by anyone every team, grant and item row joins entities of one organization, memberships and grants are unique, no organization has two default teams or collections, and every live item lies in a live collection of its organization |
| `OrgOneRow.CallUniqueIff` | internal/service/scim_service.go:569-638 | of all 32 kinds of call only a SCIM group call that adds a member who is there or names one twice makes a second row of one member in one team, and every such call does |
| `OrgOneRow.RunUniqueIff` | internal/service/scim_service.go:569-638 | all states of a run have at most one row per member and team if and only if the run makes no such call |
| `OrgTenants.CallIsolatedIff` | internal/service/organization_service.go:536-578 | a call leaves all rows of every organization but its own as they are if and only if it is no accepted change of a role, or of a team's row, that changes a row of another organization |
| `OrgTenants.RoleIsolatedIff` | internal/service/organization_service.go:536-578 | an accepted change of a role touches only its own organization if and only if the membership named belongs to it or already has that role and access |
| `OrgTenants.ManagerIsolatedIff` | internal/service/team_service.go:239-265 | so does a change of a team's row if and only if the row's team is of that organization or the flag is already set so |
| `OrgTenants.RemovalIsolatedIff` | internal/service/team_service.go:267-285 | and a removal of a team's row if and only if the row, if any, is of a team of that organization |
| `OrgTenants.TenantUntouched` | internal/service/collection_service.go:217-431 | in a run of calls made for other organizations, on rows of their own, an organization's rows stay as they are |
| `OrgAcceptance.InviteAcceptedIff` | internal/service/organization_service.go:400-519 | an invitation is accepted if and only if its sender is an administrator, for an owner an owner, and the organization, the plan, the invitee and the policy allow it |
| `OrgEffects.InviteEffect` | internal/service/organization_service.go:486-519 | an accepted invitation adds one membership, in a default team that has a row on the live default collection, and nothing but defaults besides |
| `OrgAcceptance.RoleAcceptedIff` | internal/service/organization_service.go:536-578 | a role change is accepted if and only if an administrator, for an owner an owner, names any membership that is not an owner's |
| `OrgAcceptance.RemoveAcceptedIff` | internal/service/organization_service.go:580-635 | a removal is accepted if and only if an administrator names a membership of the organization that is not an owner's |
| `OrgAcceptance.GrantUserAcceptedIff` | internal/service/collection_service.go:257-318 | a grant is accepted if and only if its giver may administer the live collection, by role or by any grant, and the member is of its organization |
| `OrgAcceptance.GrantTeamAcceptedIff` | internal/service/collection_service.go:320-381 | the same for a team of its organization |
| `OrgAcceptance.DeleteCollectionAcceptedIff` | internal/service/collection_service.go:217-255 | a collection is deleted if and only if it is live and not the default, an administrator asks, and its organization has a live default collection |
| `OrgAcceptance.CreateItemAcceptedIff` | internal/service/organization_item_service.go:69-159 | an item of a valid type is placed in a named collection if and only if that is a live one of the organization on which its user may write or administer |
| `OrgAcceptance.CreateOrgAcceptedIff` | internal/service/organization_service.go:174-274 | founding takes an account and a free plan |
| `OrgAcceptance.DeleteOrgAcceptedIff` | internal/service/organization_service.go:365-398 | only an owner deletes an organization, and no personal one |
| `OrgAcceptance.AcceptAcceptedIff` | internal/service/organization_service.go:637-703 | an invitation is accepted if and only if the invited user gives a key while it is pending and the policy of neither side forbids it |
| `OrgAcceptance.ConfirmAcceptedIff` | internal/service/organization_service.go:705-746 | a confirmation if and only if an administrator gives a key for a provisioned member of the organization |
| `OrgAcceptance.AddExistingAcceptedIff` | internal/service/organization_service.go:748-816 | a member is added if and only if there is a key, the organization is shared, and the user has no membership there but a pending one |
| `OrgAcceptance.DeclineAcceptedIff` | internal/service/organization_service.go:820-845 | declining fails only for a membership that is not pending |
| `OrgAcceptance.ScimUserAcceptedIff` | internal/service/scim_service.go:226-348 | provisioning takes a registered user without a membership, the other calls a member |
| `OrgAcceptance.CreateTeamAcceptedIff` | internal/service/team_service.go:36-69 | a team takes a manager of the organization and a name no team there has |
| `OrgAcceptance.RemoveTeamAcceptedIff` | internal/service/team_service.go:152-174 | a team is deleted if and only if it is not the default and a manager of its organization asks |
| `OrgAcceptance.AddTeamMemberAcceptedIff` | internal/service/team_service.go:176-217 | a member is added to a team if and only if an administrator or a manager of the team asks and the member is of its organization and not in it yet |
| `OrgAcceptance.UpdateTeamMemberAcceptedIff` | internal/service/team_service.go:239-265 | a row's flag is set by those who run the team named |
| `OrgAcceptance.RemoveTeamMemberAcceptedIff` | internal/service/team_service.go:267-285 | and removed by the same |
| `OrgAcceptance.GroupAcceptedIff` | internal/service/scim_service.go:421-499 | group calls take a group of the token's organization |
| `OrgAcceptance.CreateCollectionAcceptedIff` | internal/service/collection_service.go:56-105 | a collection takes a manager, room in the plan and a name no live collection there has |
| `OrgAcceptance.RevokeAcceptedIff` | internal/service/collection_service.go:383-431 | access is revoked by those who may administer the live collection |
| `OrgAcceptance.CreateInDefaultAcceptedIff` | internal/service/organization_item_service.go:69-159 | without a collection named an item is created if and only if its user may write to the live default one or, where there is none, reaches everything |
| `OrgAcceptance.UpdateItemAcceptedIff` | internal/service/organization_item_service.go:309-407 | a live item is changed if and only if its user may write or administer its collection and the one it is moved to, a live one of its organization |
| `OrgAcceptance.DeleteItemAcceptedIff` | internal/service/organization_item_service.go:409-454 | and deleted if and only if its user may write or administer its collection |
| `OrgAcceptance.MayEditIff` | internal/service/organization_item_service.go:322-345 | in every reachable state a live item has a collection, and may be changed exactly by those who may write to it |
| `OrgReasons.ForbiddenMeansNotEntitled` | internal/service/organization_service.go:400-745 | forbidden is answered only to callers who are not entitled to the call, and they are always refused |
| `OrgReasons.NotFoundMeansMissing` | internal/service/collection_service.go:217-431 | not found is answered only when something the call names is missing, and then the call is always refused |
| `OrgReasons.RefusalNamesItsCause` | internal/service/organization_service.go:400-845 | every other refusal names what stands in the way: a malformed request, a missing plan, a full plan, a row that exists, a status already past, a protected owner or default, the policy, or the invitation service |
| `OrgAcceptance.CountsAre` | internal/repository/gormrepo/organization.go:309-341 | the counts behind the limits are of accepted and confirmed memberships, and of live collections that are not the default |
| `OrgEffects.RefusalChangesNothing` | internal/service/team_service.go:176-285 | a refused call leaves all tables as they were, founding and placing in the default collection aside |
| `OrgEffects.CreateOrgEffect` | internal/service/organization_service.go:174-274 | founding adds the organization, its owner, and defaults only |
| `OrgEffects.CreateOrgUndone` | internal/service/organization_service.go:241-262 | without a free plan an empty organization marked deleted is left, and memberships as they were |
| `OrgEffects.DeleteOrgEffect` | internal/service/organization_service.go:365-398 | no row of a deleted organization is left but its own, marked |
| `OrgEffects.RoleEffect` | internal/service/organization_service.go:536-578 | one membership gets the role, and the access if given |
| `OrgEffects.AcceptEffect` | internal/service/organization_service.go:637-703 | the membership gets the key and becomes accepted, joins the default team, and nothing but defaults is added |
| `OrgEffects.ConfirmEffect` | internal/service/organization_service.go:705-746 | the same for a confirmation |
| `OrgEffects.AddExistingEffect` | internal/service/organization_service.go:748-816 | a pending member becomes accepted with its own role; anyone else gets the row given, in the default team |
| `OrgEffects.DeclineEffect` | internal/service/organization_service.go:820-845 | the pending membership goes with its rows, and without one nothing changes |
| `OrgEffects.CreateScimUserEffect` | internal/service/scim_service.go:226-266 | one provisioned membership without access is added |
| `OrgEffects.ScimStatusEffect` | internal/service/scim_service.go:268-333 | switching off suspends, switching on confirms the suspended, a patch everyone; nothing else changes |
| `OrgEffects.DeleteScimUserEffect` | internal/service/scim_service.go:335-348 | the membership goes with its rows |
| `OrgEffects.CreateTeamEffect` | internal/service/team_service.go:36-69 | one team that is not the default is added, by the team service and by SCIM alike |
| `OrgEffects.DeleteTeamEffect` | internal/service/team_service.go:152-174 | the team goes with its rows, by the team service and by SCIM alike |
| `OrgEffects.TeamUserEffects` | internal/service/team_service.go:176-285 | the one row named is added, flagged or removed |
| `OrgEffects.RemoveFromGroupEffect` | internal/service/scim_service.go:640-657 | exactly the rows of the member that the reference names go |
| `OrgEffects.UpdateGroupEffect` | internal/service/scim_service.go:421-447 | the group is renamed, and only rows of teams change besides |
| `OrgEffects.CreateCollectionEffect` | internal/service/collection_service.go:56-105 | one live collection that is not the default is added |
| `OrgEffects.RevokeEffects` | internal/service/collection_service.go:383-431 | exactly the rows of the pair go |
| `OrgEffects.CreateItemEffect` | internal/service/organization_item_service.go:69-159 | one item is added where it was put |
| `OrgEffects.CreateInDefaultEffect` | internal/service/organization_item_service.go:69-159 | or in the live default collection, which is made if missing and stays when the call fails |
| `OrgEffects.ItemEffects` | internal/service/organization_item_service.go:309-454 | an update changes that item alone, in exactly the fields asked for, and a deletion marks it |
| `OrgConsequences.RemoveMemberLeavesNoRows` | internal/service/organization_service.go:580-635 | a removed member leaves no row, and takes no one else's row along |
| `OrgConsequences.RemovalIsPermanent` | internal/service/organization_service.go:580-635 | no later state of the run has a row that names the removed membership |
| `OrgConsequences.DeleteCollectionConserves` | internal/service/collection_service.go:217-255 | the set of live items stays, those of the deleted collection move to the default one, and no item changes otherwise |
| `OrgConsequences.GrantUserSetsAccess` | internal/service/collection_service.go:257-318 | afterwards the member has the stored rights and those of the teams, whatever was granted before; all other access is unchanged |
| `OrgConsequences.GrantedAsAskedIff` | internal/domain/collection.go:55-62 | the stored rights are those asked for if and only if these include reading or the member had a row already |
| `OrgConsequences.RevokeUserLeavesTeams` | internal/service/collection_service.go:383-406 | afterwards only the teams' rights are left; all other access is unchanged |
| `OrgConsequences.GrantTeamSetsAccess` | internal/service/collection_service.go:320-381 | afterwards the team's members have on that collection exactly the stored rights and what they have besides the team's row, whatever it granted before; all other access is unchanged |
| `OrgConsequences.RevokeTeamLeavesRest` | internal/service/collection_service.go:408-431 | the team's row is gone and its members have on that collection exactly what they have besides it; all other access is unchanged |

## Left out

* HTTP handlers, email, templates, logging, configuration loading, migrations and seeding: plumbing.
* Failing reads and writes: a lookup fails only when the row is absent and writes succeed. A failing
  listing of dedupe keys, after which the service treats every key as new, is therefore not modelled.
* Interleaving of concurrent calls: one service call is one atomic step.
* Cryptography: stored token hashes are injective on tokens, a token that verifies and carries an
  identifier was issued (in the runs of the device cap), password checks are a boolean argument.
* Two-factor sign-in: a sign-in that needs a second factor inserts no row. VerifyTwoFactorSignIn, which
  stores a pair of tokens too (`internal/service/two_factor.go:180-215`), and the setup of second factors are
  not part of this model, so the results on sessions speak of tables without pairs from it.
* The JWT library: it is taken to compare whole seconds; an expiry claim of zero is not treated specially.
* Token lifetimes as text: resolveTokenExpireDuration is replaced by two arbitrary numbers of seconds.
* Changing tracker settings within a run: they are fixed per organization. Settings so large that the
  conversion to an integer overflows are not modelled.
* Entries of the tracker are values in a map, not shared references; no other code holds one.
* Payload clamping in telemetry: events arrive with their fields already trimmed and cut, and one invalid
  payload that rejects the whole batch is not modelled. Strings are ASCII, so bytes and characters agree.
* Row ids come from one counter for all tables; a first match is the row with the lowest id.
* Personal organizations are never created in a run; runs may start from any valid state that has them.
* Renaming collections and teams by their own services, which changes a name and joins no rows, and the
  listing queries of the organization graph, which change nothing.
* The rows of the invitation service: whether it takes an invitation is an argument, and the acceptance of
  pending rows after AcceptInvitation is not modelled.
* Plan lookups are arguments: the member and collection limits, and the organizations that enforce the
  single-organization policy.
* Deleting users, and with them their grants and memberships.
* Parsing of IP text and country rules: rules carry the parsed address or block; country rules never match.
* The permission matrix, role tables, conversion to transfer objects, key escrow and billing services.
- OrgRuns.RunKeepsValid: SCIM user calls are assumed to name an organization that exists, as their token does; for the uniqueness of team rows, which SCIM calls can break, see OrgOneRow.RunUniqueIff.
- EmergencyAccess.EmergencyAccessService.GetVaultForRecovery: items are an argument, listed per organization in the order of the query; no call changes them.
- DeviceCap.CapHoldsIff: time is an argument of each call that never decreases within the run.
