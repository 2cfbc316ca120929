# DecisionFlow engines: a verified model

DecisionFlow ingests a workspace's spreadsheets, cleans them, joins them into star views, and reports what
moved, what is unusual and what comes next. This project models the parts of it that carry correctness, in
Dafny, and proves what they promise: that a star view never multiplies rows, that a refresh token is exchanged
at most once, that a warehouse connection is never shared with a writer, that a cleaning plan that skips work
computes the same column, that an anomaly is a departure from trend and from nothing else.

One file per component, each module named after what it models:

- `StarSchema`, `Relational`, `Relationships`, `Modelling`: foreign keys are proposed by gates over counts,
  decided by people, and compiled to a chain of LEFT JOINs. The query is an abstract syntax tree with a meaning
  (rows, NULLs, orphans), and the meaning of the compiled view is compared with the fact table and with the
  plain "look every key up" reading.
- `RefreshTokens`, `SingleFlight`, `LostResponses`: the server's token store as an object and as a state machine
  over requests in any order, purges and waits included; and the browser client against it, every stretch between
  two awaits one step, interleaved freely with other requests and with the rest of the world. A refresh whose fetch
  was rejected stays on the wire: the server may have handled it, may handle it later, or never. The user may sign
  out at any point, and sessions are revoked from elsewhere. One tab's session is followed at a time: its refresh
  tokens are in that tab only, while its user may have other sessions anywhere.
- `Workspaces`: users, workspaces, memberships and invitations, with the router's own checks.
- `WarehouseLocks`: the readers/writer protocol over truncated keys and PostgreSQL's lock queue, with timeouts and
  crashes anywhere.
- `Ingestion`: dataset and run states, killed workers, the sweep and the clock.
- `Cleaning`: string profile, plan, compiled expressions, row counts, over an arbitrary engine.
- `Regression`, `Statistics`, `Anomalies`, `Calendar`, `Forecasting`, `Churn`, `Contribution`, `Investigation`:
  the quantitative engines, over exact reals and series of any length.
- `RateLimiting`: the fixed-window limiter. `Sorting`, `Sequences`, `Strings` and `Options` are shared
  vocabulary.

Where the source changes state, a class does (`TokenStore`, `ApiClient`, `Directory`, `Model`, `Store`,
`Warehouse`, `Limiter`, `ColumnProfile`); each of its methods is proved equal to a function of the old state,
and what the source promises is proved about that function, over every step and every run. Beside the promises
stands what each operation does, said on the rows, cells, roles and tokens themselves: which fact column a join
compares, what containment is measured against, who may remove whom, what a logout revokes, when a cast is chosen.
Service calls are atomic steps. Clocks, generated identifiers, database answers about free slugs, and the outcome of a network
call are parameters of the step.

## Where the code and what is said about it part

The model follows the code. In these places the two differ, and the exact line between them is proved.

- The limiter's header (`ratelimit.py` 12-14) allows a burst of up to twice the limit across a window boundary.
  The true bound over any half-open interval of one window is `2 * limit - 1`, and it is attained
  (`BurstBound`, `BurstBoundIsAttained`). It is a bound on counted attempts between resets: while the store is
  unreachable nothing is counted and every attempt passes (`Limiter.Enforce`).
- `riser` and `faller` are documented as None when nothing rose or fell. They are chosen among the eight largest
  movements only, so with more than eight segments an increase or a decrease can go unreported (`RiserCanBeMissed`,
  `FallerCanBeMissed`). One is reported exactly when some segment rose (fell) and fewer than eight segments outrank
  it: they moved more, or as much and come earlier (`RiserReportedExactlyWhen`, `FallerReportedExactlyWhen`).
- The warehouse creates a missing file on a read-write connection before it takes the lock. A writer excludes
  every other connection over all runs exactly for workspaces whose file is already there
  (`SafeExactlyWhenTheFileExists`).
- The sweep for stalled runs spares live runs but looks only at a dataset's status: a dataset that is being
  ingested again is marked failed exactly when an abandoned run of it is still on record
  (`SweepFailsALiveDatasetExactlyWhen`, with a run that reaches it in `LiveDatasetCanBeFailed`).
- The star view's prefix is meant to keep one column from shadowing another. The names of a view are distinct
  exactly when the fact's columns are, each join's are, no fact column already reads like a joined table's name, an
  underscore and one of its columns, and no two joins share a dimension and a column or run on into each other
  across an underscore (`HeaderRepeatsExactlyWhen`). Each way to fail has an accepted definition that does:
  a fact column `customers_country` beside `customers.country` (`PrefixCanShadowAFactColumn`), one dimension reached
  by two keys (`OneDimensionTwiceIsAmbiguous`), and `customers.home_country` beside `customers_home.country`
  (`RunOnNamesAreAmbiguous`).
- An invitation is refused to an address with an unredeemed invitation, and one that has lapsed still is one. Who is
  refused is settled exactly by `InvitationRefusedExactlyWhen`. So a guest who comes a week late can neither redeem
  the invitation nor get another (`LateGuestIsLockedOut`, a run that ends there), whatever anybody does next
  (`LapsedInvitationBlocks`, `LapsedForGood`).
- The service refuses to demote a workspace's only owner. That check never decides anything: nobody may change their
  own role and only owners touch ownership, so whoever demotes an owner is another one
  (`RoleChangeSucceedsExactlyWhen`). For removals it does decide (`RemovalSucceedsExactlyWhen`).
- Purging is invisible to clients exactly when the token lifetime does not exceed the retention, which the
  default 14 and 30 days satisfy (`PurgingIsInvisibleExactlyWhen`, `DefaultPurgingIsInvisible`).
- A replay is meant to end every session of its user. It revokes their refresh tokens, but no record is kept of access
  tokens, and `switch-org` issues a refresh token on one. So no refresh token of the user is exchanged until they are granted tokens again with a password or an invitation, or by a switch of workspace within
  one access lifetime of the replay (`ReplayEndsTheSessions`), and such a switch does carry the session on
  (`SwitchOutlivesTheReplay`).
- The client collapses concurrent refreshes so that no token is presented twice. While no response is lost, nobody
  signs out and nobody outside revokes the session, none is (`OneRefreshAtATime`). With all of that allowed, over
  every interleaving, the server's replay branch is reached exactly when it handles a call whose token another call
  has already traded or the outside has revoked, while that token decodes and its record is kept
  (`ReplayReachedExactlyWhen`); behind every replay stands a revocation from outside, or an abandoned call that the
  server traded or came to late (`ReplaysHaveACause`). A loss alone does no harm (`LossAloneIsHarmless`). Losing the
  response to a trade always does: the tab is stranded on the old token, its next refresh is a replay that ends every
  session of the user, and it never gets a new token again without a login (`LosingTheTradeStrands`,
  `StrandedRefreshIsReplayed`, `StrandedForGood`; a run in `LostResponseEndsInReplay`). An abandoned call that the
  server handles only after its successor is a replay as well, although no abandoned call was traded
  (`LateHandlingIsReplayed`).
- A role change, a removal and a replay elsewhere revoke every live token of a tab's session; nothing else from outside
  touches it (`OutsideCutsAllOrNothing`). The tab is then stranded in the same way (`RevocationStrands`): its next
  refresh counts as a replay, and takes down the sessions the user began after the change
  (`RoleChangeEndsInReplay`).
- Signing out clears the tokens but not a refresh in flight. The client is signed in again exactly when that refresh
  is answered with a token (`SignOutUndoneExactlyWhen`, a run in `SignOutIsUndone`); with none in flight, or that one
  never delivered, it stays signed out (`SignOutLasts`).
- Redeeming an invitation asks for a password only to make an account. Without one it succeeds exactly for an open
  invitation to the address of an account, and signs that account in (`SignInWithoutPassword`,
  `AcceptSignsInTheAddressee`). What stands between is the invitation's token, and every invitation on record was made
  in the name of an admin of its workspace (`InvitationsComeFromAdmins`).
- Whether to deduplicate is decided on the raw table. With deduplication asked for, the clean table still has
  repeats exactly when the raw one had none and cleaning made two different rows equal. Two cells meet when neither
  is left with a value, being blank or nothing the column's cast can read, or when both are and read the same: one
  side of yes and no, one day, one number, or without a cast the same trimmed text (`RepeatsMadeByCleaningStay`,
  `MergesExactlyWhen`, `CellsMeetExactlyWhen`, and the table of `PaddingLeavesRepeats`).
- A segment breakdown leaves out rows without a segment, so it adds up to the headline change exactly when those
  rows did not move (`BreakdownAddsUpExactlyWhen`; two periods of records that fail it in
  `BreakdownCanMissTheHeadline`).
- Labels past the year 9999 are an error; labelling fails exactly then (`LabelsFailOnlyPastTheLastYear`,
  `FixedLabelsFailOnlyPastTheLastYear`). Labels are cut to dates: a fixed step gives a later date from every start
  exactly when it is at least a day (`NewDateExactlyWhen`), so an hourly history repeats dates
  (`HourlyLabelsRepeatADate`).
- The identifier check's pattern ends in `$`, which also matches in front of one final newline; `Identifier`
  keeps that. Such a name differs as a string from the one without, and SQL reads them alike (`NewlineHidesARepeat`).

## Model

| member | source | states |
|---|---|---|
| StarSchema.BuildStarSql | apps/api/decisionflow/data/star.py:49-83 | succeeds exactly when every name the definition mentions is an identifier, otherwise names an offender among them; the query is the one the meaning theorems below are about |
| StarSchema.ProjectDimension | apps/api/decisionflow/data/star.py:59-72 | one join contributes its columns under prefixed names, or is refused exactly for an unsafe name |
| StarSchema.SafeExactlyWhenItsNamesAre | apps/api/decisionflow/data/star.py:49-72 | a definition passes the validator exactly when every name that goes into the SQL is an identifier |
| StarSchema.RowsMultiplyExactlyWhen | apps/api/decisionflow/data/star.py:49-83 | no fact row is ever dropped, and none is multiplied exactly when no fact row meets two rows of one dimension |
| StarSchema.ViewIsDenormalised | apps/api/decisionflow/data/star.py:49-83 | without double matches the chain of LEFT JOINs is the plain reading: each fact row with what each of its keys looks up |
| StarSchema.ViewShowsTheFactTable | apps/api/decisionflow/data/star.py:28-36 | cut to the fact columns the view is the fact table row for row, NULL and orphan keys included |
| StarSchema.FactColumnShowsTheCell | apps/api/decisionflow/data/star.py:55-58 | the view's k-th fact column shows each fact row's own cell of that column |
| StarSchema.JoinedColumnShowsTheLookup | apps/api/decisionflow/data/star.py:59-72 | every added column shows the matching dimension row's cell, or NULL, at the position its prefixed name has in the header |
| StarSchema.MatchesAreRows | apps/api/decisionflow/data/star.py:74-77 | the rows a join attaches are exactly those of the dimension whose key equals the fact's, NULL equalling nothing |
| StarSchema.LookupFindsTheMatch | apps/api/decisionflow/data/star.py:74-77 | a key is found exactly when some dimension row has it, the row found has it, and a NULL key finds none |
| StarSchema.KeysGiveSingleMatches | apps/api/decisionflow/data/relationships.py:265-271 | a join column without repeated non-null values matches any key at most once |
| StarSchema.StarPreservesFacts | apps/api/decisionflow/data/star.py:28-36 | if every join targets such a column, the view has one row per fact row and shows the fact table unchanged |
| StarSchema.TotalsAreUnchanged | apps/api/decisionflow/data/star.py:1-22 | any total over fact columns, filtered or not, is the same on the view as on the table |
| StarSchema.BreakdownConservesTheTotal | apps/api/decisionflow/data/star.py:1-22 | an amount broken down by any column of the view, joined ones included, adds up over the groups, the NULL group among them, to the fact table's total |
| StarSchema.RepeatedTargetInflates | apps/api/decisionflow/data/relationships.py:265-271 | a fact row whose key is repeated in the target makes the view strictly larger than the table |
| StarSchema.PrefixedNamesMeetExactlyWhen | apps/api/decisionflow/data/star.py:59-72 | two prefixed names are equal exactly when table and column are, or one table's name continues the other's across an underscore the columns make up for |
| StarSchema.HeaderRepeatsExactlyWhen | apps/api/decisionflow/data/star.py:55-72 | the view names every column once exactly when fact columns and each join's are distinct, no fact column reads like a prefixed one, and no two joins meet |
| StarSchema.PrefixCanShadowAFactColumn | apps/api/decisionflow/data/star.py:68-70 | an accepted definition whose prefixed name shadows a fact column |
| StarSchema.OneDimensionTwiceIsAmbiguous | apps/api/decisionflow/data/star.py:59-72 | an accepted definition with one dimension reached by two keys, whose header repeats a name |
| StarSchema.RunOnNamesAreAmbiguous | apps/api/decisionflow/data/star.py:59-72 | an accepted definition with two dimensions whose prefixed names coincide |
| StarSchema.NewlineHidesARepeat | apps/api/decisionflow/data/star.py:55-58 | an accepted definition whose names differ as strings and not to SQL |
| StarSchema.OneDimensionTwiceRepeatsNames | apps/api/decisionflow/data/star.py:59-72 | for two joins into one dimension, the two positions in the header of every shared column |
| StarSchema.HeaderIsFactThenAdded | apps/api/decisionflow/data/star.py:55-72 | the header is the fact's columns followed by the added names, join by join |
| Relational.DistinctEqualsTotalIffKey | apps/api/decisionflow/data/relationships.py:169-175 | count(DISTINCT c) equals count(c) exactly when no two rows share a non-null value of c |
| Relationships.ScanOne | apps/api/decisionflow/data/relationships.py:258-300 | the gates in the order of the code let through exactly the pairs that pass all of them |
| Relationships.PassesExactlyKeyPairs | apps/api/decisionflow/data/relationships.py:178-300 | the gates come to this on the rows: one type family, a target with two values or more and no repeats, at least four fifths of the source's distinct values among them, and agreeing names below five; the candidate says what the rows say |
| Relationships.Round4IsNearest | apps/api/decisionflow/data/relationships.py:305-305 | rounding to four places takes the nearest, and of two as near the even one |
| Relationships.ConfidenceIs | apps/api/decisionflow/data/relationships.py:99-109 | a matching name adds five points of a hundred up to certainty, and nothing else moves the measured share |
| Relationships.StemIs | apps/api/decisionflow/data/relationships.py:61-61 | a name has a key suffix exactly when it is some entity's key name, and its stem is then that entity, otherwise itself |
| Relationships.SingulariseIs | apps/api/decisionflow/data/relationships.py:112-118 | plurals in -ies and -s lose their ending; names in -ss or without an s stay |
| Relationships.NamesAgreeExactlyWhen | apps/api/decisionflow/data/relationships.py:121-139 | the names agree exactly when they are one, when the source names the target table's entity and the target is a key, or when both have one stem, whatever the case |
| Relationships.ConventionsAgree | apps/api/decisionflow/data/relationships.py:121-139 | both conventions of exported data are recognised for every entity and every pair of key words |
| Relationships.FamiliesAre | apps/api/decisionflow/data/relationships.py:66-83 | which type names compare as numbers, text, times and booleans, whatever case they are written in |
| Relationships.ScanFindsTheEarned | apps/api/decisionflow/data/relationships.py:245-300 | the nested scan finds exactly the candidates that some pair of considered columns of usable tables earns |
| Relationships.StrengthOrdersLikeThePair | apps/api/decisionflow/data/relationships.py:318-320 | the order used is that of the pair (confidence, name match) |
| Relationships.PickBest | apps/api/decisionflow/data/relationships.py:318-324 | at most one candidate per source column, taken from those found, and each one found is covered by one at least as strong |
| Relationships.Detect | apps/api/decisionflow/data/relationships.py:216-328 | on the rows themselves: every returned candidate speaks of an eligible pair of columns that may be a key, every such pair is covered by a candidate for its source at least as strong, no source column is listed twice, the list is in order, and the scan is refused exactly for unsafe names |
| Relationships.ListingIsInOrder | apps/api/decisionflow/data/relationships.py:326-328 | the final sort by table, falling confidence and column really orders the list |
| Relationships.StringLeIsLexicographic | apps/api/decisionflow/data/relationships.py:326-328 | names are ordered as a dictionary orders them |
| Modelling.Model.DetectRelationships | apps/api/decisionflow/services/modelling.py:49-120 | refuses below two ready datasets or for an unsafe name; otherwise scans their tables, finds what earns a place, and records it |
| Modelling.Model.RecordCandidates | apps/api/decisionflow/services/modelling.py:84-111 | updates the evidence of edges known before the scan and adds undecided ones |
| Modelling.DecisionsSurviveDetection | apps/api/decisionflow/services/modelling.py:84-113 | detection overturns no human decision and makes none: known edges keep identity, ends and verdict, new ones are undecided |
| Modelling.OnlyEvidenceIsWritten | apps/api/decisionflow/services/modelling.py:84-113 | a known edge keeps its row but for the confidence of a candidate it names, and every new row is an undecided candidate |
| Modelling.EvidenceIsRecorded | apps/api/decisionflow/services/modelling.py:84-113 | every candidate's confidence is on record afterwards, under its own ends |
| Modelling.CandidatesAreRecorded | apps/api/decisionflow/services/modelling.py:84-113 | every candidate has an edge between the datasets of its slugs and on its columns afterwards |
| Modelling.Model.Decide | apps/api/decisionflow/services/modelling.py:134-155 | unknown edges are refused without effect; otherwise one edge is decided and roles and definitions follow the confirmed edges |
| Modelling.Model.RebuildModel | apps/api/decisionflow/services/modelling.py:158-236 | roles and star definitions are those of the confirmed edges between ready datasets |
| Modelling.Model.AssignRoles | apps/api/decisionflow/services/modelling.py:176-182 | ready datasets get their role from the confirmed edges, others keep theirs |
| Modelling.Model.BuildDefinitions | apps/api/decisionflow/services/modelling.py:184-212 | one definition per fact, in dataset order |
| Modelling.Model.BuildJoins | apps/api/decisionflow/services/modelling.py:189-204 | the joins of one fact, as JoinsFollowTheEdges describes them edge by edge |
| Modelling.JoinsFollowTheEdges | apps/api/decisionflow/services/modelling.py:189-204 | there is one join for each confirmed edge out of the fact, in their order; it compares the edge's own fromColumn with its toColumn, in the table of its target, and carries that table's other columns |
| Modelling.ExceptKeepsOrder | apps/api/decisionflow/services/modelling.py:198-203 | the columns carried are all but the key's, in their order |
| Modelling.ConfirmedEdgeShowsTheDimension | apps/api/decisionflow/services/modelling.py:158-213 | in the view, each other column of a confirmed edge's dimension shows, for every fact row, the cell of the dimension row whose toColumn equals the fact row's fromColumn, or NULL, under its prefixed name |
| Modelling.ListingIsByConfidence | apps/api/decisionflow/services/modelling.py:123-131 | the listing holds every edge once, the most confident first |
| Modelling.ConfirmedFollowsTheListing | apps/api/decisionflow/services/modelling.py:163-167 | the edges of the model are those a person confirmed between two ready datasets, in the order of the listing |
| Modelling.RolesFollowTheEdges | apps/api/decisionflow/services/modelling.py:170-182 | a rebuild makes a ready dataset a fact exactly when an edge of the model goes out of it, a dimension exactly when one only goes in, and changes nothing else |
| Modelling.DefinitionsFollowTheFacts | apps/api/decisionflow/services/modelling.py:184-212 | there is one definition for each fact, in order, of its own table and columns, with the joins of its edges |
| Modelling.Model.StarColumns | apps/api/decisionflow/services/modelling.py:276-309 | facts advertise the columns of their confirmed edges' dimensions, other tables none |
| Modelling.JoinsComeFromConfirmedEdges | apps/api/decisionflow/services/modelling.py:163-204 | every join stands for an edge a person confirmed, out of that fact, and compares its columns |
| Modelling.FactsAreThoseWithJoins | apps/api/decisionflow/services/modelling.py:170-204 | a table is a fact exactly when its star has a join |
| Modelling.AdvertisedColumnsAreAdded | apps/api/decisionflow/services/modelling.py:276-309 | the columns the view adds are exactly those star_columns advertises, in the same order |
| Modelling.HeaderIsAdvertised | apps/api/decisionflow/services/modelling.py:276-309 | the view's whole header is the dataset's columns followed by the advertised ones |
| Modelling.ConfirmedModelKeepsFacts | apps/api/decisionflow/services/modelling.py:158-213 | when confirmed edges' targets pass the uniqueness gate on the current tables, every star view shows its fact table row for row |
| Modelling.ProposalsPassTheGate | apps/api/decisionflow/data/relationships.py:265-271 | what detection proposes targets a column without repeated values in the tables it read |
| RefreshTokens.TokenStore.IssueTokens | apps/api/decisionflow/services/auth.py:208-236 | adds one live record whose expiry is within a second of the token's own |
| RefreshTokens.TokenStore.RotateRefreshToken | apps/api/decisionflow/services/auth.py:239-304 | every branch of rotation, with the whole new table; on success the old record is revoked and the new one is live |
| RefreshTokens.TokenStore.RevokeRefreshToken | apps/api/decisionflow/services/auth.py:307-319 | one logout, as LogoutRevokesTheSession describes it |
| RefreshTokens.TokenStore.RevokeAllUserTokens | apps/api/decisionflow/services/auth.py:351-360 | afterwards none of the user's records is live, and no other record changed |
| RefreshTokens.TokenStore.PurgeStaleRefreshTokens | apps/api/decisionflow/services/auth.py:322-348 | exactly the stale records go, and their number is returned |
| RefreshTokens.EveryRunKeepsInv | apps/api/decisionflow/services/auth.py:208-360 | over all runs, records belong to minted tokens of their user, expire with them, and were revoked within their lifetime |
| RefreshTokens.RevocationIsFinal | apps/api/decisionflow/services/auth.py:239-360 | no request revives a spent token or moves its revocation time or expiry |
| RefreshTokens.IssueAddsASession | apps/api/decisionflow/services/auth.py:208-236 | issuing adds exactly one live record of the configured lifetime, a token that ends with it to the second, and an access token |
| RefreshTokens.LogoutRevokesTheSession | apps/api/decisionflow/services/auth.py:307-319 | logging out with an unexpired token revokes its live record now; no other record ever changes |
| RefreshTokens.LoggedOutForGood | apps/api/decisionflow/services/auth.py:307-319 | after a logout, over any continuation of any run, that token is never exchanged again |
| RefreshTokens.RevokeUserRevokesThemAll | apps/api/decisionflow/services/auth.py:351-360 | each live record of the user is revoked now, and no other record changes |
| RefreshTokens.PurgeRemovesTheStale | apps/api/decisionflow/services/auth.py:322-348 | a purge removes exactly the records that expired or were revoked before the retention began |
| RefreshTokens.RefreshRefusedExactlyWhen | apps/api/decisionflow/services/auth.py:239-304 | each refusal of a refresh by its exact condition; only a replay changes anything, and it revokes the user's tokens |
| RefreshTokens.ExchangedAtMostOnce | apps/api/decisionflow/services/auth.py:239-304 | over every run, purges included, a refresh token is exchanged at most once |
| RefreshTokens.ReplayCutsTheFamily | apps/api/decisionflow/services/auth.py:255-265 | presenting a revoked token leaves its user without a live token and everybody else untouched |
| RefreshTokens.ReplayEndsTheSessions | apps/api/decisionflow/services/auth.py:255-265 | after a replay, in any continuation of any run, no token of that user is exchanged until they are granted tokens by registration, password or invitation, or by a workspace switch within one access lifetime of the replay |
| RefreshTokens.SwitchOutlivesTheReplay | apps/api/decisionflow/api/v1/auth.py:132-159 | a run in which a session goes on after a replay, with no login, by switching workspace on a surviving access token |
| RefreshTokens.RefreshSucceedsExactlyWhen | apps/api/decisionflow/services/auth.py:239-304 | a refresh succeeds exactly on a decodable token with a live record of an available user, and changes those two records only |
| RefreshTokens.RunsShadow | apps/api/decisionflow/services/auth.py:322-348 | a purged store differs from a never-purged one only in records whose token no longer decodes |
| RefreshTokens.PurgingIsInvisibleExactlyWhen | apps/api/decisionflow/services/auth.py:322-348 | every later request is answered as if nothing had been purged, exactly when the lifetime does not exceed the retention |
| RefreshTokens.LostReplay | apps/api/decisionflow/services/auth.py:322-348 | with a longer lifetime, a run in which a replay arrives after its evidence was deleted |
| RefreshTokens.DefaultPurgingIsInvisible | apps/api/decisionflow/core/config.py:39-41 | the default settings are on the safe side |
| SingleFlight.ApiClient.SetTokens | apps/web/lib/api.ts:32-35 | stores the new refresh token and an access token |
| SingleFlight.ApiClient.ClearTokens | apps/web/lib/api.ts:37-40 | leaves neither |
| SingleFlight.ApiClient.RefreshSession | apps/web/lib/api.ts:46-76 | gives up without a stored token, joins the refresh in flight, or starts one with the stored token; the tokens stay |
| SingleFlight.ApiClient.OnRefreshResponse | apps/web/lib/api.ts:56-76 | a response settles the shared promise and replaces or clears the tokens |
| SingleFlight.FetchMeans | apps/web/lib/api.ts:85-100 | a request goes out with one retry in hand, and goes out again with none exactly when it is resumed after a refresh that worked |
| SingleFlight.RespondMeans | apps/web/lib/api.ts:98-99 | a response ends its request unless it is the first 401 of a signed-in client; that one joins the refresh in flight or starts one with the stored token |
| SingleFlight.SettlingMeans | apps/web/lib/api.ts:54-73 | a delivered answer replaces or clears the tokens, a rejected fetch leaves them, and either resumes exactly the requests that waited for it |
| SingleFlight.ServerMeans | apps/api/decisionflow/services/auth.py:239-304 | the server answers a call as it answers a refresh of its token, before the client hears of it |
| SingleFlight.OthersMean | apps/web/lib/auth.tsx:75-79 | signing out clears the tokens and nothing else; what happens elsewhere touches the server only |
| SingleFlight.EveryInterleavingKeepsInv | apps/web/lib/api.ts:46-100 | with nothing lost, no sign-out and no revocation from outside: in every interleaving after a login the in-flight refresh carries the session's only token that still counts |
| SingleFlight.OneRefreshAtATime | apps/web/lib/api.ts:46-100 | under the same assumptions: at most one refresh in flight, no refresh-token value sent twice, no replay, every request sent at most twice, and the stored token is the session's only live one |
| SingleFlight.SessionEndsOnlyByExpiryOrAccount | apps/web/lib/api.ts:46-76 | under the same assumptions the server rejects a refresh of this client only for expiry or an unavailable account |
| LostResponses.EveryLossyRunKeepsInv | apps/web/lib/api.ts:46-76 | over every interleaving, with losses, late handling, sign-outs and revocations from outside: one call counts and carries the stored token if any, a trade or an outside revocation spends its token for good, and before the first replay nothing else does |
| LostResponses.ReplayReachedExactlyWhen | apps/api/decisionflow/services/auth.py:255-265 | no replay exactly when the server never handles a call whose token another call has traded, or the outside has revoked, while it decodes and its record is kept |
| LostResponses.ReplaysHaveACause | apps/web/lib/api.ts:46-76 | behind every replay is a revocation from outside, or an abandoned call that was traded or handled late; at most one call is not abandoned, and no request goes out more than twice |
| LostResponses.LosingTheTradeStrands | apps/web/lib/api.ts:68-72 | giving up a call the server has traded leaves the client with the spent token, or signed out, and with nothing better under way |
| LostResponses.LateTradeStrands | apps/web/lib/api.ts:68-72 | so does an abandoned call the server trades later, while its token is the stored one |
| LostResponses.OutsideCutsAllOrNothing | apps/api/decisionflow/services/auth.py:351-360 | what the outside revokes of a session is every live token of it, when all of the user's are revoked or one of theirs is replayed, and otherwise nothing |
| LostResponses.RevocationStrands | apps/api/decisionflow/services/auth.py:481-524 | so does a revocation of all the user's tokens, when it finds the stored one live |
| LostResponses.StrandedRefreshIsReplayed | apps/api/decisionflow/services/auth.py:255-265 | a stranded tab's next refresh, while the token decodes and its record is kept, is answered as a replay and leaves the user no live token |
| LostResponses.StrandedForGood | apps/web/lib/api.ts:46-76 | over any continuation, until a new login, a stranded tab is signed out or still stranded on that token |
| LostResponses.LostResponseEndsInReplay | apps/api/decisionflow/services/auth.py:255-265 | a run in which a lost response leads to a replay |
| LostResponses.LossAloneIsHarmless | apps/web/lib/api.ts:68-72 | a run with a loss and no replay: the next refresh is traded as usual |
| LostResponses.LateHandlingIsReplayed | apps/api/decisionflow/services/auth.py:255-265 | the same run once the server comes to the abandoned call: a replay, with no abandoned call traded |
| LostResponses.RoleChangeEndsInReplay | apps/api/decisionflow/services/auth.py:481-524 | a run without any loss in which a role change elsewhere leads this tab into the replay branch, which revokes a session begun after the change |
| LostResponses.SignOutUndoneExactlyWhen | apps/web/lib/auth.tsx:75-79 | a signed-out client has tokens again exactly when the refresh in flight is delivered with a new one |
| LostResponses.SignOutLasts | apps/web/lib/auth.tsx:75-79 | over any continuation in which that refresh is not delivered the client stays signed out |
| LostResponses.SignOutIsUndone | apps/web/lib/api.ts:46-76 | a run in which signing out during a refresh ends signed in |
| Workspaces.Directory.RegisterUser | apps/api/decisionflow/services/auth.py:119-149 | creates user, workspace and ownership together, or refuses without effect |
| Workspaces.Directory.CreateOrganization | apps/api/decisionflow/services/auth.py:366-375 | the creator becomes owner of a new workspace |
| Workspaces.Directory.InviteMember | apps/api/decisionflow/services/auth.py:388-432 | refuses members and addresses with a pending invitation; otherwise one invitation is added |
| Workspaces.Directory.AcceptInvitation | apps/api/decisionflow/services/auth.py:435-478 | every refusal by its kind; otherwise the invitation is spent, and the account its address leads to is a member and is the one returned |
| Workspaces.Directory.ChangeMemberRole | apps/api/decisionflow/services/auth.py:481-524 | ownership is touched by owners only, the last owner is not demoted, and a change revokes the target's refresh tokens |
| Workspaces.Directory.RemoveMember | apps/api/decisionflow/services/auth.py:527-587 | one removal, as RemovalSucceedsExactlyWhen and RemovalRemoves describe it; on success the target's refresh tokens are revoked |
| Workspaces.Directory.RouteChangeRole | apps/api/decisionflow/api/v1/orgs.py:109-128 | the router's checks and the service together make one step of the state machine, after which the target has no live refresh token |
| Workspaces.Directory.RouteRemove | apps/api/decisionflow/api/v1/orgs.py:131-150 | likewise for removal |
| Workspaces.Directory.RouteInvite | apps/api/decisionflow/api/v1/orgs.py:84-106 | likewise for invitations, which never offer ownership |
| Workspaces.EveryRunKeepsOwnership | apps/api/decisionflow/services/auth.py:366-587 | in every reachable state each workspace has an owner, membership is unique, and at most one invitation per address is pending |
| Workspaces.OwnershipComesFromOwners | apps/api/decisionflow/services/auth.py:481-524 | anyone becomes owner only by creating the workspace or by the act of another current owner |
| Workspaces.OwnershipLostOnlyToOwners | apps/api/decisionflow/services/auth.py:481-587 | an owner stops being one only by leaving or by the act of another current owner |
| Workspaces.MembersEnterByInvitation | apps/api/decisionflow/services/auth.py:435-478 | nobody enters an existing workspace except on a valid invitation to it, in the invited role |
| Workspaces.RedeemedAtMostOnce | apps/api/decisionflow/services/auth.py:435-478 | over every run an invitation is redeemed at most once |
| Workspaces.AcceptSucceedsExactlyWhen | apps/api/decisionflow/services/auth.py:435-478 | redeeming succeeds exactly for an unredeemed, unexpired invitation whose address has an account, or else with a password |
| Workspaces.AcceptSignsInTheAddressee | apps/api/decisionflow/services/auth.py:435-478 | the account signed in is the one at the invited address, an existing one unchanged or else a new one, and is a member of the workspace afterwards |
| Workspaces.SignInWithoutPassword | apps/api/decisionflow/api/v1/auth.py:162-187 | without a password redeeming succeeds exactly for an open invitation to an existing account's address, and makes no account |
| Workspaces.InvitationsComeFromAdmins | apps/api/decisionflow/api/v1/orgs.py:84-106 | in every run each invitation on record was made by a request in the name of someone who was an admin of its workspace then |
| Workspaces.LapsedInvitationBlocks | apps/api/decisionflow/services/auth.py:388-432 | a lapsed invitation can be neither redeemed nor replaced, by any request at all |
| Workspaces.LapsedForGood | apps/api/decisionflow/services/auth.py:388-478 | over any continuation of any run a lapsed invitation stays on record as it was |
| Workspaces.InvitationRefusedExactlyWhen | apps/api/decisionflow/services/auth.py:388-432 | an invitation is refused exactly for the owner role, from anyone but a live admin, to a member's address, or to an address with an unredeemed invitation, lapsed or not |
| Workspaces.RolesFormALadder | apps/api/decisionflow/db/models/tenancy.py:52-57 | the roles are totally ordered from owner to viewer, no two on one rung |
| Workspaces.RemovalSucceedsExactlyWhen | apps/api/decisionflow/services/auth.py:527-587 | a removal succeeds exactly for two members of the workspace, the one who asks being the one who goes or an admin, and an owner if an owner goes, and never for the sole owner |
| Workspaces.RemovalRemoves | apps/api/decisionflow/services/auth.py:527-587 | the one who goes has no role there any more; every other role, the users and the invitations stay |
| Workspaces.RoleChangeSucceedsExactlyWhen | apps/api/decisionflow/api/v1/orgs.py:109-128 | a role changes exactly when an admin asks it for another member, and an owner where ownership is given or taken; the sole-owner check never decides |
| Workspaces.RoleChangeChanges | apps/api/decisionflow/services/auth.py:481-524 | the member has the new role there; every other role, the users and the invitations stay |
| Workspaces.RegistrationMeans | apps/api/decisionflow/services/auth.py:119-149 | registering succeeds exactly for an unused address with a free name, and adds that account as the owner of the new workspace and nothing else |
| Workspaces.CreationMeans | apps/api/decisionflow/services/auth.py:366-375 | creating a workspace succeeds exactly with a free name and makes its creator the owner, and nothing else |
| Workspaces.InvitationMeans | apps/api/decisionflow/services/auth.py:388-432 | an invitation made is open for seven days, to the lower-case address, in the role asked, and is the only change |
| Workspaces.AcceptMeans | apps/api/decisionflow/services/auth.py:435-478 | redeeming marks that invitation only, and changes no role but the addressee's there, and that only if they had none |
| Workspaces.LateGuestIsLockedOut | apps/api/decisionflow/services/auth.py:388-478 | a run that ends with a lapsed invitation neither redeemable nor replaceable |
| WarehouseLocks.LockKeysMeetExactlyWhen | apps/api/decisionflow/data/warehouse.py:88-95 | the key is a signed 64-bit number, and two workspaces share it exactly when their first eight bytes agree |
| WarehouseLocks.ConnectionsAreSafe | apps/api/decisionflow/data/warehouse.py:134-169 | whatever the interleaving, timeouts, crashes and collisions: connections lie inside their lock and a read-write one is alone |
| WarehouseLocks.CreationIsNotExclusive | apps/api/decisionflow/data/warehouse.py:120-131 | a run in which the file's creation overlaps another connection |
| WarehouseLocks.SafeExactlyWhenTheFileExists | apps/api/decisionflow/data/warehouse.py:120-169 | exclusion holds over all runs exactly for workspaces whose file exists |
| WarehouseLocks.BeginMeans | apps/api/decisionflow/data/warehouse.py:120-131 | whoever finds the file missing creates it on a connection of their own; everybody else is ready for the lock at once |
| WarehouseLocks.ProgressMeans | apps/api/decisionflow/data/warehouse.py:158-169 | a worker connects after its lock and closes after its query, a deadline only marks it, and nobody else is touched |
| WarehouseLocks.ReleaseMeans | apps/api/decisionflow/data/warehouse.py:158-169 | the end of a transaction, or the noticing of a dead session, gives back exactly that worker's lock and place in the queue |
| WarehouseLocks.CrashMeans | apps/api/decisionflow/data/warehouse.py:158-169 | a crash takes the worker out wherever it is and leaves its lock and its place until noticed |
| WarehouseLocks.SandboxedWriteIsRefused | apps/api/decisionflow/data/warehouse.py:134-169 | a sandboxed write never holds a lock |
| WarehouseLocks.SandboxedWritesNeverLock | apps/api/decisionflow/data/warehouse.py:134-169 | a worker that set out on a sandboxed write holds no lock at any later time until it begins anew |
| WarehouseLocks.LocksHaveOwners | apps/api/decisionflow/data/warehouse.py:134-169 | every lock is held by a worker between its grant and the end of its transaction, or by a dead one |
| WarehouseLocks.CrashReleases | apps/api/decisionflow/data/warehouse.py:134-169 | a crash leaves no connection, and no lock and no queued request once its transaction is gone; nobody else is affected |
| WarehouseLocks.WaitersGetIn | apps/api/decisionflow/data/warehouse.py:134-169 | a queued request is granted on its turn exactly when no holder conflicts and no waiter ahead does |
| WarehouseLocks.AskersGetIn | apps/api/decisionflow/data/warehouse.py:158-161 | a new request is granted at once exactly when no holder and nobody queued conflicts, and is queued last otherwise |
| WarehouseLocks.BlockersOnlyShrink | apps/api/decisionflow/data/warehouse.py:134-169 | no starvation: over any run, while a request is queued, the set of holders and waiters it has to wait for never gains a member |
| WarehouseLocks.NobodyIsStuck | apps/api/decisionflow/data/warehouse.py:134-169 | no deadlock: from any reachable state the holders and those queued ahead only have to finish, or be noticed dead, and whoever wants a lock gets it |
| WarehouseLocks.CollidingReadersShare | apps/api/decisionflow/data/warehouse.py:88-95 | beside a reader of one workspace a reader of another with the same key gets in at once exactly when no writer is queued on the key |
| WarehouseLocks.Warehouse.EnsureExists | apps/api/decisionflow/data/warehouse.py:120-131 | the file exists afterwards; the step is the protocol's |
| WarehouseLocks.Warehouse.TakeLock | apps/api/decisionflow/data/warehouse.py:134-169 | the step is the protocol's, and says whether the lock was granted or the request queued |
| WarehouseLocks.Warehouse.LockGranted | apps/api/decisionflow/data/warehouse.py:158-161 | a queued request's turn is the protocol's step, and says whether it came |
| WarehouseLocks.Warehouse.OpenConnection | apps/api/decisionflow/data/warehouse.py:134-169 | likewise for connecting |
| WarehouseLocks.Warehouse.Leave | apps/api/decisionflow/data/warehouse.py:134-169 | closes before it releases, and holds nothing afterwards |
| Ingestion.Store.BeginIngestion | apps/api/decisionflow/services/ingestion.py:228-260 | a running run and an analysing dataset appear together, or nothing happens |
| Ingestion.Store.EndIngestion | apps/api/decisionflow/services/ingestion.py:260-326 | success and failure set both rows that are still there |
| Ingestion.Store.RecoverStalledRuns | apps/api/decisionflow/services/ingestion.py:371-419 | one pass fails exactly the stalled runs and the analysing datasets that have one, and counts the runs |
| Ingestion.StartMeans | apps/api/decisionflow/services/ingestion.py:228-250 | starting marks a known dataset analysing and opens one running run; an unknown one changes nothing |
| Ingestion.EndMeans | apps/api/decisionflow/services/ingestion.py:260-326 | a job that ends closes its own run now, and with it its dataset's status, if they are still there |
| Ingestion.SweepMeans | apps/api/decisionflow/services/ingestion.py:371-419 | a sweep fails exactly the running runs that started more than 1800 seconds ago and the analysing datasets that have one |
| Ingestion.OtherEventsMean | apps/api/decisionflow/services/pipeline.py:147-150 | cleaning readies a ready or analysing dataset and no other; uploads, deaths, deletions and time change what they should and no more |
| Ingestion.LiveJobsAreYoung | apps/api/decisionflow/worker/main.py:68-68 | in every run no live job is older than its timeout of 900 seconds |
| Ingestion.EveryRunKeepsInv | apps/api/decisionflow/services/ingestion.py:228-419 | over all events, several runs per dataset and killed workers included: an analysing dataset has a recent running run, and live runs are within the timeout |
| Ingestion.AnalysingMeansRunning | apps/api/decisionflow/services/ingestion.py:228-326 | a dataset in ANALYZING has a RUNNING run |
| Ingestion.FinishedRunsNeverChange | apps/api/decisionflow/services/ingestion.py:228-419 | a finished run never changes; it goes only with its dataset |
| Ingestion.FinishedForGood | apps/api/decisionflow/services/ingestion.py:228-419 | over any continuation of any run it stays as it ended, unless its dataset is deleted |
| Ingestion.SweepSparesLiveRuns | apps/api/decisionflow/services/ingestion.py:371-419 | recovery never fails a live run: 900 s timeout below the 1800 s threshold |
| Ingestion.SweepLeavesOnlyRecent | apps/api/decisionflow/services/ingestion.py:371-419 | after a sweep every dataset still analysing has a run started within 1800 s |
| Ingestion.StrandedAtMost2400Seconds | apps/api/decisionflow/worker/main.py:55-68 | with sweeps every ten minutes none is analysing more than 2400 s after its last start |
| Ingestion.SweepFailsALiveDatasetExactlyWhen | apps/api/decisionflow/services/ingestion.py:371-419 | when exactly the sweep fails a dataset whose ingestion is live |
| Ingestion.LiveDatasetCanBeFailed | apps/api/decisionflow/services/ingestion.py:371-419 | a run that gets there |
| Cleaning.ColumnProfile.FillString | apps/api/decisionflow/data/profiling.py:195-247 | the counts and fractions of a string column, filled in place |
| Cleaning.ProfileColumn | apps/api/decisionflow/data/profiling.py:94-142 | the profile of a column; empty columns stop early |
| Cleaning.ProfileIs | apps/api/decisionflow/data/profiling.py:94-142 | a column is empty when it has rows and all are NULL; otherwise a text column's placeholders and padded values are counted, and each kind's share of its real values, if it has any |
| Cleaning.PlanColumn | apps/api/decisionflow/data/cleaning.py:101-157 | the plan for a profile, as PlannedExactlyWhen describes it on the cells |
| Cleaning.PlannedExactlyWhen | apps/api/decisionflow/data/cleaning.py:101-157 | a text column is cast to the first of boolean, date and number that 95 of a hundred of its real values are, if it has any, and to nothing otherwise; the steps, their order and the resulting type are given on the cells |
| Cleaning.TypedColumnsAreLeftAlone | apps/api/decisionflow/data/cleaning.py:108-111 | a column the reader has typed gets no step and keeps its type |
| Cleaning.ColumnExpression | apps/api/decisionflow/data/cleaning.py:182-221 | in every engine the compiled expression trims a cell if asked, blanks placeholders if asked, and puts the rest through the one cast: booleans before dates before numbers, what cannot be cast becoming NULL |
| Cleaning.PlanCleaning | apps/api/decisionflow/data/cleaning.py:160-172 | every column is planned on its own profile |
| Cleaning.PlanComputesTheReference | apps/api/decisionflow/data/cleaning.py:101-221 | the plan that skips idle steps computes the same column as always trimming, always nulling placeholders, then casting |
| Cleaning.LostOrKept | apps/api/decisionflow/data/profiling.py:208-247 | the profile's likeness tests and the compiled casts agree value by value |
| Cleaning.CastCostsAtMostFivePercent | apps/api/decisionflow/data/cleaning.py:101-157 | at most 5% of a column's real values become NULL, none without a cast |
| Cleaning.CleanTableIsTheReference | apps/api/decisionflow/data/cleaning.py:224-241 | every cell of the clean table is the reference's |
| Cleaning.RunPipeline | apps/api/decisionflow/services/pipeline.py:94-132 | deduplication is at most raw rows minus counted duplicates; without it the counts are equal |
| Cleaning.DistinctHasNoRepeats | apps/api/decisionflow/services/pipeline.py:45-61 | the duplicate count is rows minus distinct rows |
| Cleaning.DistinctAfterCleaning | apps/api/decisionflow/data/cleaning.py:224-241 | the clean count meets that bound exactly when cleaning merges no two different rows |
| Cleaning.CleanTableRepeatsExactlyWhen | apps/api/decisionflow/services/pipeline.py:107-132 | with deduplication asked for the clean table has repeats exactly when the raw one had none and cleaning made some; without, when either is so |
| Cleaning.RepeatsMadeByCleaningStay | apps/api/decisionflow/services/pipeline.py:107-132 | the first half of that line for any raw table, with all rows kept when the raw one has no duplicates |
| Cleaning.CellsMeetExactlyWhen | apps/api/decisionflow/data/cleaning.py:182-221 | two cells are cleaned to one value exactly when neither has a value, being blank or unreadable for the column's cast, or both do and read the same: the same side of yes and no, day, number, or without a cast trimmed text |
| Cleaning.MergesExactlyWhen | apps/api/decisionflow/data/cleaning.py:224-241 | cleaning merges rows exactly when two different ones meet so in every cell |
| Cleaning.PaddingLeavesRepeats | apps/api/decisionflow/services/pipeline.py:107-132 | a two-row table without duplicates whose clean table has one |
| Regression.NormalEquations | apps/api/decisionflow/ml/forecasting.py:132-166 | residuals sum to zero and are orthogonal to the index |
| Regression.ErrorDecomposition | apps/api/decisionflow/ml/forecasting.py:132-166 | any line's squared error is the fit's plus the squared distance between the two lines |
| Regression.FitIsOptimal | apps/api/decisionflow/ml/forecasting.py:132-166 | no line has a smaller squared error and no other line has as small a one |
| Regression.NoErrorExactlyOnALine | apps/api/decisionflow/ml/forecasting.py:132-166 | the fit leaves no error exactly when the series lies on a line |
| Regression.ExactFitIsFound | apps/api/decisionflow/ml/anomalies.py:69-74 | a series on a line is fitted by that line |
| Regression.TiltMovesTheFit | apps/api/decisionflow/ml/anomalies.py:69-74 | adding a line to the series adds it to the fit and leaves the residuals |
| Regression.ScaleMovesTheFit | apps/api/decisionflow/ml/anomalies.py:69-74 | scaling the series scales fit and residuals |
| Statistics.MedianCoversHalf | apps/api/decisionflow/ml/anomalies.py:77-83 | at least half of the values are at most the median |
| Statistics.MedianIsTheMiddle | apps/api/decisionflow/ml/anomalies.py:77-83 | in whatever way the values are put in order, twice the median is the sum of the two middle ones |
| Statistics.MeanAndVarianceAre | apps/api/decisionflow/ml/anomalies.py:84-84 | n means are the sum, and n - 1 variances the sum of squared distances from the mean |
| Statistics.MadScales | apps/api/decisionflow/ml/anomalies.py:77-84 | the median absolute deviation scales with the series |
| Statistics.VarianceScales | apps/api/decisionflow/ml/anomalies.py:84-84 | the variance scales with the square |
| Anomalies.Detect | apps/api/decisionflow/ml/anomalies.py:48-118 | mismatched lengths are refused; otherwise the report on the present points in time order |
| Anomalies.PointsArePresent | apps/api/decisionflow/ml/anomalies.py:62-66 | the points are exactly the periods with a value, in their order |
| Anomalies.HistoryIsInOrder | apps/api/decisionflow/ml/anomalies.py:69-70 | they are judged in order of time |
| Anomalies.SpreadIs | apps/api/decisionflow/ml/anomalies.py:81-84 | the spread is 1.4826 times the median distance of the residuals from their median or, when that is zero, their sample deviation |
| Anomalies.DescriptionIs | apps/api/decisionflow/ml/anomalies.py:95-110 | an entry gives the trend's value, the distance from it, that distance as a share of its size, and its direction |
| Anomalies.ReportIsInOrder | apps/api/decisionflow/ml/anomalies.py:90-118 | there is one entry for each point not judged normal, in the order of the points |
| Anomalies.ReportNeedsFivePoints | apps/api/decisionflow/ml/anomalies.py:66-67 | fewer than five points make no report |
| Anomalies.ReportedExactlyWhenJudged | apps/api/decisionflow/ml/anomalies.py:90-116 | the report holds one entry for each point judged not normal and nothing else |
| Anomalies.ReachesIsTheScore | apps/api/decisionflow/ml/anomalies.py:91-94 | comparing squares is the z-test |
| Anomalies.JudgeIsTheZScore | apps/api/decisionflow/ml/anomalies.py:84-110 | the verdict is normal, warning or serious as the absolute z-score stands to the sensitivity and 1.5 times it |
| Anomalies.TiltChangesNoVerdict | apps/api/decisionflow/ml/anomalies.py:69-118 | adding any line changes no verdict, in both spread branches |
| Anomalies.ScaleChangesNoVerdict | apps/api/decisionflow/ml/anomalies.py:69-118 | nor does any positive factor |
| Anomalies.ReportIgnoresTrend | apps/api/decisionflow/ml/anomalies.py:48-118 | the flagged periods, directions and severities survive any added line |
| Anomalies.ReportIgnoresScale | apps/api/decisionflow/ml/anomalies.py:48-118 | and any change of unit |
| Anomalies.LineHasNoAnomalies | apps/api/decisionflow/ml/anomalies.py:86-88 | a series on a line is judged normal everywhere |
| Anomalies.LineHasEmptyReport | apps/api/decisionflow/ml/anomalies.py:86-88 | its report is empty |
| Anomalies.FlaggedBeyondMad | apps/api/decisionflow/ml/anomalies.py:77-93 | a flagged point deviates by more than the MAD |
| Anomalies.AtMostHalfFlagged | apps/api/decisionflow/ml/anomalies.py:77-93 | whatever the outliers, at most half of the periods are flagged |
| Anomalies.AtMostHalfFlaggedByDefault | apps/api/decisionflow/ml/anomalies.py:26-26 | the default sensitivity qualifies |
| Calendar.YearLength | apps/api/decisionflow/ml/forecasting.py:91-99 | the day count between two New Year's Days is the year's length |
| Calendar.ShiftLandsInTheMonth | apps/api/decisionflow/ml/forecasting.py:91-99 | shifting lands in the intended month on the start day cut to that month's length |
| Calendar.ShiftsCompose | apps/api/decisionflow/ml/forecasting.py:91-99 | shifting in two goes lands in the same month, on the same day up to the 28th |
| Calendar.MonthGap | apps/api/decisionflow/ml/forecasting.py:102-121 | clamped dates one month apart are 28 to 31 days apart |
| Calendar.QuarterGap | apps/api/decisionflow/ml/forecasting.py:102-121 | three months apart: 89 to 92 days |
| Calendar.YearGap | apps/api/decisionflow/ml/forecasting.py:102-121 | a year apart: 365 or 366 |
| Calendar.StepStaysInBand | apps/api/decisionflow/ml/forecasting.py:102-121 | every projected gap stays in the band of day counts that selected the rule |
| Calendar.StrideIs | apps/api/decisionflow/ml/forecasting.py:112-119 | which spacings in days mean a month, a quarter and a year |
| Calendar.StepIs | apps/api/decisionflow/ml/forecasting.py:77-88 | the step is midway between the two middle gaps, and thirty days with no gap to go by |
| Calendar.RepresentableIs | apps/api/decisionflow/ml/forecasting.py:118-121 | a label must lie between the first second of year 1 and the last of year 9999 |
| Calendar.CalendarLabelsAreSound | apps/api/decisionflow/ml/forecasting.py:91-121 | labels are valid, strictly increasing, and each follows the rule: a short month's clamp is never carried on |
| Calendar.LabelsFailOnlyPastTheLastYear | apps/api/decisionflow/ml/forecasting.py:91-121 | labelling fails exactly when the furthest label is past the calendar's last year |
| Calendar.FixedLabelsAreEvenlySpaced | apps/api/decisionflow/ml/forecasting.py:118-121 | any other spacing is projected by the median gap |
| Calendar.FixedLabelsFailOnlyPastTheLastYear | apps/api/decisionflow/ml/forecasting.py:118-121 | on an ordered history they fail exactly when the furthest one is past the calendar's last year |
| Calendar.NewDateExactlyWhen | apps/api/decisionflow/ml/forecasting.py:252-256 | a step leads to a later date from every start exactly when it is at least a day |
| Calendar.FixedDatesIncrease | apps/api/decisionflow/ml/forecasting.py:252-256 | then the emitted dates strictly increase from the last period on |
| Calendar.HourlyLabelsRepeatADate | apps/api/decisionflow/ml/forecasting.py:252-256 | an hourly history whose first two labels fall on the date of its last period |
| Forecasting.LinearForecast | apps/api/decisionflow/ml/forecasting.py:132-166 | the loop yields the trend band of every step and the fit's residuals |
| Forecasting.TrendBandIs | apps/api/decisionflow/ml/forecasting.py:132-166 | a band has the line's value in the middle and on either side the quantile times the deviation times the root |
| Forecasting.ResidualStdIs | apps/api/decisionflow/ml/forecasting.py:149-150 | the deviation squared times n - 2 is the fit's squared error |
| Forecasting.LeverageIs | apps/api/decisionflow/ml/forecasting.py:151-163 | the factor under the root is 1 + 1/n plus the squared distance from the middle of the history over n(n - 1)(n + 1)/12 |
| Forecasting.LeverageGrows | apps/api/decisionflow/ml/forecasting.py:148-160 | the factor under the root is above one and grows with the step |
| Forecasting.MarginNonNegative | apps/api/decisionflow/ml/forecasting.py:148-160 | the margin is never negative |
| Forecasting.BandWidensExactlyWhen | apps/api/decisionflow/ml/forecasting.py:148-160 | the unclamped band strictly widens at every step exactly when the history is not a line |
| Forecasting.LineIsContinued | apps/api/decisionflow/ml/forecasting.py:132-166 | an exactly linear history is continued with zero margin |
| Forecasting.SmoothedMarginNonNegative | apps/api/decisionflow/ml/forecasting.py:169-204 | the smoothed band surrounds its prediction |
| Forecasting.SmoothedBandIs | apps/api/decisionflow/ml/forecasting.py:190-204 | the smoothed band's half width squared is the squared quantile times the residuals' variance times the steps ahead |
| Forecasting.ClampKeepsTheBand | apps/api/decisionflow/ml/forecasting.py:252-263 | clamping keeps lower, value and upper in order, at or above zero, and changes nothing above zero |
| Forecasting.ClampIs | apps/api/decisionflow/ml/forecasting.py:252-263 | each number of a clamped band is as it was, or zero for a negative one that is not allowed |
| Forecasting.HorizonIs | apps/api/decisionflow/ml/forecasting.py:230-230 | the horizon is the one asked for, kept between one and 24 |
| Forecasting.MethodFollowsTheLength | apps/api/decisionflow/ml/forecasting.py:232-246 | histories below 24 points follow the trend, longer ones the smoothing |
| Forecasting.EntriesArePresent | apps/api/decisionflow/ml/forecasting.py:216-220 | the history is exactly the periods with a value, in their order |
| Forecasting.HistoryIsInOrder | apps/api/decisionflow/ml/forecasting.py:227-229 | it is fitted in order of time |
| Forecasting.ForecastSeries | apps/api/decisionflow/ml/forecasting.py:207-279 | refusals by kind; otherwise labels and clamped bands for the bounded horizon, always in order |
| Forecasting.ForecastLabelsFollowTheRule | apps/api/decisionflow/ml/forecasting.py:102-121 | the labels of a forecast follow the calendar rule its history selected |
| Churn.GroupByCustomer | apps/api/decisionflow/ml/churn.py:74-104 | the dictionary holds exactly each customer's usable transactions, in order |
| Churn.UsableAreReadable | apps/api/decisionflow/ml/churn.py:84-100 | the usable transactions are the rows with a customer and a readable date, in order; a missing amount is zero |
| Churn.HistoryIsTheirs | apps/api/decisionflow/ml/churn.py:101-101 | a customer's history is their transactions, in order |
| Churn.FeaturesAre | apps/api/decisionflow/ml/churn.py:110-122 | a customer's features are whole days since the last purchase, the number and sum of purchases, and whole days between the first and last |
| Churn.LatestOf | apps/api/decisionflow/ml/churn.py:104-110 | the latest of the customers' last dates is the latest transaction of all |
| Churn.BuildFeatures | apps/api/decisionflow/ml/churn.py:74-123 | one feature row per customer with usable transactions; refuses exactly when there are none |
| Churn.RecencyIsNeverNegative | apps/api/decisionflow/ml/churn.py:104-123 | recency and tenure are non-negative, recency is bounded by every own transaction's age, tenure covers every own gap, and together they fit the data's span |
| Churn.FeaturesConserveTransactions | apps/api/decisionflow/ml/churn.py:74-123 | frequencies add up to the transactions and amounts to the total: none lost, none counted twice |
| Churn.RoundIsNearest | apps/api/decisionflow/ml/churn.py:126-137 | rounding takes the nearest whole number, the even one of two as near, and crosses no whole number |
| Churn.PercentileAboveOrderStatistic | apps/api/decisionflow/ml/churn.py:126-137 | the interpolated 70th percentile is at least the order statistic below it |
| Churn.PercentileIs | apps/api/decisionflow/ml/churn.py:126-137 | in whatever way the recencies are put in order, the percentile lies on the straight line between the two around position 0.7 (n - 1) |
| Churn.CutoffIs | apps/api/decisionflow/ml/churn.py:126-137 | the cutoff is the nearest whole number of days to the percentile or to thirty, whichever is later |
| Churn.LapsedAreAMinority | apps/api/decisionflow/ml/churn.py:162-164 | over whole-day recencies at most ceil(0.3 (n - 1)) customers are labelled lapsed, and the cutoff is at least 30 days |
| Churn.FewCustomersLapse | apps/api/decisionflow/ml/churn.py:162-164 | the bound for the features the service builds; those counted are exactly the customers whose recency is beyond the cutoff |
| Contribution.Explain | apps/api/decisionflow/data/contribution.py:244-299 | one pass of sums, the ranking, the cut at eight and the shares |
| Contribution.ExplanationIs | apps/api/decisionflow/data/contribution.py:244-299 | an explanation holds the net and gross change over all rows, and lists the rows of the eight highest ranks in order, each with its own values, change and share of the net change |
| Contribution.ConcentrationIs | apps/api/decisionflow/data/contribution.py:276-279 | concentration is the share of the gross change made up by the row that moved most |
| Contribution.ConcentratedExactlyWhen | apps/api/decisionflow/data/contribution.py:81-90 | a dimension is concentrated exactly when one row moved more than all the others together |
| Contribution.OffsettingExactlyWhen | apps/api/decisionflow/data/contribution.py:96-104 | it is offsetting exactly when the smaller of what rose and what fell is over a third of the larger |
| Contribution.StatisticsIgnoreRowOrder | apps/api/decisionflow/data/contribution.py:257-299 | total, gross movement and concentration do not depend on the order of the rows |
| Contribution.BasicBounds | apps/api/decisionflow/data/contribution.py:257-276 | net is at most gross, concentration is a share, and it is positive exactly when something moved |
| Contribution.ConcentratedHasACause | apps/api/decisionflow/data/contribution.py:81-90 | a concentrated dimension's leader outweighs all others together, gives the change its sign, and has a defined share at least the concentration |
| Contribution.CutKeepsTheLargest | apps/api/decisionflow/data/contribution.py:276-289 | no segment outside the cut moved more than one inside it |
| Contribution.RiserIsLargestIncrease | apps/api/decisionflow/data/contribution.py:106-110 | a reported riser is the largest increase over all segments |
| Contribution.FallerIsLargestDecrease | apps/api/decisionflow/data/contribution.py:112-116 | a reported faller is the largest decrease over all segments |
| Contribution.RiserReportedExactlyWhen | apps/api/decisionflow/data/contribution.py:106-110 | a riser is reported exactly when some row rose and fewer than eight rows moved more, or as much and earlier |
| Contribution.FallerReportedExactlyWhen | apps/api/decisionflow/data/contribution.py:112-116 | likewise for the faller |
| Contribution.RiserCanBeMissed | apps/api/decisionflow/data/contribution.py:106-110 | nine distinct segments of which one rose, with no riser reported |
| Contribution.FallerCanBeMissed | apps/api/decisionflow/data/contribution.py:112-116 | nine distinct segments of which one fell, with no faller reported |
| Contribution.RiserMeansNothingRose | apps/api/decisionflow/data/contribution.py:106-110 | with at most eight segments None does mean nothing rose |
| Contribution.Diagnose | apps/api/decisionflow/services/investigation.py:161-217 | verdict and sorted dimensions; the verdict's dimension heads the list |
| Contribution.HeadIsBest | apps/api/decisionflow/data/contribution.py:302-315 | whenever anything moved, the head of the stable sort is the dimension best_explanation picks, ties included |
| Contribution.BestIsTheSharpest | apps/api/decisionflow/data/contribution.py:302-315 | the dimension quoted moved, and is the first of those at least as concentrated as every other that did; none is quoted exactly when nothing moved |
| Contribution.DimensionsAreInOrder | apps/api/decisionflow/services/investigation.py:212-217 | the dimensions are listed by falling concentration, none lost |
| Investigation.ChoosePeriods | apps/api/decisionflow/services/investigation.py:108-121 | the newest or the requested period against the latest one before it; each refusal exactly when it applies |
| Investigation.HeadlineIsSegmentsPlusTheRest | apps/api/decisionflow/data/contribution.py:119-213 | the headline change is what the segments moved plus what rows without a segment moved |
| Investigation.BreakdownAddsUpExactlyWhen | apps/api/decisionflow/data/contribution.py:173-213 | the breakdown adds up to the headline exactly when the latter is zero |
| Investigation.BreakdownCanMissTheHeadline | apps/api/decisionflow/data/contribution.py:173-213 | records of two periods on which the headline moved and no segment did |
| RateLimiting.Limiter.Enforce | apps/api/decisionflow/core/ratelimit.py:77-103 | counts, sets the expiry once per window, admits up to the limit, and fails open |
| RateLimiting.Limiter.Reset | apps/api/decisionflow/core/ratelimit.py:106-110 | forgets one key |
| RateLimiting.Limiter.EnforceLogin | apps/api/decisionflow/api/v1/auth.py:60-66 | both login limits in turn; the second is not charged when the first stops the attempt |
| RateLimiting.WindowAdmitsLimit | apps/api/decisionflow/core/ratelimit.py:88-103 | each window admits exactly its first attempts up to the limit |
| RateLimiting.BurstBound | apps/api/decisionflow/core/ratelimit.py:12-14 | any half-open interval of one window length admits at most 2 * limit - 1 counted attempts between resets |
| RateLimiting.ServiceBounds | apps/api/decisionflow/core/ratelimit.py:70-74 | in any five minutes an address gets at most 19 logins through and an account nine; in any hour an address nine registrations and 19 tries at an invitation |
| RateLimiting.RecoversAfterAWindow | apps/api/decisionflow/core/ratelimit.py:88-103 | once a full window has passed since its first hit the next attempt is admitted |
| RateLimiting.BurstBoundIsAttained | apps/api/decisionflow/core/ratelimit.py:12-14 | for every limit, attempts that reach the bound |
| Sorting.SortByIsSorted | apps/api/decisionflow/data/relationships.py:318-328 | the sort that stands for Python's puts elements in order |
| Sorting.SortHead | apps/api/decisionflow/services/investigation.py:212-217 | it is stable where it shows: the head is the earliest of the least elements |
| Sorting.RankPlaces | apps/api/decisionflow/data/contribution.py:274-274 | it puts every element after just those that precede it strictly, or equally and earlier |

## Left out

- Floating point: all arithmetic is over exact reals; ratios rounded to four places are kept as exact ten-thousandths.
- Square roots: `root` is any function with the defining property of one, and the anomaly test compares squares instead.
- Student and normal quantiles are arbitrary positive numbers; the Holt-Winters fit and the logistic regression come from outside.
- SQL text: queries and column expressions are syntax trees with a meaning; rendering and parsing are not modelled.
- DuckDB's `trim`, `lower`, number stripping and TRY_CAST are arbitrary functions.
- Unicode case folding: names, addresses and types are lowered and uppered over ASCII letters.
- Database races: service calls are atomic, so two overlapping rotations of one token, or two owners leaving at the same moment, are outside the model; the unique constraints that catch some of them are not used.
- The access token's own contents, password checks, JWT signatures and the choice of workspace at rotation.
- Several browser tabs on one stored token, a new login in the same tab, and what the user interface does with errors.
- The workspace file's deletion and the loss of the lock's own database connection.
- SQL guard, row-level security, file reading, object storage, the job queue's own scheduling.
- Semantic roles and column types are given; their inference is a ladder of thresholds.
- Numeric and temporal profile statistics, top values, quality scores and issue lists.
- Wording: messages, rationales, orphan notes, the z-score quoted in an anomaly.
- Model calls, prompts, briefings, charts, pages, migrations and settings.
- The ratio and direction that a diagnosis quotes beside its totals, and the cap on how many values a dimension may have.
- Slug generation: whether a free slug was found is a parameter.
- Cleaning.ColumnProfile.FillString: blank counts and top values are not kept, because no plan reads them.
- Cleaning.ProfileColumn: numeric, temporal and distinct-count statistics are not kept, for the same reason.
- Contribution.Diagnose: the totals, ratio and direction quoted beside the verdict are not part of it; which periods they compare is in ChoosePeriods and how they relate to the segments in HeadlineIsSegmentsPlusTheRest.
- RateLimiting.Limiter.Enforce: the store's expiry boundary is taken as gone at the expiry tick.
- Forecasting.ForecastSeries: the seasonal prediction and residuals are inputs, so the choice between trend and smoothing is modelled and the smoothing is not.
- Relationships.Detect: the evidence text of a candidate is not part of it, and table contents are one snapshot for the whole scan.
- Anomalies.AtMostHalfFlagged: it is stated for sensitivities above 1 / 1.4826; below that a point may be flagged inside the MAD.
- WarehouseLocks.Warehouse.TakeLock: PostgreSQL's reordering of a queue to break a deadlock is not modelled; a worker holds one lock at a time, so none arises here.
- StarSchema.HeaderRepeatsExactlyWhen: compares names as strings, so names that differ only in the final newline the validator lets pass count as distinct; NewlineHidesARepeat gives a definition.
