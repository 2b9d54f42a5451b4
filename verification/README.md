# Verified model of the read-only SQL gateway

The gateway lets an agent run one SQL statement at a time against a Django project's database. It
validates the statement's syntax tree, injects a row limit, executes under a read-only role, caps and
audits the result, and guards the whole surface with OAuth clients, access profiles, per-address
throttles and per-role grants. This project models the logic that carries its guarantees, and proves
them for every input, every run or every interleaving.

Check it with `dafny verify dfyconfig.toml` (Dafny 4.11).

## How it is organised

**SQL.** `SqlTree` is the syntax tree, one sort of node as in sqlglot, with the walk that visits every
node under its ancestors. `SqlEval` says what a read-only query computes: CTEs, derived tables, inner
and outer joins, WHERE, GROUP BY, aggregates, HAVING, ORDER BY, DISTINCT, set operations, scalar and
correlated subqueries, `IN`/`EXISTS`-style tests, whole rows, stars and LIMIT; `SqlLaws` says of its
pieces what they mean (a sort is a sorted permutation, an outer join shows every row of its side, and so
on). `SqlRun` says what a server may do with any tree at all: data-modifying CTEs, `SELECT INTO`,
recursive CTEs, row-expanding functions, functions that change the world, keywords that read the
server's identity. `SqlScope` compares the validator's upward CTE resolution with PostgreSQL's.
`SqlValidator` states acceptance over the walk, and runs the checks as loops over linked nodes, proved
to decide it. `SqlReadOnly`, `SqlStable`, `SqlSize` and `SqlGrowth` prove what acceptance buys;
`SqlSafety` puts it together for the statement that is executed; `SqlGaps` holds concrete statements on
which a guarantee fails once its hypothesis is dropped, `SqlGates` what no accepted statement contains
and when exactly the smallest ones are accepted.

**Execution.** `Capping` has the cell and payload caps, `Observability` the audit log with the volume
counters, `Executor` the pipeline that ties validation, limits, database, caps and audit together.

**Protection.** `CacheKeys`, `Throttle` and `ThrottleRace` cover the fixed-window throttles, atomic and
interleaved; `Redirect` the redirect check with percent-decoding (section 2.1 of RFC 3986) and
dot-segment removal (section 5.2.4 of RFC 3986); `Grants` the reconciliation of role grants; `AsgiLoop`
the shared event loop; `Patterns` the settings' regular expressions; `Tokens`, `Profiles` and `Auth` the
life of access: application names, token revocation, profile groups and the gate chain; `Startup` the
settings checks that establish what the rest assumes.

The hypotheses of the theorems are predicates of their own. `Honest` says the deny lists name every
function and keyword that reads or writes more than its arguments. `Sequential` says no CTE body mentions
its own name or a later sibling's as a stored table, and no qualified name coincides with a CTE in scope.
`GrowthSafe` names the whole-row forms the star ban does not look at.

## Where the code and its description differ

The model follows the code. Each point below is a theorem here.

- CTE names: the validator treats a table as a CTE if any enclosing query declares the name, even in the
  CTE's own body, in an earlier sibling, or for a qualified name. PostgreSQL does not, so such a statement
  may read a table nobody listed (`SelfNamedCteEscapes`, `SelfNamedCteLeaks`); `ScopesAgree` says exactly
  when the two scopings coincide.
- The star ban keeps whole rows out of projections, except below COUNT: `COUNT(DISTINCT t.*)` and
  `COUNT(f(t.*))` are accepted and see columns the statement never mentions. So are `NATURAL JOIN` and a
  row alias outside projections, as in `WHERE f(t)` (`NaturalJoinSeesNewColumns`,
  `RowFilterSeesNewColumns`). These are the forms `GrowthSafe` excludes. Being a condition on the text it is
  not necessary for every statement: under a row limit of zero all of them answer alike in all databases
  (`LimitZeroSeesNothing`).
- The cell cap is described as 4 KiB: it tests bytes but cuts characters, so a capped cell may take four
  times that and a cell may even grow.
- The redirect check says it decodes fully; it decodes five layers, and a sixth escapes it
  (`SixthLayerEscapes`). A path has no `..` at any depth exactly if it has none after more layers than it
  has characters (`FlatAtEveryDepth`), and an admitted redirect with such a path is contained at every depth
  (`ContainedAtEveryDepth`). That is not necessary for containment: `y/..` with the `..` under six layers
  climbs no further than it went down (`StaysThoughClimbing`). An admitted redirect is contained at every
  depth exactly if it is at the layers past the fifth where anything is left to decode (`ContainedExactly`).
- Startup validation decodes the path of a prefix client once, the redirect check five times: a validated
  prefix with a `..` under two to five layers admits no redirect at all (`PrefixClientUsable`).
- One threshold of registrations per window holds for requests handled one at a time; with k in flight
  the bound is threshold + k - 1, and it is reached (`BoundReached`).
- A second reconciliation of grants reports no drift exactly when profiles sharing a role declare the
  same tables (`SecondRunReportsNoDrift`); startup validation rules sharing out.

## Model

| member | source | states |
|---|---|---|
| SqlTree.VisitMeetsNodes | parser.py:383-384 | the walk every check uses meets each node of the tree and nothing else |
| SqlScope.WalkIsTopDown | parser.py:576-607 | on every tree, climbing parent links from each table finds exactly the references a top-down pass threading CTE names finds |
| SqlScope.ScopesAgree | parser.py:576-607 | the validator's free references are PostgreSQL's if and only if the statement is sequential; otherwise it overlooks at least one stored table |
| SqlScope.Compare | parser.py:576-607 | the same comparison for any subtree, any names in scope and any extra names the validator sees |
| SqlValidator.FindAll | parser.py:383-384 | the linked nodes mirror the walk: each carries its node and a parent chain that is its ancestors |
| SqlValidator.ResolvesToCte | parser.py:576-607 | the climbing loop returns true exactly when some ancestor query declares the name |
| SqlValidator.ReachesSelect | parser.py:383-406 | the climbing loop reports a star exactly when it meets a SELECT before any COUNT |
| SqlValidator.CheckTable | parser.py:610-659 | one table passes exactly if named, outside system schemas, and a CTE in scope or whitelisted; a failure blames that node; the reported name is its free name |
| SqlValidator.CheckTables | parser.py:610-659 | all tables pass and the collected names are the free names of the walk, or some visited node is to blame |
| SqlValidator.CheckNoSelectStar | parser.py:359-406 | succeeds only if no star escapes to a SELECT, fails only with such a star |
| SqlValidator.CollectTableNames | parser.py:430-436 | the collected aliases are those of all tables of the statement |
| SqlValidator.MentionsName | parser.py:440-451 | a projection is reported exactly if an unqualified column at any depth bears one of the names |
| SqlValidator.ProjectionsAvoid | parser.py:438-456 | a SELECT passes exactly if no projection mentions a row alias |
| SqlValidator.CheckNoWholeRowRefs | parser.py:409-456 | succeeds only if every SELECT's projections avoid all row aliases, fails only with one that does not |
| SqlValidator.CheckNodes | parser.py:459-573 | read-only CTE bodies, no recursion, no INTO, no denied function or keyword: passes only harmless nodes, and a failure blames one |
| SqlValidator.ParseAndValidate | parser.py:163-251 | accepts exactly a single query-shaped statement that meets every condition and serializes, and returns its free names; of the positions of the input exactly one holds the tree returned and every other none; two trees are refused as several statements, none as a parse error, a lone tree that is no query for its root; any other rejection names a visited node at fault |
| SqlValidator.CheckStatement | parser.py:216-235 | the checks in turn over one query decide acceptance, report the free names and blame a node |
| SqlValidator.SoleStatement | parser.py:176-214 | which inputs hold one query, several statements, none or no query, by the positions of their trees |
| SqlGates.AcceptedNodeByNode | parser.py:459-659 | at no depth does an accepted statement name a system table, call a listed or row-expanding function, read a listed keyword, recurse, select into a table or hold a data-modifying CTE |
| SqlGates.TableGate | parser.py:610-659 | SELECT x FROM schema.t is accepted if and only if t is named, whitelisted, in no system schema and, unqualified, without the `pg_` prefix, and x is neither a listed keyword nor under the star ban the name t |
| SqlGates.CallGate | parser.py:459-523 | SELECT f(t.x) FROM t is accepted if and only if f is on no deny list, exact, prefix or row-expanding, and is not typed as row-expanding |
| SqlGates.StarGate | parser.py:359-406 | SELECT t.* and SELECT f(t.*) are accepted if and only if stars are not banned |
| SqlSafety.InjectedLimitCuts | parser.py:254-290 | injecting a limit cuts the unlimited result there whatever LIMIT stood before, and a literal LIMIT is what extraction reads back |
| SqlReadOnly.ReadsQ | parser.py:207-235 | running a harmless tree equals the pure evaluator and returns the world unchanged, through any nesting |
| SqlSafety.ExecutionOnlyReads | parser.py:207-235 | executing an accepted statement changes no table, sequence or anything else, and returns its unlimited answer cut at the injected limit |
| SqlSafety.ReportedCoverReads | parser.py:610-659 | on sequential statements the reported names cover every stored table PostgreSQL reads |
| SqlSafety.ReportedAreAllowed | parser.py:610-659 | the reported names are within the whitelist |
| SqlStable.StableQ | parser.py:359-456 | one simulation: a query's answer is equal on databases that agree on its free tables, or that extend their rows by columns it never mentions |
| SqlSafety.NonInterference | parser.py:576-659 | two worlds that agree on the tables the statement spells out under reported names give an accepted sequential statement the same answer, whatever their other tables, sequences and identity |
| SqlGrowth.TameByWalk | parser.py:359-406 | the ancestor walk over stars and the whole-row check together leave no whole row of a table evaluated outside a plain COUNT |
| SqlGrowth.ColumnGrowthIndependence | parser.py:359-456 | adding unmentioned columns to the tables it reads does not change an accepted statement's answer, given the star ban and no unchecked whole-row form |
| SqlSize.SizeQ | parser.py:459-515 | a query over tables of at most m rows yields at most m to its syntactic weight |
| SqlSize.AcceptedSize | parser.py:551-573 | an accepted statement yields at most m to the power of its weight, and at most the injected limit |
| SqlGaps.SelfNamedCteEscapes | parser.py:597-607 | with an empty whitelist a CTE reading the stored table of its own name is accepted, reports nothing, and is not sequential |
| SqlGaps.SelfNamedCteLeaks | parser.py:597-607 | two databases that differ only in that table give it different answers |
| SqlGaps.StarCountAccepted | parser.py:385-392 | both COUNT forms over whole rows pass every check |
| SqlGaps.CountDistinctSeesNewColumns | parser.py:385-392 | a new column changes COUNT(DISTINCT t.*), which does not mention it |
| SqlGaps.CountOfFunctionSeesNewColumns | parser.py:385-392 | a new column changes COUNT(f(t.*)) for some function f |
| SqlGaps.NaturalAccepted | parser.py:409-456 | a NATURAL JOIN of whitelisted tables passes every check |
| SqlGaps.NaturalJoinSeesNewColumns | parser.py:409-456 | a new column in both tables becomes a join column and changes its answer |
| SqlGaps.FilteredAccepted | parser.py:438-456 | a row alias in WHERE passes every check |
| SqlGaps.RowFilterSeesNewColumns | parser.py:438-456 | a new column changes the answer of SELECT x FROM t WHERE f(t) for some function f |
| SqlGaps.LimitZeroSeesNothing | parser.py:254-290 | with an injected limit of zero any statement answers alike in any two databases, so no condition on the text is necessary for all statements |
| Capping.CapTextExact | executor.py:578-585 | a text cell stays within 4096 bytes exactly if it was; otherwise it is cut at 4096 characters and marked, within 4 * 4096 + 14 bytes |
| Capping.CapTextMayGrow | executor.py:578-585 | a cell of few characters but many bytes is not shortened, only marked |
| Capping.CellExactly | executor.py:578-585 | a capped cell is a scalar or a text within 4096 bytes or at most 4096 characters and the mark; scalars and short texts come through, a composite is capped as its text, a NULL row is NULL |
| Capping.CharBytesExactly | executor.py:578-585 | the length counted for a character is that of every well-formed UTF-8 spelling of it, and there is one |
| Capping.CapRows | executor.py:550-575 | keeps the capped image of the longest prefix that fits, with its exact size; a lone row always fits; the flag says whether rows were dropped |
| Capping.LongestPrefixUnique | executor.py:550-575 | that contract determines the number of rows kept |
| Executor.FetchDecides | executor.py:128-161 | fetching one row more than the effective limit decides whether asked-for rows are missing |
| Executor.TruncationExact | executor.py:273-308 | after both caps the rows are the capped image of a prefix of what was asked for, at most the hard limit, and the flag is true exactly if fewer rows are returned |
| Executor.ServerRespects | executor.py:57-308 | an honest server answers every wrapping of an accepted statement by a prefix of one result and keeps its world |
| Executor.Runner.RunQuery | executor.py:57-308 | for every outcome of parsing, serialization, alias lookup, hook, database and audit write: one audit attempt, log grown by one exactly if written, a row that tells the returned result; exactly when a query is sent, an error raised or rows returned; the LIMIT sent is one more than the smallest of the hard limit and the limits given, or the default when none is; the rows returned are as many as those limits and the byte cap leave room for, with an exact flag; a timeout is reported if and only if the database cancelled the statement; and each refusal has its reason |
| Executor.Runner.RunParsed | executor.py:120-308 | the same for everything after validation |
| Executor.Runner.Fetch | executor.py:215-308 | a database error is classified and returned; of a fetched result the promised rows are returned and logged |
| Executor.FetchedReturns | executor.py:273-308 | what is kept of one row more than the effective limit is what the caller is promised of all rows: the longest part within every limit given, the hard limit and the byte cap, flagged exactly if rows asked for are missing |
| Executor.ClampIsSmallest | executor.py:128-134 | the clamp computes the smallest limit that applies, and asks for rows if and only if every limit given does |
| Observability.AuditKeeps | executor.py:456-500 | an audit attempt keeps counters, window instances and alerts in step with the log |
| Observability.ReachableIsValid | observability.py:49-95 | they are in step in every reachable state |
| Observability.CountersAgreeWithLog | observability.py:42-95 | each live counter equals the rows logged for its user and decision since its window began; each window instance alerts once if it reaches its threshold, else never; the alerts emitted for a key are as many as its instances that did |
| Observability.FixedWindow | observability.py:68-83 | the window a row opens under a wire of its decision's table lasts the wire's length whatever else is audited; its counter is the number of that user's rows of that decision written since; one alert is raised, when that number meets the threshold |
| Observability.WindowEnds | observability.py:71-73 | with no further row the counter is live exactly until the length is over |
| Observability.RowCounted | observability.py:65-83 | a written row counts once under every wire of its decision's table and changes no other key |
| Observability.OnlyConfigured | observability.py:65-71 | in every reachable state a counted key has a window of its decision's table |
| Observability.AuditTrail.CountWire | observability.py:60-95 | seeding, incrementing and alerting in place is the specified transition |
| Observability.AuditTrail.RecordQueryVolume | observability.py:49-95 | the loop over windows counts the row once under each |
| Observability.AuditTrail.AuditSafely | executor.py:456-500 | the state stays sound, one attempt is made, and the row is appended and counted exactly if the write succeeds |
| CacheKeys.IpKeyInjective | throttle.py:42-43 | throttle keys are equal only for equal scope and address |
| CacheKeys.ColonScopesCollide | throttle.py:42-43 | with a colon in the scope they are not |
| CacheKeys.VolumeKeyInjective | observability.py:42-46 | volume keys are equal only for equal decision, window and user |
| CacheKeys.FamiliesDisjoint | observability.py:42-46 | throttle, volume and dedup keys never coincide |
| Throttle.BlockedLeaveNoTrace | throttle.py:46-60 | any run ends in the same counters, windows, warnings and rows as the same run without its blocked requests |
| Throttle.OwnRequestsDecide | throttle.py:42-102 | an address's counter, block and work depend only on the clock and its own attempts in the scope, in every run |
| Throttle.GoodTokensLeaveNoTrace | auth.py:191-208 | any run ends in the same state as the same run without its bearer requests that carry a good token or none |
| Throttle.NoAttemptNoCount | auth.py:200-208 | an address without a failed lookup, or without a registration, has no counter in that scope and is not blocked, in every run |
| Throttle.BurstExact | throttle.py:46-102 | within one window exactly the first threshold attempts of an address get through and are counted, the last of them raises the one warning, and the address is then blocked |
| Throttle.RunKeepsPace | throttle.py:63-102 | window instances hold at most the threshold and start a window apart, in every run |
| Throttle.WholeRunBound | views/registration.py:165-203 | over any span one address does at most threshold * (ceil(span / window) + 1) units of work in a scope |
| Throttle.Gate.IsIpBlocked | throttle.py:46-60 | one read decides the block; a cache outage lets the request through |
| Throttle.Gate.RecordAttempt | throttle.py:63-102 | seed, increment, warn at the crossing, return the new count; nothing on an outage |
| Throttle.Gate.RegisterClient | views/registration.py:165-203 | a row is created exactly if the address is not blocked, and then recorded |
| Throttle.Gate.CheckBearer | auth.py:191-208 | a blocked address resolves no token; only failed lookups that bore a header are recorded |
| ThrottleRace.StepInv | throttle.py:46-102 | counted plus in flight stays within threshold + workers - 1 at every interleaved step |
| ThrottleRace.InterleavedBound | throttle.py:46-102 | in any interleaving one window instance records at most threshold + workers - 1 attempts and warns once or never |
| ThrottleRace.WorkBound | views/registration.py:169-203 | in any interleaving the requests of the first window do at most threshold + workers - 1 units of work |
| ThrottleRace.WindowLasts | throttle.py:63-102 | a window lasts its configured length from the moment it is seeded |
| ThrottleRace.BoundReached | views/registration.py:169-203 | for every threshold and worker count some interleaving does and records that many within the first window |
| Redirect.RedirectUnderPrefix | oauth.py:38-73 | the bounded decoding loop decides exactly: same https origin, no userinfo, no `..` segment at the fifth layer, raw path under the anchored prefix |
| Redirect.ValidateRedirectUri | oauth.py:112-117 | prefix clients are decided by prefix, all others by the stock check |
| Redirect.PlainAdmission | oauth.py:38-73 | a redirect without escapes is admitted if and only if it is https without userinfo, has the same host and the same port up to the https default, continues the prefix at a segment boundary, and no `..` stands alone between its slashes |
| Redirect.EncodedClimbRefused | oauth.py:54-71 | no redirect is admitted with a segment that comes to `..` within five layers of decoding |
| Redirect.SpelledClimbRefused | oauth.py:54-71 | none of the nine spellings of `..` with dots plain or encoded in either case is admitted as a segment |
| Redirect.DecodesAscii | oauth.py:54-58 | decoding gives back ASCII text any part of which was percent-encoded, with digits of either case |
| Redirect.DecodesHighRun | oauth.py:54-58 | a maximal run of encoded bytes above 127 is decoded as one |
| Redirect.DecodesNothingElse | oauth.py:54-58 | every other character, and a percent sign without two hexadecimal digits after it, stays |
| Redirect.FlatMeansNoDotDot | oauth.py:71 | splitting at slashes finds a `..` exactly if one stands alone between slashes or ends |
| Redirect.DecodeSplit | oauth.py:54-58 | percent-decoding acts on the two sides of a slash separately |
| Redirect.DecodeKeepsDotDot | oauth.py:54-71 | a `..` segment survives decoding |
| Redirect.DecodeShortens | oauth.py:54-58 | a decoding that changes the path shortens it |
| Redirect.DecodingSettles | oauth.py:54-58 | so after more layers than characters nothing is left to decode |
| Redirect.NoDotsLeft | oauth.py:54-71 | the dot-segment removal that containment is stated with leaves no `.` or `..` segment in any path |
| Redirect.FlatAtEveryDepth | oauth.py:54-71 | a path has no `..` at any number of layers if and only if it has none after one layer more than it has characters |
| Redirect.RedirectContained | oauth.py:38-73 | an admitted redirect is under the equally decoded prefix after dot-segment removal at each of layers 0 to 5 |
| Redirect.ContainedAtEveryDepth | oauth.py:38-73 | and at every number of layers, if the fully decoded path has no `..` |
| Redirect.ContainedExactly | oauth.py:38-73 | an admitted redirect is contained at every number of layers if and only if it is at the layers from six to one more than its path has characters |
| Redirect.SixthLayerEscapes | oauth.py:54-58 | a `..` under six layers is admitted and leaves the prefix |
| Redirect.StaysThoughClimbing | oauth.py:54-71 | the converse fails: a path below the prefix whose `..` shows at the sixth layer only is admitted and contained at every number of layers |
| Grants.StatementsAreReported | grants.py:107-116 | statements committed equal grants and revokes reported; a check commits none |
| Grants.EachRoleExact | grants.py:279-338 | after a successful strict apply each profile's role holds exactly its declared tables |
| Grants.OtherRolesUntouched | grants.py:279-338 | roles of no profile hold what they held |
| Grants.SettledStays | grants.py:279-338 | with nothing to do no drift is reported and the state stays |
| Grants.NoDriftMeansSettled | grants.py:118-120 | a run without drift found every role exact and changed nothing |
| Grants.SecondRunReportsNoDrift | grants.py:259-276 | the second run reports no drift if and only if profiles sharing a role declare the same tables |
| Grants.ReportIsComplete | grants.py:259-276 | the report has every profile, and a strict success means every role was ready |
| Grants.FailureKeepsTheRest | grants.py:259-276 | a run that raises reconciled the profiles before the failing one as if they were all, and changed nothing else |
| Grants.FailureLeavesLaterRoles | grants.py:259-276 | roles of the failing and later profiles are untouched, earlier ones exact |
| Grants.OneExactly | grants.py:279-338 | one profile, strict or lenient, applied or checked: which error is raised exactly when, what is reported as skipped, granted and revoked, and what the role holds afterwards |
| Grants.DriftIsDifference | grants.py:259-338 | where no other profile shares its role, a profile's report and its role's tables after a run are those of reconciling it alone |
| Grants.Catalog.GrantAll | grants.py:334-335 | the loop succeeds exactly if no GRANT is refused, and then the role holds the tables added |
| Grants.Catalog.RevokeAll | grants.py:336-337 | the loop succeeds exactly if no REVOKE is refused, and then the role holds the rest |
| Grants.Catalog.Correct | grants.py:331-337 | the transaction succeeds exactly if no statement is refused; then the role holds exactly the declared tables, otherwise nothing changed |
| Grants.Catalog.ReconcileProfile | grants.py:279-338 | checks in order, drift per role, then the transaction: the specified effect |
| Grants.Catalog.ReconcileGrants | grants.py:259-276 | the loop over profiles has the specified effect and report, up to the first that raises |
| AsgiLoop.SinglePublishedLoop | views/mcp_endpoint.py:118-172 | in every interleaving at most one loop is published, it had signalled and was not timed out on, and every returned loop is it |
| AsgiLoop.PublishedForGood | views/mcp_endpoint.py:143-172 | once published it never changes and no further loop is started |
| AsgiLoop.LeaksAreTimeouts | views/mcp_endpoint.py:157-171 | loops created exceed timeouts by at most one |
| AsgiLoop.NextKeepsInv | views/mcp_endpoint.py:141-172 | every step of the double-checked start keeps the phase invariant |
| AsgiLoop.LoopHolder.GetAsgiLoop | views/mcp_endpoint.py:141-172 | an undisturbed call has the effect of its run of the threads' machine and returns what that run returns |
| Tokens.AcceptedIsRevocable | consts.py:25-62 | every accepted application name is matched by the logout filter |
| Tokens.AcceptedExactly | consts.py:25-62 | accepted are the canonical name, the ids of declared cloud clients, and the prefix with 22 characters of the URL-safe alphabet |
| Tokens.MintedNamesAccepted | views/registration.py:149 | every name registration mints, whatever its sixteen random bytes, is accepted |
| Tokens.CloudAcceptedIffDeclared | consts.py:45-62 | a cloud id is accepted exactly while declared, or if it is the canonical name |
| Tokens.LogoutRevokesAcceptable | signals.py:80-85 | after a successful revocation, in any run, a token authenticates its user only if issued later |
| Tokens.LostOnlyByLogout | signals.py:80-85 | over any run a token is lost exactly if its user is logged out with a successful deletion and its application has the canonical name or begins with the prefix |
| Tokens.LogoutExactly | signals.py:65-103 | a logout removes exactly the user's tokens of the gateway's applications and logs the user and their number exactly if there were any and the write succeeds |
| Tokens.RemovalShutsOut | consts.py:45-53 | removing a cloud client shuts out its outstanding tokens at once |
| Tokens.EveryTokenAccounted | signals.py:76-103 | with working audit writes every token issued is live or counted in the revocation log |
| Tokens.BuiltDeclares | conf.py:333-359 | the client table's keys are the declared ids, each entry under its own id |
| Tokens.DistinctNamesKept | conf.py:333-359 | with distinct names no entry overwrites another |
| Tokens.Settings.CloudClients | conf.py:333-359 | the cached or freshly built table is that of the present setting |
| Tokens.Settings.IsMcpApplicationName | consts.py:25-62 | decides exactly the canonical, declared and minted names |
| Tokens.TokenTable.RevokeAndAuditOnLogout | signals.py:65-103 | deletes exactly the matching tokens, audits only a non-empty deletion, changes nothing on a failed delete |
| Profiles.ValidateProfiles | validation.py:200-226 | accepts exactly non-empty lists of well-formed profiles with unique non-empty identifiers; a refusal names a fault they have |
| Profiles.ValidExactly | validation.py:200-226 | a list is valid exactly if it is not empty, its entries are in order, and no role, permission or group is empty or serves two profiles |
| Profiles.EntryExactly | validation.py:155-197 | an entry is in order exactly if its role matches the identifier pattern, its permission is none of the model's default four, its hook imports and its models match the reference pattern |
| Profiles.ModelRefMatches | validation.py:97 | model references are the language of their regular expression |
| Profiles.IdentifierMatches | validation.py:107 | roles are the language of theirs |
| Profiles.RegisterFields | validation.py:213-225 | enters the three identifiers exactly if each is non-empty and new |
| Profiles.ResolveCountsProfiles | conf.py:361-393 | with unique codenames a user is bound exactly when one profile's permission is held, ambiguous exactly when several are |
| Profiles.ResolveCountsGroups | conf.py:361-393 | for valid profiles resolution is decided by the number of profile groups |
| Profiles.SharedCodenameHidesTheFirst | conf.py:376-393 | a user holding one codename is bound to the last profile of the list that has it, however many share it |
| Profiles.AnnouncedExactly | signals.py:319-378 | a change announces an ambiguity exactly when it adds a profile group and leaves several |
| Profiles.GainAnnouncedExactly | signals.py:319-378 | a change announces access gained exactly when it puts the user into a further profile group, with the groups the user is then in |
| Profiles.ManyGroupsAnnounced | signals.py:352-378 | a user who ends in several profile groups was announced at a change since which it stayed so |
| Profiles.AmbiguityIsAnnounced | signals.py:352-378 | whenever resolution is ambiguous an alert was raised since the user was last in at most one profile group |
| Profiles.Directory.McpMemberships | signals.py:301-316 | the table gives each user's profile groups |
| Profiles.Directory.AlertMcpGroupGrant | signals.py:319-349 | each user is paged once for the access gained and once more exactly if ambiguous |
| Profiles.Directory.Apply | signals.py:352-378 | a forward or reverse change alerts exactly the users it newly put into a profile group |
| Auth.VerdictDecides | auth.py:210-345 | the chain has one answer, and grants exactly when every gate passes |
| Auth.AnswerExactly | auth.py:210-345 | each answer by the facts: a denial exactly if what is checked before it held and its own condition failed, a grant exactly if all held |
| Auth.GrantedFromOneGroup | auth.py:280-322 | a granted user is in exactly one profile group, that of the granted profile |
| Auth.GrantNeedsFreshToken | auth.py:227-236 | after a successful logout a request is granted only on a token issued later |
| Auth.Authenticator.CheckGates | auth.py:210-345 | answers by the first failing gate, with one row exactly if denied and the write succeeds |
| Auth.Authenticator.Authenticate | auth.py:185-345 | a blocked or unresolved request is anonymous and writes no row; a resolved one gets the chain's verdict; the throttle moves only for bad tokens |
| Startup.ValidateLimits | validation.py:343-357 | accepts exactly positive limits with the default within the hard limit, as the executor assumes |
| Startup.ValidateVolumeAlertThresholds | validation.py:114-138 | accepts exactly known decisions with positive numbers, as the counters assume |
| Startup.ValidateThrottle | validation.py:361-372 | accepts exactly the settings with which the throttle lets some registration through and bounds what any one address gets through at one instant, over all runs |
| Throttle.ThrottlesIffValid | throttle.py:46-102 | a configuration does both exactly if threshold and window are positive: with no threshold nothing passes in any run, with no window any number does |
| Startup.ValidateCloudClients | validation.py:273-322 | accepts exactly unique slug names with sound redirects, and https allowed if there are any |
| Startup.SoundExactly | validation.py:228-270 | a client is sound exactly if its name matches the slug pattern, its redirect is https with a host, no userinfo, no `*` and no segment that decodes to `..`, and a prefix names a path and ends in a slash |
| Startup.ValidatedClientsKept | conf.py:333-359 | each validated client is found under its own id |
| Startup.AdmittedUnderValidatedPrefix | oauth.py:38-73 | a redirect admitted under a validated prefix goes to its host, below its path, at each decoding layer |
| Startup.PrefixClientUsable | validation.py:239-270 | a validated prefix client admits some redirect if and only if its own path has no `..` after the five layers the redirect check decodes |

## Left out

- sqlglot and Python's `urlparse`: the model starts from a tree and from parsed URL parts; a redirect URI that `urlparse` or `.port` rejects is the absent URL.
- Quoted mixed-case identifiers: names are taken as already folded, as the checks do.
- OFFSET, FETCH, locking clauses: accepted statements have none, so the tree has no node for them.
- Window functions, `DISTINCT ON`, `USING`, LATERAL, VALUES, and FILTER or ORDER BY inside an aggregate: not in the tree; other operators and casts are calls.
- Column lists of tables: rows carry their field names, so an empty result has no header, an outer join against an empty side pads nothing, and a set operation with an empty left side keeps the right side's names.
- NATURAL JOIN pairs rows with equal common columns but does not merge them; an unqualified use of one is ambiguous.
- Row-expanding functions nested inside other calls contribute their first value; those standing as projections and FROM items contribute all.
- A LIMIT that mentions columns or aggregates of its own query is an error in PostgreSQL; here it is a fault that does not cut. Any other LIMIT expression is evaluated and run, in nested queries as written and at the root until the injected limit replaces it.
- Executor.Runner.RunQuery: the database is a function of the query sent, so errors of the connection, `SET LOCAL` and role enforcement appear only as a failed query; exceptions the code does not catch are not modelled.
- Message texts, hints, and the order of checks beyond which node is at fault: a rejection is proved to name some node at fault, not the first in the code's order.
- The contents of the deny lists: any sets; `Honest` is the hypothesis that they name what they should.
- JSON sizes, `repr` of exotic values, random client ids, fence ids and the wall clock: parameters.
- Cache outages: only the fail-open branches of the throttle; the counter theorems assume a working cache.
- ThrottleRace.InterleavedBound: one address and scope, whose key no other shares.
- Throttle.Gate.RegisterClient: request parsing, redirect checks and the response body of registration are not modelled; neither is the dedup of the ambiguity warning in authentication.
- Grants.Catalog.ReconcileProfile: lists sorted for display are sets, statements run in some order, and the refusal to run on a wrong default alias is not modelled; view parity is a given fact of the profile.
- AsgiLoop.LoopHolder.GetAsgiLoop: the object shows one undisturbed call; threads in parallel are the machine.
- SqlValidator.FindAll: nodes are linked as the walk proceeds, parents never change afterwards.
- Profiles.AmbiguityIsAnnounced: permissions granted to a user directly, or changes to a group's permissions, raise no alert and are excluded by its hypothesis; so are database errors while alerting.
- Tokens.LogoutRevokesAcceptable: the identifiers APPLICATION_NAME and APPLICATION_NAME_PREFIX do not change during the run; token expiry would only deny more.
- Startup.ValidateLimits: the shape check by pydantic is the precondition; the same holds of the other settings.
- The OAuth flows of django-oauth-toolkit, PKCE, consent, discovery, the MCP bridge, admin, migrations, management commands, templates: plumbing over libraries.
