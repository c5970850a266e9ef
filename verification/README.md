# A verified model of the spend ledger, the contact directory and their guards

This project models, in Dafny, the parts of an agent-marketplace backend where
money, permission and consent are decided, and proves what they are there to
guarantee:

- **Spend ledger**: reserve, settle and release over an account budget and an
  optional campaign budget. `SpendLedger.dfy` gives the abstract ledger and its
  money laws; `SpendSqlite.dfy` is the single-lock backend; `SpendPostgres.dfy`,
  `SpendConcurrency.dfy` and `SpendSerial.dfy` are the row-lock backend as a
  state machine whose steps are single SQL statements, with the theorems over
  every interleaving.
- **Branch tree and permissions**: the tree stored both as parent pointers and
  as materialised paths (`BranchTree.dfy`, `BranchMoves.dfy`,
  `BranchRepository.dfy`), what a slug keeps of its text (`BranchSlugs.dfy`),
  permissions resolved both by walking parents and by
  longest path prefix (`BranchPermissions.dfy`), what a move does to them
  (`PermissionMoves.dfy`), and the contact surfaces bounded by them
  (`ContactListings.dfy`, `ContactsAccess.dfy`).
- **Consent ledgers**: four append-only ledgers read by newest row, and what
  must have happened in a run before an address may be contacted
  (`ConsentLedgers.dfy`, `ConsentRuns.dfy`, `ConsentEffects.dfy`,
  `ConsentRepository.dfy`).
- **Import and review queue**: destinations and their spellings
  (`PhoneAddresses.dfy`), classification at staging and its replay at apply
  (`ContactImport.dfy`, `ImportLedgers.dfy`, `ImportProofs.dfy`,
  `ImportFailures.dfy`, `ImportEffects.dfy`), the review queue (`ProposalSpecs.dfy`,
  `ContactProposals.dfy`) and the importer (`ContactImporter.dfy`).
- **Small machines with time or reordering**: `TwilioEvents.dfy`,
  `RequestAuth.dfy`, `RateLimiter.dfy`.

Tables are maps and sequences held in classes, one SQL statement is one atomic
row operation, and a transaction is one atomic step except in the row-lock
model, where it is a sequence of steps. The row-lock model assumes READ
COMMITTED isolation, that `for update` reads the latest committed row, and that
a duplicate-key insert aborts at once. Generated identifiers, clocks, the
registry's answers, signature verification and text matching are parameters.

Results where the code does less than its documentation says, each with inputs
that show it and the exact condition under which the promise holds:

- The batch's dedupe key is promised to be the stored key by construction, so
  that no row passes the dedupe and is then refused halfway through a batch
  (`libs/contacts_import.py:247-258`). Two things break this. A calling code with
  a character that normalisation drops, such as `1-809`, stages two spellings of
  one number as two new rows (`UnsafeCodeFails`). And an external reference that
  two new rows share, or that an imported contact already carries, meets a unique
  index that staging never looks at (`SharedReferenceFails`), although the schema's
  own comment expects a re-import to update the person. The rows before the
  refused one stay committed; a refused address leaves a contact without one.
  `ApplyFailsExactly` says which files fail, `SafeCodeFailsByReferenceOnly` which
  calling codes leave the references as the only cause.
- A repeat of a collision row is linked by apply, despite the comment at
  `libs/contacts_import.py:718-719` that it waits with its first occurrence;
  `WaitingRowsExactly` says which rows wait.
- A negative estimate passes the single-lock backend and can push an account
  past its ceiling later (`NegativeEstimateBreaksCeiling`); `CeilingsKeptExactly`
  is the exact condition. The schema's CHECK constraints stop it, and a negative
  ceiling or actual, in the other backend: `BackendsAgree` states exactly when
  the two part.
- Concurrent deliveries of one reserve are charged once, but the later one may
  raise although the serial ledger accepts it (`RedeliveryRaisesFromEmpty`);
  `FinishedCallsAreSerialExactly` is the exact condition, in every interleaving.
- Conflicting terminal delivery statuses settle on whichever came first
  (`ConflictingTerminalsKeepTheFirst`, exact by `OrderIrrelevantExactly`).
- A request stamped ahead of the verifier can be accepted twice;
  `AheadTimestampsReplay` says exactly which requests, and
  `ReplayedExactlyInTheWindow` exactly when.

## Model

| member | source | states |
|---|---|---|
| `SpendModel.SetCeilingMeans` | libs/spend_ledger.py:49-56 | The budget's ceiling becomes the one given, up or down; its reserved and settled amounts stay, or start at nothing; every other budget and reservation is unchanged |
| `SpendModel.ReserveMeans` | libs/spend_ledger.py:58-106 | A known id replays its row for the same amount and refuses another; a new one is charged to account and named campaign exactly when both have room, with the first lack as the refusal; nothing else moves |
| `SpendModel.SettleMeans` | libs/spend_ledger.py:108-146 | The reserved amount leaves its counters, the actual one enters theirs, the row keeps both; replays and the two refusals change nothing |
| `SpendModel.ReleaseMeans` | libs/spend_ledger.py:148-176 | A reserved amount is given back once; any other release is a no and changes nothing |
| `SpendModel.ApplyConserves` | libs/spend_ledger.py:49-176 | Each call keeps every budget's reserved and settled counters equal to the sums over the reservations still reserved and settled against it |
| `SpendModel.RunConserves` | libs/spend_ledger.py:49-176 | Conservation after every sequence of calls from the empty ledger |
| `SpendModel.RowsEvolve` | libs/spend_ledger.py:58-176 | Over any run a reservation is never dropped, keeps its campaign, channel and amount, and once settled or released never changes again |
| `SpendModel.RedeliveryChangesNothing` | libs/spend_ledger.py:58-176 | A successful reserve, settle or release delivered again after any further calls leaves the ledger exactly as it is and is answered from the stored row |
| `SpendModel.BudgetsOf` | libs/spend_ledger.py:74-76 | The budgets a reservation draws on: the account first, then the campaign when one is named |
| `SpendModel.Admission` | libs/spend_ledger.py:77-87 | An estimate is admitted exactly when every budget it draws on exists and has room for it; otherwise the refusal is a ceiling refusal |
| `SpendModel.ReserveStaysWithinCeiling` | libs/spend_ledger.py:58-106 | A fresh reserve leaves each budget it draws on within its ceiling, whatever the ledger was before |
| `SpendModel.CeilingsKeptExactly` | libs/spend_ledger.py:49-176 | From within the ceilings, a call ends within them if and only if the lowered ceiling, the actual or the released estimate fits |
| `SpendModel.ModestRunsStayWithinCeilings` | libs/spend_ledger.py:49-176 | reserved + settled <= ceiling throughout every run with non-negative estimates, actuals within estimates and ceilings never set below use |
| `SpendModel.NegativeEstimateBreaksCeiling` | libs/spend_ledger.py:58-106 | For every ceiling and every negative estimate, four calls end above a ceiling that every reserve respected |
| `SqliteSpendLedger.SpendLedger.SetCeiling` | libs/spend_ledger.py:49-56 | The upsert writes the ceiling given, keeps the counters of an existing budget, touches no other row, and equals the abstract call |
| `SqliteSpendLedger.SpendLedger.Reserve` | libs/spend_ledger.py:58-106 | Replay lookup, budget-by-budget checks and the update loop have the abstract effect and reply |
| `SqliteSpendLedger.SpendLedger.AdjustEach` | libs/spend_ledger.py:88-93 | The update loop moves exactly the named budgets, each by both amounts |
| `SqliteSpendLedger.SpendLedger.Settle` | libs/spend_ledger.py:108-146 | The same for settle, with its replay and its two refusals |
| `SqliteSpendLedger.SpendLedger.Release` | libs/spend_ledger.py:148-176 | The same for release |
| `PostgresSpendLedger.StepKeepsInv` | libs/spend_ledger.py:226-394 | Every statement of every transaction keeps conservation of the committed ledger, lock ownership, and that what a transaction has read and drafted is still current |
| `PostgresSpendLedger.CommitIsApply` | libs/spend_ledger.py:241-394 | A commit publishes exactly what the abstract call does to the ledger committed at that moment, with its reply |
| `PostgresSpendLedger.RunKeepsInv` | libs/spend_ledger.py:226-394 | The invariant, conservation included, in every reachable state of every interleaving |
| `SpendConcurrency.CommittedLedgerIsSerial` | libs/spend_ledger.py:226-394 | In every interleaving the committed ledger is the abstract ledger run over the calls in commit order |
| `SpendConcurrency.NeverChargedTwice` | libs/spend_ledger.py:241-394 | In any interleaving no reservation id is charged by two committed reserves, nor settled or released by two committed calls |
| `SpendConcurrency.InsertsNeverMeet` | libs/spend_ledger.py:262-300 | Two transactions never both hold a pending insert of the same reservation id: the account lock keeps them apart |
| `SpendConcurrency.CommittedReserveStaysWithinCeiling` | libs/spend_ledger.py:241-300 | When a reserve commits, every budget it draws on is within its ceiling with all other committed reservations counted in |
| `SpendConcurrency.ModestSchedulesStayWithinCeilings` | libs/spend_ledger.py:226-394 | The ceiling bound of modest runs holds in every interleaving whose commit log is modest |
| `SpendConcurrency.AcceptedRepliesAreSerial` | libs/spend_ledger.py:241-394 | Every answer that is not an exception is the serial answer at the moment it is given, and the ledger moves as the serial call moves it |
| `SpendConcurrency.WaitsAboveWhatItHolds` | libs/spend_ledger.py:258-300 | A transaction only waits for a row that comes later in the lock order than every row it holds |
| `SpendConcurrency.SomeoneCanStep` | libs/spend_ledger.py:226-394 | Following who waits for whom ends at a transaction that can step |
| `SpendConcurrency.DeadlockFree` | libs/spend_ledger.py:226-394 | In every reachable state with unfinished transactions one of them can step |
| `SpendConcurrency.NoLivelock` | libs/spend_ledger.py:226-394 | No schedule of steps is longer than the work outstanding at its start |
| `SpendConcurrency.CanDrain` | libs/spend_ledger.py:226-394 | From every reachable state all transactions in flight can be finished |
| `SpendSerial.ReservedCovers` | libs/spend_ledger.py:302-394 | A budget's reserved counter covers each reservation still held against it |
| `SpendSerial.MovedPassesChecks` | libs/spend_ledger.py:302-394 | So no CHECK constraint fires while a call that passes them writes its budgets |
| `SpendSerial.AloneAgreesWithSerial` | libs/spend_ledger.py:226-394 | A transaction left alone finishes, and moves the ledger and replies as the abstract call (up to which ceiling reason is named) if and only if the CHECK constraints let it through; otherwise it raises and changes nothing |
| `SpendSerial.BackendsAgree` | libs/spend_ledger.py:49-394 | After any completed history the next call has, on the row-lock backend, the effect and reply of the single-lock ledger run over the same history, if and only if what that ledger would write passes the CHECK constraints |
| `SpendSerial.FinishedCallsAreSerialExactly` | libs/spend_ledger.py:226-394 | In every interleaving a finished call, returned or raised, has the serial effect and reply if and only if it passes the CHECK constraints and is not a reserve whose id another delivery committed after its first read |
| `SpendSerial.NegativeEstimateNeverCommits` | migrations/0023_spend.sql:12-20 | No interleaving commits a reservation with a negative amount |
| `SpendSerial.ConcurrentRedeliveryMayRaise` | libs/spend_ledger.py:241-300 | From any state where two deliveries of a reserve that takes all that is left overlap, one can be charged and the other raise |
| `SpendSerial.RedeliveryRaisesFromEmpty` | libs/spend_ledger.py:241-300 | For every tenant and positive ceiling a schedule from the empty ledger ends so, although the serial ledger accepts the call before and after |
| `SpendAmounts.RoundHalfEven` | libs/spend_ledger.py:460-461 | The nearest whole micro, the even one at a tie |
| `SpendAmounts.RoundingIsDetermined` | libs/spend_ledger.py:460-461 | Only one integer meets that description |
| `SpendAmounts.MicrosIsMonotone` | libs/spend_ledger.py:460-461 | An actual no larger than its estimate is no larger in micros |
| `SpendAmounts.OneUnitIsAMillion` | libs/spend_ledger.py:460-461 | One unit more is a million micros more, wherever the rounding falls |
| `SpendAmounts.ReportedRoundTrips` | libs/spend_ledger.py:460-471 | Sending back a reported amount names exactly the stored micros |
| `BranchTree.Slugify` | libs/contacts_repository.py:250-253 | A slug is non-empty, made of `a-z`, `0-9` and `-`, with no hyphen at either end; what it keeps of the text is `BranchSlugs.SlugKeepsWords` |
| `BranchSlugs.SlugKeepsWords` | libs/contacts_repository.py:250-253 | The slug has exactly the text's `a-z0-9` characters in order, adjacent where they were adjacent and otherwise one hyphen apart; without any it is "branch" |
| `BranchSlugs.TidyTextIsItsSlug` | libs/contacts_repository.py:250-253 | Word runs joined by single hyphens are their own slug |
| `BranchTree.SlugifyIsIdempotent` | libs/contacts_repository.py:250-253 | A slug slugifies to itself |
| `BranchTree.OneStepDown` | libs/contacts_repository.py:1199-1200 | A child's path lies under a path exactly when its parent's path is that path or lies under it |
| `BranchTree.PrefixScanIsDescendants` | libs/contacts_repository.py:1138-1144 | The path-prefix scan finds exactly the parent-pointer descendants |
| `BranchTree.BelowIsClimbing` | libs/contacts_repository.py:387-404 | Being a descendant is reaching the ancestor by some positive number of parent steps |
| `BranchTree.ValidIsAcyclic` | libs/contacts_repository.py:301-347 | A tree with consistent rows has no parent cycle |
| `BranchTree.RootsAreOrganizations` | libs/contacts_repository.py:1207-1216 | A branch has no parent exactly when it is an organization, and exactly when its depth is 0 |
| `BranchTree.PrefixesAreBranches` | libs/contacts_repository.py:356-365 | Every proper path prefix ending at a separator is the path of an ancestor |
| `BranchMoves.CreateMeans` | libs/contacts_repository.py:301-347 | The refusals of a create in order, and the one row an accepted create writes, field by field |
| `BranchMoves.MoveMeans` | libs/contacts_repository.py:418-455 | A move is refused, in this order, for a missing branch, a target at or below the branch, a kind that may not stand there, some branch of the subtree reaching depth 128, or a held path, and only then |
| `BranchMoves.MoveWrites` | libs/contacts_repository.py:456-484 | An accepted move changes one parent pointer, keeps every kind and slug, leaves every row outside the subtree alone and keeps the tree sound |
| `BranchMoves.CreateKeepsValid` | libs/contacts_repository.py:301-347 | An accepted create keeps path = parent path + "/" + slug, depth, placement and unique paths |
| `BranchMoves.CyclicExactly` | libs/contacts_repository.py:433-444 | The cyclic-move refusal fires exactly on re-parentings that would form a cycle |
| `BranchMoves.PathsDiverge` | libs/contacts_repository.py:418-485 | If the moved branch's new path is free, no path can extend both its old and its new path |
| `BranchMoves.RewrittenMissesOthers` | libs/contacts_repository.py:456-484 | No rewritten path equals the current path of any other branch, moved or not |
| `BranchMoves.NoRewriteStepCollides` | libs/contacts_repository.py:456-484 | After any subset of the descendant rewrites all paths are still distinct |
| `BranchMoves.MoveKeepsValid` | libs/contacts_repository.py:418-485 | An accepted move keeps every tree invariant, depth bound included |
| `BranchMoves.MoveKeepsSubtree` | libs/contacts_repository.py:418-485 | A move changes one parent pointer, leaves rows outside the subtree alone and carries exactly the same subtree along |
| `BranchMoves.ReachableTreesAreValid` | libs/contacts_repository.py:301-485 | Every tree reached by creates and moves is acyclic with consistent paths, depths below 128 and organizations exactly as roots |
| `BranchRepository.AncestryIsAbove` | libs/contacts_repository.py:387-404 | The ancestor chain lists exactly the branches above, ordered by depth from the root |
| `BranchRepository.ContactsRepository.CreateBranch` | libs/contacts_repository.py:301-347 | The checks in order and the insert equal the specified create, refusals included |
| `BranchRepository.ContactsRepository.Ancestors` | libs/contacts_repository.py:387-404 | The parent-chasing loop returns the ancestor chain |
| `BranchRepository.ContactsRepository.UpdateRow` | migrations/0017_contacts.sql:69-70 | A row update is refused exactly when another row holds its path |
| `BranchRepository.ContactsRepository.Deepest` | libs/contacts_repository.py:1203-1204 | The greatest depth below the moved branch, 0 when it has no descendants |
| `BranchRepository.ContactsRepository.CheckMove` | libs/contacts_repository.py:418-455 | The guards of a move in the order they refuse |
| `BranchRepository.ContactsRepository.MoveBranch` | libs/contacts_repository.py:418-485 | The row-by-row move ends in the specified tree or refuses with nothing changed |
| `BranchRepository.ContactsRepository.RewriteDescendants` | libs/contacts_repository.py:472-484 | The rewrite loop, in any row order, completes the move and never meets the unique index |
| `BranchRepository.ContactsRepository.RewriteOne` | libs/contacts_repository.py:472-484 | One row update adds one branch to the part already moved |
| `BranchRepository.RewriteIsFree` | libs/contacts_repository.py:472-484 | The path each rewrite writes is free at the moment it is written |
| `BranchRepository.DepthGuard` | libs/contacts_repository.py:449-455 | The depth guard refuses exactly the moves that would push some branch to depth 128 or more |
| `BranchPermissions.HoldsExactly` | libs/contacts_permissions.py:489-529 | A principal holds a dimension on a branch if and only if some branch at or above it carries a grant of that dimension to that principal, with no row of theirs for it strictly below on the way |
| `BranchPermissions.OtherRowsDoNotMatter` | libs/contacts_permissions.py:505-529 | Writing or removing a row of another principal or another dimension changes no answer |
| `BranchPermissions.ChainWalkIsNearest` | libs/contacts_permissions.py:489-529 | The last decision met while walking the chain from the root is the nearest one at or above the branch |
| `BranchPermissions.LongestIsNearest` | libs/contacts_permissions.py:541-576 | The decided ancestor with the longest path carries the nearest decision |
| `BranchPermissions.LongestPathIsNearest` | libs/contacts_permissions.py:616-626 | Longest-prefix resolution over paths equals nearest-ancestor resolution over parents, absence included |
| `BranchPermissions.NearestDecision` | libs/contacts_permissions.py:616-626 | The loop returns the effect of the longest covering path, or none when none covers |
| `BranchPermissions.Expand` | libs/contacts_permissions.py:541-576 | The candidates are exactly the branches at or below a decided one, and decisions are filed by path |
| `BranchPermissions.BranchPermissionsRepository.Decide` | libs/contacts_permissions.py:405-472 | Who may decide, and that the one row for branch, principal and dimension is replaced |
| `BranchPermissions.BranchPermissionsRepository.Revoke` | libs/contacts_permissions.py:384-403 | Removes exactly that row and says whether there was one |
| `BranchPermissions.BranchPermissionsRepository.Effective` | libs/contacts_permissions.py:489-529 | Each dimension's answer is whether the principal holds it on the branch |
| `BranchPermissions.BranchPermissionsRepository.LastOn` | libs/contacts_permissions.py:505-529 | The loop over a chain keeps the last decision met |
| `BranchPermissions.BranchPermissionsRepository.AuthorizedBranches` | libs/contacts_permissions.py:541-576 | A branch is listed exactly when the principal holds the dimension on it: the same predicate `Effective` answers |
| `PermissionMoves.MoveLeavesOutsideAlone` | libs/contacts_repository.py:418-485 | A move changes no nearest decision outside the moved subtree |
| `PermissionMoves.MoveReinherits` | libs/contacts_repository.py:418-485 | Inside it, the nearest decision up to the moved branch, or else the new parent's |
| `PermissionMoves.MoveAndEffective` | libs/contacts_permissions.py:489-529 | The same two facts of the effective answer for every principal and dimension |
| `ContactsAccess.Access.Search` | libs/contacts_permissions.py:665-679 | The first matching active contacts in view branches, by their positions in the table and in its order, up to the limit |
| `ContactsAccess.Access.Members` | libs/contacts_permissions.py:681-690 | All the listed contacts in view branches, in table order, and nobody else |
| `ContactsAccess.Access.ResolveSegment` | libs/contacts_permissions.py:691-698 | In view branches, of the first 200 contacts in the segment's range exactly those that meet its other terms; refused exactly when the root lies outside the scope branch |
| `ContactsAccess.Access.ResolveWithin` | libs/contacts_repository.py:1030-1087 | The same inside any bound: range and bound intersected, the first 200 by position, then the rule |
| `ContactsAccess.Access.AudiencePreview` | libs/contacts_permissions.py:702-840 | One entry per member of the named audience in campaign-use branches, in order, excluded exactly as the consent ledgers decide for their address, named only in view branches, and an exclusion histogram that sums to total minus eligible |
| `ContactsAccess.Access.AudienceMembers` | libs/contacts_permissions.py:783-817 | Inside the targetable branches: all of a list, a segment's rows, or the first active contacts at or below a branch, by position up to the limit |
| `ContactsAccess.Access.ResolvedMeans` | libs/contacts_repository.py:1030-1087 | What a segment lists, by positions in the table |
| `ContactsAccess.Access.ExclusionMeans` | libs/contacts_permissions.py:832-840 | Eligible exactly when there is an address on the channel and the ledgers, if attached, find it eligible; otherwise which of the two failed and why |
| `ContactListings.FoundIsFirst` | libs/contacts_repository.py:600-639 | A bounded search returns the first rows of the table, in its order and up to the limit, with the status, the match and a branch in the bound |
| `ContactsAccess.Destination` | libs/contacts_permissions.py:819-830 | The first primary address on the channel, else the first on it, none only when the channel has none |
| `ContactsAccess.Access.DestinationOf` | libs/contacts_permissions.py:819-830 | The loop finds that address |
| `ContactsAccess.Access.ExclusionReason` | libs/contacts_permissions.py:832-840 | No address, or the reason the four ledgers give for it; nothing when eligible |
| `ContactsAccess.Access.Project` | libs/contacts_permissions.py:728-769 | One entry per member with its own exclusion, and counters that tally them |
| `ContactsAccess.TalliedExcluded` | libs/contacts_permissions.py:765-769 | Counting one more exclusion keeps the histogram the exact tally of reasons |
| `ConsentLedgers.LatestIsNewest` | libs/contacts_consent.py:1222-1242 | The reading is the kept row newer than all others by (recorded_at, ledger_sequence), absent only when none is kept |
| `ConsentRepository.Newest` | libs/contacts_consent.py:1222-1242 | One pass over a ledger finds the kept row newer than all other kept rows, or that none is kept |
| `ConsentLedgers.LatestReads` | libs/contacts_consent.py:1222-1242 | A state read off the newest kept row is determined: there is only one such row |
| `ConsentRepository.ReadingsOf` | libs/contacts_consent.py:893-918 | The four states read off the rows are the readings a decision is made of |
| `ConsentLedgers.CompleteMeans` | libs/contacts_consent.py:257-276 | Evidence has no missing field exactly when each required field is present and the box was not pre-ticked, or proven unticked on a form |
| `ConsentLedgers.PurposesReachedBy` | libs/contacts_consent.py:369-378 | A withdrawal reaches exactly the purposes in its program, topic, or all of them |
| `ConsentEffects.OptOutMeans` | libs/contacts_consent.py:351-378 | An opt-out withdraws its own purpose while nothing wider is configured, its topic or everything where that is configured, and everything from 31 January 2027 on; the other purposes read as before |
| `ConsentEffects.StopMeans` | libs/contacts_consent.py:528-599 | A STOP withdraws every purpose, suppresses and blocks exactly the senders it covers, and leaves usability alone |
| `ConsentEffects.StopBodyMeans` | libs/contacts_consent.py:553-585 | The message is kept on the STOP's rows with its end at the time to live, if there is a message |
| `ConsentEffects.PurgeMeans` | libs/contacts_consent.py:979-998 | A purge takes a body exactly when it is there, its end has come and it was not purged before |
| `ConsentEffects.SuppressionMeans` | libs/contacts_consent.py:651-744 | A suppression or lift is in force on its sender alone, or on every sender when it names none |
| `ConsentEffects.RestartMeans` | libs/contacts_consent.py:846-892 | A restart reopens its sender alone, or every sender when it names none |
| `ConsentEffects.UsabilityMeans` | libs/contacts_consent.py:748-842 | Proposing, activating and retiring read back as such |
| `ConsentEffects.ConsentMeans` | libs/contacts_consent.py:411-483 | A grant or a claim decides its own purpose and no other, a grant until its expiry |
| `ConsentEffects.RowsMean` | libs/contacts_consent.py:411-871 | Every row is about its write's address, channel and time, and names who wrote or decided it |
| `ConsentEffects.PermissiveWritesMean` | libs/contacts_consent.py:411-450 | Grants, activations and lifts are accepted exactly from named humans with the authority, over an address on file and, for a grant, with nothing missing; and which authority is filed |
| `ConsentEffects.OpenWritesMean` | libs/contacts_consent.py:452-526 | The restrictive and inert writes are open to anyone over an address on file |
| `ConsentEffects.MissingMeans` | libs/contacts_consent.py:257-276 | Which fields a refusal for evidence names |
| `ConsentEffects.DecisionMeans` | libs/contacts_consent.py:920-964 | Each reason is given exactly in its own state of the four readings |
| `ConsentRuns.RunExtends` | libs/contacts_consent.py:405-999 | No run of writes loses or alters a row, message bodies aside |
| `ConsentRuns.RunIsBacked` | libs/contacts_consent.py:411-822 | Every permissive row of every run was made by a write of that run with the required human authority |
| `ConsentRuns.EligibleIsAuthorized` | libs/contacts_consent.py:920-964 | Eligible implies a named, authorized human's activation that is the newest usability row of the address, such a human's live grant on complete evidence, and an administrator's newer lift over every in-scope suppression |
| `ConsentRuns.EligibleEarlierToo` | libs/contacts_consent.py:601-638 | With the ledgers fixed, eligible at a time means eligible at every earlier time |
| `ConsentRuns.EligibleAfterStop` | libs/contacts_consent.py:528-599 | Eligible after an inbound STOP, in any run, implies a newer grant for the purpose and, on a sender the STOP covered, a newer administrator lift and a newer provider restart in scope |
| `ConsentRuns.RestartTouchesNoAxis` | libs/contacts_consent.py:846-871 | A provider restart changes no consent, suppression or usability reading |
| `ConsentRuns.PurgeTouchesOnlyDueRows` | libs/contacts_consent.py:968-999 | A purge changes due rows only, and only their body and stamp |
| `ConsentRuns.PurgeChangesNoDecision` | libs/contacts_consent.py:968-999 | No decision or reason depends on whether bodies were purged |
| `ConsentRuns.PurgeIsIdempotent` | libs/contacts_consent.py:968-999 | Rerun at the same or an earlier time, a purge finds nothing |
| `ConsentRuns.OptOutTouchesConsentOnly` | libs/contacts_consent.py:485-526 | An opt-out leaves usability, suppression and reachability readings alone |
| `ConsentRuns.OptOutReachesExactly` | libs/contacts_consent.py:485-526 | Purposes in the resolved scope read withdrawn unless a later-dated row stands; the others read as before |
| `ConsentRepository.ContactsConsentRepository.GrantConsent` | libs/contacts_consent.py:411-450 | Refusals in order, the schema's refusal of an unnamed decider included, and one granted row otherwise |
| `ConsentRepository.ContactsConsentRepository.ProposeConsent` | libs/contacts_consent.py:452-483 | One pending row, whoever asks |
| `ConsentRepository.ContactsConsentRepository.RecordOptOut` | libs/contacts_consent.py:485-526 | One withdrawal per purpose reached |
| `ConsentRepository.ContactsConsentRepository.RecordInboundOptOut` | libs/contacts_consent.py:528-599 | Every purpose withdrawn, a suppression and a provider block, in one transaction |
| `ConsentRepository.ContactsConsentRepository.Suppress` | libs/contacts_consent.py:651-681 | A restrictive row by anyone; not a way to unsuppress |
| `ConsentRepository.ContactsConsentRepository.LiftSuppression` | libs/contacts_consent.py:683-717 | Named human administrators only |
| `ConsentRepository.ContactsConsentRepository.ProposeAddress` | libs/contacts_consent.py:748-774 | One proposed row, whoever asks |
| `ConsentRepository.ContactsConsentRepository.ActivateAddress` | libs/contacts_consent.py:776-800 | Named, authorized humans only |
| `ConsentRepository.ContactsConsentRepository.RetireAddress` | libs/contacts_consent.py:802-822 | A retired row by anyone |
| `ConsentRepository.ContactsConsentRepository.RecordProviderRestart` | libs/contacts_consent.py:846-871 | One reachable row and nothing else |
| `ConsentRepository.ContactsConsentRepository.PurgeExpiredContent` | libs/contacts_consent.py:968-999 | The update loop redacts exactly the due rows and reports them |
| `ConsentRepository.ContactsConsentRepository.ConsentState` | libs/contacts_consent.py:601-638 | Unknown when no row is kept for address, channel and purpose; otherwise the state of the row newer than all others kept, a grant past its expiry reading expired |
| `ConsentRepository.ContactsConsentRepository.SuppressionState` | libs/contacts_consent.py:719-744 | Unsuppressed when no row is in scope of the sender; otherwise the state of the row newer than all others in scope |
| `ConsentRepository.ContactsConsentRepository.UsabilityState` | libs/contacts_consent.py:824-842 | Proposed when the address has no row; otherwise the state of the row newer than all its others |
| `ConsentRepository.ContactsConsentRepository.ProviderReachability` | libs/contacts_consent.py:873-892 | Reachable when no row is in scope of the sender; otherwise the state of the row newer than all others in scope |
| `ConsentRepository.ContactsConsentRepository.EvaluateEligibility` | libs/contacts_consent.py:920-964 | The first axis that says no, in order, and eligible exactly when none does |
| `PhoneAddresses.NormalizedEmailIsFixed` | libs/contacts_repository.py:256-272 | A normalised e-mail normalises to itself |
| `PhoneAddresses.DedupeKeyIsStoredKey` | libs/contacts_import.py:247-265 | A non-empty canonical phone is its own stored key if and only if a calling code that went into it has only digits and plus signs |
| `PhoneAddresses.CanonicalIsFixed` | libs/contacts_import.py:202-265 | A canonical phone with a digit is a fixed point of canonicalisation and normalisation if and only if a calling code that went into it has only digits |
| `PhoneAddresses.BareTrunkIsNotFixed` | libs/contacts_import.py:202-244 | The bare input "00" is the exception |
| `PhoneAddresses.SpellingsAgree` | libs/contacts_import.py:202-244 | The "+", "00" and national spellings of one number agree, with any separators, exactly when the national one is not read as international already (clause 6 of ITU-T E.164) |
| `PhoneAddresses.AmbiguousPrefix` | libs/contacts_import.py:235-244 | A number that begins with the code's digits is read as international exactly when seven or more digits follow |
| `PhoneAddresses.NeedsCodeExactly` | libs/contacts_import.py:219-234 | The batch's code is asked for exactly when there are digits, no plus, no "00" in front, and no code |
| `PhoneAddresses.EmailIgnoresCase` | libs/contacts_repository.py:256-272 | E-mail spellings that differ in ASCII case alone have one key |
| `PhoneAddresses.StripMeans` | libs/contacts_repository.py:256-272 | Stripping takes the blanks off both ends and nothing else |
| `ContactImport.OneKey` | libs/contacts_repository.py:256-272 | Two destinations are one exactly on one channel with one normalised address |
| `PhoneAddresses.NormalizeStrips` | libs/contacts_repository.py:256-272 | Trimming typed text does not change what it is looked up by |
| `ImportEffects.PreparedMeans` | libs/contacts_import.py:457-527 | The errors of a row in the order they are raised, and what an accepted row carries on |
| `ContactImport.PreparedIsSound` | libs/contacts_import.py:457-527 | An accepted row has an address to look up, and a claim only with purposes and complete evidence |
| `ContactImport.First` | libs/contacts_import.py:549-560 | The earliest row of the file with the same destination |
| `ImportEffects.ClassifiedMeans` | libs/contacts_import.py:529-572 | New means first in the file and held by nobody, duplicate a repeat or held inside the target's subtree, collision held outside it; and whom and which row it is matched with |
| `ImportEffects.CountMeans` | libs/contacts_import.py:390-392 | A batch's counts are numbers of rows |
| `ImportLedgers.OthersUndisturbed` | libs/contacts_consent.py:920-964 | A write about one address changes no decision or reason of another |
| `ImportLedgers.RunLeavesOthers` | libs/contacts_import.py:757-804 | The same of every run of writes about one address |
| `ImportLedgers.IntroductionRows` | libs/contacts_import.py:757-804 | An imported address gains one usability row, active with evidence and proposed without, and one grant per claimed purpose |
| `ImportLedgers.IntroducedEligibility` | libs/contacts_import.py:757-804 | Right after its introduction an address is eligible for exactly the purposes its row claimed, on any sender, until the evidence expires |
| `ImportLedgers.GrantedReading` | libs/contacts_consent.py:601-638 | Grants dated no earlier than the rows on file decide the purposes they name, and leave the others' readings alone |
| `ImportProofs.ApplyReplaysStaging` | libs/contacts_import.py:676-755 | A staged file applied to the unchanged directory to the end: created, linked and deferred equal the new, duplicate and collision counts, distinct new rows get distinct contacts, one each, and every repeat of a new row settles on its first occurrence's contact |
| `ImportProofs.WaitingRowsExactly` | libs/contacts_import.py:697-730 | After that apply a row still waits if and only if it is the first of its destination and someone outside the target holds it; every other row is applied, a repeat of a collision on whoever holds the destination |
| `ImportProofs.ImportedEligibility` | libs/contacts_import.py:676-804 | After that apply each new address is eligible for exactly what its row proved, and no other address's decision has moved |
| `ImportEffects.ApplyFilesContacts` | libs/contacts_import.py:757-804 | Whatever rows are applied, each contact made is in the target branch and holds its destination's key |
| `ImportEffects.NewRowsAreReached` | libs/contacts_import.py:676-804 | After a finished apply a new row's destination looks up the contact made for it, which was not there before |
| `ImportFailures.ApplyFailsExactly` | libs/contacts_import.py:676-755 | That apply is refused partway if and only if two new rows share a stored key or an external reference, or a new row's reference is already held |
| `ImportFailures.SafeCodeFailsByReferenceOnly` | libs/contacts_import.py:202-265 | With a calling code that normalisation keeps whole, or that holds an inner plus sign, an accepted file fails if and only if a new row's reference is held already or carried by an earlier new row |
| `ImportFailures.SharedReferenceFails` | migrations/0017_contacts.sql:205-207 | Two people under one reference, at any two free destinations, make a file that fails |
| `ImportFailures.UnsafeCodeFails` | libs/contacts_import.py:202-265 | With any other code, the two spellings of any national number make an accepted file that fails |
| `ProposalSpecs.AnswerMeans` | libs/contacts_proposals.py:328-369 | The refusals of an approval in order, a pending claim with no purposes named among them, and when there is none |
| `ProposalSpecs.ApprovedEligibility` | libs/contacts_proposals.py:328-369 | After an approval an address is eligible for a purpose exactly when unrestricted and the purpose was named, while its evidence lives, or was granted already |
| `ProposalSpecs.RefusalGrantsNothing` | libs/contacts_proposals.py:328-369 | A refused approval, even one that had already activated the address, changes no consent reading |
| `ProposalSpecs.ProposingChangesNoDecision` | libs/contacts_proposals.py:152-206 | A proposal by anyone changes no address's eligibility decision or reason |
| `ProposalSpecs.ProposalIsOnFile` | libs/contacts_proposals.py:152-206 | A raised proposal is a new person in the named branch, reachable at an address that reads proposed |
| `ProposalSpecs.ProposingTwice` | libs/contacts_proposals.py:152-206 | The same destination proposed again, in any spelling, returns the waiting proposal and adds nothing |
| `ProposalSpecs.RejectionRetires` | libs/contacts_proposals.py:371-380 | A rejected address is retired for every purpose and sender |
| `ContactProposals.AddressCaptureBook.Capture` | libs/contacts_proposals.py:104-119 | A capture is kept per tenant and looks up as the typed text would |
| `ContactProposals.AddressCaptureBook.Redeem` | libs/contacts_proposals.py:121-130 | Answers exactly the same tenant's references, and what it returns can be looked up under the key it was captured with |
| `ContactProposals.ProposalQueue.AddAddress` | libs/contacts_repository.py:643-692 | Refuses an empty or already held address and otherwise adds exactly one |
| `ContactProposals.ProposalQueue.CreateContact` | libs/contacts_repository.py:489-529 | One new contact in the branch, unless an imported contact already carries its external reference |
| `ContactProposals.ProposalQueue.ContactByAddress` | libs/contacts_repository.py:723-750 | Every spelling with the same stored key reaches the same contact on file, and nobody exactly when the key is empty or not held |
| `ContactProposals.ProposalQueue.PendingConsent` | libs/contacts_proposals.py:399-409 | Exactly the purposes whose reading is pending |
| `ContactProposals.ProposalQueue.GrantEach` | libs/contacts_proposals.py:359-363 | One grant per purpose, or none when the evidence is incomplete |
| `ContactProposals.ProposalQueue.Approve` | libs/contacts_proposals.py:328-369 | Checks in order, activation, then one grant per purpose: the specified answer and writes, the schema's refusal of an unnamed decider included |
| `ContactProposals.ProposalQueue.ProposeContact` | libs/contacts_proposals.py:152-206 | Redeems, checks the channel, then answers from the directory or creates a proposed contact |
| `ContactProposals.ProposalQueue.Reject` | libs/contacts_proposals.py:371-380 | One retirement of the address |
| `ContactImporter.EvidenceSurvivesStaging` | libs/contacts_import.py:1335-1362 | The claim rebuilt from the staged columns is the staged claim, with no field missing that was not, and the same disclosure hash |
| `ContactImporter.ContactImporter.Prepare` | libs/contacts_import.py:457-527 | Every row prepared, or the number and error of the first bad one |
| `ContactImporter.ContactImporter.Classify` | libs/contacts_import.py:529-572 | The loop with its seen map classifies each row as a fresh comparison against the whole file, the directory and the target's subtree would |
| `ContactImporter.ContactImporter.CountKinds` | libs/contacts_import.py:390-392 | The three counts a batch is stored with |
| `ContactImporter.ContactImporter.Stage` | libs/contacts_import.py:371-455 | With effective edit on the target, a file is staged whole with its three counts, or the first bad row is named; the directory is untouched |
| `ContactImporter.ContactImporter.Materialize` | libs/contacts_import.py:757-804 | One contact and address, approved with its evidence or left proposed; a held reference stops it with nothing written, a held address leaves the contact behind |
| `ContactImporter.ContactImporter.Apply` | libs/contacts_import.py:676-755 | The gates in order, effective edit on the target among them, then the replay: directory, rows, counters and batch state, also when an insert is refused partway |
| `ContactImporter.ContactImporter.ApplyEach` | libs/contacts_import.py:697-742 | The row loop with its produced map equals the specified replay, stopping where the directory refuses an insert |
| `ContactImporter.ContactImporter.SettleRow` | libs/contacts_import.py:867-886 | One row's state, contact and address are written; everything else stays |
| `ContactImporter.FailureStays` | libs/contacts_import.py:697-742 | After a refusal the rest of the file is not looked at |
| `ContactImporter.ContactImporter.DecideRow` | libs/contacts_import.py:806-851 | A waiting row is linked with effective edit where the match lives, or rejected; nothing is created |
| `ContactImporter.HoldersAreNamed` | libs/contacts_permissions.py:489-529 | An actor holds something on a branch exactly when named and the name holds it, so no decided batch is anonymous |
| `ContactImporter.ContactImporter.Permits` | libs/contacts_permissions.py:531-540 | The effective edit answer for the actor on a branch |
| `ContactImporter.ContactImporter.Scope` | libs/contacts_import.py:543-550 | The branches at or below the target; none when it is missing |
| `ContactImporter.RowAnswer` | libs/contacts_import.py:806-851 | A row is settled exactly when it waits, an authorized human decides, by name for a rejection, and a link has a match and edit authority there |
| `TwilioEvents.RanksMean` | libs/twilio_events.py:9-18 | The ranks of the statuses, and exactly which are final |
| `TwilioEvents.AdvanceMeans` | libs/twilio_events.py:82-107 | A first status stands, a later one replaces a running one unless it lies behind, and of the final ones only delivered moves on, to read |
| `TwilioEvents.RecordedMeans` | libs/twilio_events.py:56-80 | Only a fresh event with an effect and a status moves a verdict, and only that effect's |
| `TwilioEvents.VerdictsNeverRegress` | libs/twilio_events.py:82-107 | Over every run rank never falls and a terminal verdict changes only from delivered to read |
| `TwilioEvents.RunSettles` | libs/twilio_events.py:56-107 | The verdict a set of distinct events settles on |
| `TwilioEvents.OrderAndDuplicationDoNotMatter` | libs/twilio_events.py:9-107 | When terminals agree, runs over the same event keys end in the same status, or the same rank if none is terminal |
| `TwilioEvents.ConflictingTerminalsKeepTheFirst` | libs/twilio_events.py:82-107 | Any set of events with conflicting terminals has two orders that end in different verdicts |
| `TwilioEvents.OrderIrrelevantExactly` | libs/twilio_events.py:9-107 | The outcome depends on the set of events alone if and only if their terminal statuses agree |
| `TwilioEvents.TwilioEventRepository.Record` | libs/twilio_events.py:56-80 | Insert-or-ignore by key; only a fresh insert advances the verdict |
| `TwilioEvents.TwilioEventRepository.AdvanceVerdict` | libs/twilio_events.py:82-107 | The stored verdict becomes the specified one |
| `RequestAuth.NonceCache.CheckAndAdd` | libs/signing.py:315-350 | Evicts what is older than the window, then accepts exactly nonces not remembered |
| `RequestAuth.NonceCache.Evict` | libs/signing.py:330-336 | The eviction loop removes exactly the nonces older than the window |
| `RequestAuth.AcceptanceIsRemembered` | libs/signing.py:315-350 | After any run an accepted nonce is still remembered or its acceptance is more than a window old |
| `RequestAuth.RequestAuthenticator.Authenticate` | libs/request_auth.py:150-218 | The first step that refuses, in order, or acceptance; and what the caches hold afterwards |
| `RequestAuth.RequestAuthenticator.ResolvePublicKey` | libs/request_auth.py:222-239 | A cached key within its TTL, or the registry's answer, remembered only if it is a key |
| `RequestAuth.AcceptedExactly` | libs/request_auth.py:150-218 | In any run a call is accepted if and only if every check passes and no call with its nonce was accepted within the last skew |
| `RequestAuth.RefusalsMean` | libs/request_auth.py:150-218 | Each refusal is raised exactly when its own step fails and all before it passed |
| `RequestAuth.TimestampMeans` | libs/signing.py:302-312 | A timestamp may lie behind the verifier or ahead of it by the skew at most |
| `RequestAuth.CacheMeans` | libs/request_auth.py:222-239 | A key comes from the cache exactly while younger than the TTL; only a well-formed call's positive answer goes in |
| `RequestAuth.AcceptancesAreFarApart` | libs/request_auth.py:150-218 | Any two acceptances of one nonce are more than the skew apart |
| `RequestAuth.AcceptedAtMostOnce` | libs/signing.py:302-350 | In any run a request accepted when its timestamp is not ahead of the verifier, or whose session ends within one skew, is never accepted again |
| `RequestAuth.AheadTimestampsReplay` | libs/signing.py:302-350 | After any run, a request just accepted can be accepted again if and only if its timestamp is ahead of the verifier and its session outlives one skew |
| `RequestAuth.ReplaysFallInTheWindow` | libs/signing.py:302-350 | In any run a second acceptance comes more than one skew after the first, at most one skew after the timestamp and before the session expires |
| `RequestAuth.ReplayedExactlyInTheWindow` | libs/signing.py:302-350 | Presented again at any later time with its key resolving as before, the request passes exactly inside that window |
| `RequestAuth.Verdict` | libs/request_auth.py:150-218 | Acceptance exactly when every check passes |
| `RequestAuth.CachedKeysWereResolved` | libs/request_auth.py:222-239 | Every cached key is what the registry answered for that principal at its stamped time |
| `RequestAuth.KeysAreYoungerThanTtl` | libs/request_auth.py:222-239 | Every key a call is judged against was resolved less than the TTL earlier |
| `RateLimiter.Limiter.Allow` | common/ratelimit.py:43-63 | The answer and the new buckets of one request |
| `RateLimiter.Limiter.Prune` | common/ratelimit.py:65-73 | Removes exactly the buckets whose window is over |
| `RateLimiter.PruningOnlyForgets` | common/ratelimit.py:65-73 | Over every run the pruned map lacks only buckets whose window is over |
| `RateLimiter.PruningChangesNoAnswer` | common/ratelimit.py:43-73 | With a clock that never runs back the limiter answers as one that never evicts |
| `RateLimiter.AtMostTwiceTheCap` | common/ratelimit.py:43-63 | Every half-open interval of one window length admits at most twice the cap per key |
| `RateLimiter.RefusedOnlyAtTheCap` | common/ratelimit.py:43-63 | A request is refused only when the cap was used up by requests admitted within the last window |

## Left out

- HTTP servers and clients, the vault, registry, identity, reputation, audit, hiring and runner storage: plumbing or single statements that would only add easy members.
- Cryptography: signature and session verification are a predicate of the request and the key; the disclosure hash is any function.
- Row-level security and tenant binding: the ledger keys every row by tenant, the contacts model is one tenant.
- `meter_brand_volume` and the cost estimators of the spend ledger.
- Integer and decimal width: micros are unbounded integers and amounts exact reals.
- Timestamp columns (created, updated, retention floors and their CHECK against content expiry), and display columns of contacts and branches, including the owner that a move does not rewrite.
- `propose_update`, `pending`, the import review listing, the contact directory screens, masking and CSV reading.
- BranchTree.Slugify: does not model lower-casing, because that of arbitrary Unicode text is left to the caller; the text comes in lower-cased.
- Case folding, Unicode digits and `LIKE` wildcards: text matching is a parameter, slugs start from lower-cased text.
- Order of listings that the source sorts for display: sets, or table order.
- ContactsAccess.Access.ResolveSegment: does not state that everyone who meets the rule is listed, because the search stops at 200 rows before the rule is applied.
- ContactProposals.AddressCaptureBook.Redeem: does not state single redemption, because a redeemed capture is not removed.
- ContactsAccess.Access.Members: one method stands for list_members and tagged_contacts, which differ in the table the ids come from.
- SpendSerial.BackendsAgree: does not state equal refusal reasons, because the backends check availability and exhaustion in different orders.
- SpendConcurrency.AcceptedRepliesAreSerial: says nothing of exceptions, because `SpendSerial.FinishedCallsAreSerialExactly` does.
