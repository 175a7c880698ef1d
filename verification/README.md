# Verified model of the edulution-ui API services

This project models the stateful parts of the API of edulution-ui and proves what they keep,
in Dafny. `dafny verify dfyconfig.toml` verifies all of it.

Remote systems are values here: an LDAP directory is a map of DNs to members, Keycloak a set
of memberships and a map of groups, a collection a map keyed by its unique index, a disk a map
of paths. Services that change state are classes with the same fields; a method is one stretch
of code between two `await`s, and its contract ties the new state to a specification function
of the old one. Interleavings are runs of such stretches in any order, with any number of
callers. The lemmas are about all runs.

| file | what it models |
|---|---|
| `LdapNames`, `LdapMembers` | DN parsing; the recursive member expansion with one shared `visited` set and a map of group names that grows meanwhile |
| `LdapResolver` | name resolution with positive and negative caches shared by concurrent calls |
| `LdapUpdates` | merging edits per user, deduplication, the requests in any completion order |
| `LdapSync`, `LdapEndToEnd` | the per-group tasks, convergence, idempotence, stale groups; all parts put together |
| `GroupRefresh`, `SingleFlight` | batched retries, flattening; the flags of the refresh and of the synchronisation |
| `TldrawRooms`, `TldrawSnapshots` | the promise lock per room, loading, the periodic saver; contents and saves on their way to the database |
| `SurveyAttachments` | mark, move and sweep of survey files |
| `Notifications` | notifications and recipient rows: creation, rollback, upsert, deletes, expiry, clean-up |
| `MailIdle` | IMAP IDLE connections, reconnect chains and timers |
| `AppPositions`, `AccessGuard` | ordered app positions; the access map and the decisions both guards keep in one cache |
| `BulletinTokens` | the two token rewriters as scanners |
| `TempFiles` | recursive removal of old temporary files |

## Where the code does less than one would expect

The code is modelled as it is. Each of these has a lemma that shows the failure and, where it
can be said, one that gives the exact condition under which the expectation holds.

- Differences are computed against the cached memberships, and the cache is written before the
  edits are applied, so an edit that fails is never repaired: `LdapSync.LostEditsAreNotRepaired`;
  exact condition in `LdapSync.ConvergesIffNoRequestFails`.
- Other tasks add group names to the map that an expansion reads, so its result, and whether the
  next synchronisation is quiet, can depend on timing: `LdapEndToEnd.SecondSyncOfUnchangedDirectoryEdits`,
  exact in `LdapMembers.OrderMattersIff` for the names and in `LdapEndToEnd.SameMembersIff` and
  `LdapEndToEnd.SecondSyncIsQuietIff` for the accounts.
- The merge drops a group that is both added and removed for a user:
  `LdapUpdates.MergedEqualsRawIffNoConflict`. A synchronisation produces such a pair exactly for
  a renamed account (`LdapSync.EditsConflictIffRenamed`), and there dropping both is right
  (`LdapSync.RenameConflicts`).
- Members are compared by username, so an account made anew under its old name is not noticed:
  `LdapSync.RecreatedAccountIsMissed`, exact in `LdapSync.ReachedIffNamesTellAccounts`.
- A group with an admin name goes with a stale group above it: `LdapSync.AdminSubgroupGoes`, exact
  in `LdapSync.SyncSweepsExactlyTheStale`.
- The synchronisation tests its flag one `await` before it sets it:
  `SingleFlight.TwoSyncsAndAThird`, exact in `SingleFlight.SingleWithoutOverlap` and
  `SingleFlight.OverlapRunsTwice`.
- The negative keys ignore case: `LdapResolver.MissInOtherCaseHidesUser`, exact for two calls in
  `LdapResolver.PairIsRightIff` and for a whole directory of the linuxmuster target in
  `LdapResolver.PairsAreRightIff`.
- A whiteboard reopened before the saver ran loses its unsaved changes
  (`TldrawRooms.ReopeningLosesAChange`, exact in
  `TldrawRooms.TickSavesAllIffNeverReopenedTooEarly`), and one reopened before a save has reached
  the database can overwrite it (`TldrawSnapshots.SlowSaveIsOverwritten`, exact in
  `TldrawSnapshots.InstallCanLoseIffStale`).
- Saves of one whiteboard can overtake each other: `TldrawSnapshots.OlderSaveIsStoredLast`, exact in
  `TldrawSnapshots.EveryOrderStoresAllIff`.
- An element without attachments deletes the folder of a like-named element with some:
  `SurveyAttachments.CleanIffLateResetsAreHarmless`, `SurveyAttachments.KeptIffNoClash` and
  `SurveyAttachments.SecondQuietIffNoClash` say exactly what that costs.
- Recipients whose documents a bulk write refuses are only logged:
  `Notifications.RefusedRecipientIsNotReported`, `Notifications.RefusedUpdateIsNotReported`, exact in
  `Notifications.UpsertLeavesExactlyTheUsers`.
- A push whose stamp fails is not remembered, so the next update pushes again at once:
  `Notifications.UnstampedPushIsRepeated`; between stamped pushes there are thirty minutes
  (`Notifications.PushesAreApart`).
- A token is inserted as a replacement pattern, so dollar signs in it are expanded:
  `BulletinTokens.RoundTripIffRecoverable`.
- A position out of range leaves gaps: `AppPositions.UpdateKeepsDenseIff`,
  `AppPositions.InsertKeepsDenseIff`.
- The key of an access decision joins user and domain with a separator that both may contain:
  `AccessGuard.ColonInDomainConfusesUsers`, exact in `AccessGuard.TransparentIffKeysApart`.
- A refresh of the access map that is overtaken by a later one leaves the older map:
  `AccessGuard.OvertakenRefreshLeavesOldMap`, exact in `AccessGuard.MapIsCurrentIff`.
- Deleting by source id ignores the source type: `Notifications.CascadeRemovesAllIffUnique`.
- A reconnect scheduled after the user came back replaces a working connection, and a displaced
  connection leaves its restart timer armed: `MailIdle.LateReconnectHappens`, exact in
  `MailIdle.RestartsExactIff`.
- A connection overwritten by a second one of its user is not silenced, and its close ends the
  second one: `MailIdle.OverwriteHappens`, exact in `MailIdle.SilentIffNotOverwritten`.

## Model

| member | source | states |
|---|---|---|
| `LdapNames.ExtractCn` | libs/src/ldapKeycloakSync/utils/ldap-utils.ts:57-60 | a name is found exactly when the DN begins with CN= in any of its four spellings and something other than a comma follows; it is not empty and ends at the first comma or at the end |
| `LdapNames.GroupPath` | libs/src/ldapKeycloakSync/utils/ldap-utils.ts:62-67 | a DN has a group path exactly if it has a CN; without one `parseGroupDn` throws |
| `LdapNames.SamePathIffSameFirstComponent` | libs/src/ldapKeycloakSync/utils/ldap-utils.ts:62-67 | two DNs share a path exactly if their first components are the same text: what follows the comma is lost, so distinct DNs can share a Keycloak path |
| `LdapMembers.FetchMembersUnderLearning` | apps/api/src/ldap-keycloak-sync/ldap-keycloak-sync.service.ts:612-649 | for every finite graph, cycles and shared subgroups included, every order in which searches answer and whatever group names other tasks add to the shared map meanwhile: a finished expansion has visited every group reachable with the names known at the start and none that is unreachable with those known at the end, has searched each once, and returns exactly the persons listed in the visited groups, as often as listed, except that a name learned meanwhile may be missing |
| `LdapMembers.FetchMembersIsReachability` | apps/api/src/ldap-keycloak-sync/ldap-keycloak-sync.service.ts:612-649 | when no name learned meanwhile is listed in a reachable group: exactly the reachable groups are visited, each searched once, and the result is, as a multiset, exactly the persons listed in them |
| `LdapMembers.OrderDoesNotMatter` | apps/api/src/ldap-keycloak-sync/ldap-keycloak-sync.service.ts:634-648 | then two expansions return the same multiset whatever the order of answers and of learning, although inner calls return partial results |
| `LdapMembers.OrderMattersIff` | apps/api/src/ldap-keycloak-sync/ldap-keycloak-sync.service.ts:634-648 | while names are being learned, all expansions return the same names if and only if no name to be learned is listed in a group reachable without it |
| `LdapMembers.EveryRunIsBounded` | apps/api/src/ldap-keycloak-sync/ldap-keycloak-sync.service.ts:618-625 | termination: in no order do more searches answer than there are DNs in the directory |
| `LdapMembers.AnswerCounts` | apps/api/src/ldap-keycloak-sync/ldap-keycloak-sync.service.ts:634-645 | answering one search turns exactly one waiting call into its parts; nothing is lost or counted twice |
| `LdapMembers.StepInv` | apps/api/src/ldap-keycloak-sync/ldap-keycloak-sync.service.ts:612-649 | every stretch, and every name learned, keeps: a visited group either waits once or has been expanded once, everything visited is reachable, the children of expanded groups are visited, and the names found are bounded by those listed |
| `LdapMembers.Expansion.constructor` | apps/api/src/ldap-keycloak-sync/ldap-keycloak-sync.service.ts:612-623 | a call starts with its own DN visited and one search running |
| `LdapMembers.Expansion.Resume` | apps/api/src/ldap-keycloak-sync/ldap-keycloak-sync.service.ts:625-645 | the stretch that follows one answer changes the shared `visited` set and the tree of calls as the step of the model does |
| `LdapMembers.Expansion.GroupsFound` | apps/api/src/ldap-keycloak-sync/ldap-keycloak-sync.service.ts:600 | another task adds names to the map that the expansion reads; the map is the shared group cache (line 185) |
| `LdapMembers.FetchMembers` | apps/api/src/ldap-keycloak-sync/ldap-keycloak-sync.service.ts:612-649 | the whole expansion under any scheduler, with any names added before each answer, ends; visited groups lie between those reachable with the first and with the last names, and the persons are those listed in them |
| `LdapResolver.KeysAreApart` | libs/src/ldapKeycloakSync/utils/ldap-utils.ts:69-70 | the negative keys of exact names and of base names never collide |
| `LdapResolver.UncheckedKeepsFirstHit` | libs/src/ldapKeycloakSync/utils/ldap-utils.ts:72-91 | leaving out the candidates known to be missing does not change which candidate is hit first |
| `LdapResolver.AnswerInOrder` | apps/api/src/ldap-keycloak-sync/ldap-keycloak-sync.service.ts:651-730 | what a name comes to, told from the searches: the first exact hit; without one, for the targets that probe candidates, the user of the first candidate that has one; a name that finds no user is a group exactly if some group found carries it, and missing otherwise |
| `LdapResolver.FullNameFindsTheFirstSoCalled` | apps/api/src/ldap-keycloak-sync/ldap-keycloak-sync.service.ts:690-706 | a spaced name found neither exactly nor by a candidate comes to the first user of the search whose Latin first name is its first word and whose Latin last name is its last word, in lower case, and to no user exactly when there is none |
| `LdapResolver.NoWordsNoFullName` | apps/api/src/ldap-keycloak-sync/ldap-keycloak-sync.service.ts:690-706 | a name whose first or last word is empty is not searched for in full |
| `LdapResolver.BaseGivesExactOrNumbered` | apps/api/src/ldap-keycloak-sync/ldap-keycloak-sync.service.ts:769-786 | a candidate gives the first exact hit, and without one the first hit that is the candidate with a number |
| `LdapResolver.NumberedUserMatches` | apps/api/src/ldap-keycloak-sync/ldap-keycloak-sync.service.ts:769-786 | the numbered user is the first hit whose username matches the base |
| `LdapResolver.GroupFoundHasTheName` | apps/api/src/ldap-keycloak-sync/ldap-keycloak-sync.service.ts:708-729 | the group found is the first one that carries exactly the name asked for |
| `LdapResolver.NothingIsSearchedTwice` | apps/api/src/ldap-keycloak-sync/ldap-keycloak-sync.service.ts:651-730 | after any stretch: an answer it returned is in the caches, for a user also under the own username; a name or candidate it missed is not searched for in that way again, in whatever letter case |
| `LdapResolver.KnownNamesNeedNoSearch` | apps/api/src/ldap-keycloak-sync/ldap-keycloak-sync.service.ts:831-845 | a member whose name is cached, or that of a known user, is settled in one stretch without a search |
| `LdapResolver.ContinueOk` | apps/api/src/ldap-keycloak-sync/ldap-keycloak-sync.service.ts:651-730 | every stretch of every call, for every deployment target, writes only what the directory would answer and keeps the call on the way to the answer that empty caches would give |
| `LdapResolver.ResolveMembersIsFresh` | apps/api/src/ldap-keycloak-sync/ldap-keycloak-sync.service.ts:824-860 | whatever sound caches a batch starts from, however its tasks interleave and whatever other batches add meanwhile, it returns as a multiset the users that resolving every name with empty caches gives, and leaves sound caches |
| `LdapResolver.OtherCallsAreEvents` | apps/api/src/ldap-keycloak-sync/ldap-keycloak-sync.service.ts:651-730 | what a stretch of another call does to the caches meanwhile is one of the events these runs allow |
| `LdapResolver.EveryStretchGetsNearer` | apps/api/src/ldap-keycloak-sync/ldap-keycloak-sync.service.ts:651-730 | every call ends, whatever others do to the caches in between |
| `LdapResolver.PairIsRightIff` | apps/api/src/ldap-keycloak-sync/ldap-keycloak-sync.service.ts:651-730 | for every deployment target and all names: a call that follows another one from empty caches gives what it gives alone if and only if the name of the user that the first has found finds that user, or, for a name the first has not entered, the search that leaves out what the first has missed finds the same |
| `LdapResolver.PairsAreRightIff` | apps/api/src/ldap-keycloak-sync/ldap-keycloak-sync.service.ts:651-730 | for the linuxmuster target and all names: all such calls are right if and only if the name a found user carries finds that user, and a name that finds nobody hides, in another letter case, only users that the search for the full name finds as well |
| `LdapResolver.MissInOtherCaseHidesUser` | libs/src/ldapKeycloakSync/utils/ldap-utils.ts:69-70 | for every target: when two names differ in letter case only, the first finds nobody and the second somebody by an exact search alone, a look-up of the first hides the user of the second |
| `LdapResolver.EveryBatchCanFinish` | apps/api/src/ldap-keycloak-sync/ldap-keycloak-sync.service.ts:824-860 | every batch can be brought to its end |
| `LdapResolver.CaseSensitiveDirectoryIsMisread` | libs/src/ldapKeycloakSync/utils/ldap-utils.ts:69-70 | an instance: after a failed look-up of ADA the existing user ada counts as missing |
| `LdapResolver.Resolver.StartSync` | apps/api/src/ldap-keycloak-sync/ldap-keycloak-sync.service.ts:161-185 | a synchronisation empties the negative cache and replaces the group cache by the groups the list names; caches that were right stay right exactly if none of those names is a user or nothing |
| `LdapResolver.Resolver.BeginCall` | apps/api/src/ldap-keycloak-sync/ldap-keycloak-sync.service.ts:652-657 | the beginning of a call looks at users, then groups, then the negative key |
| `LdapResolver.Resolver.ContinueCall` | apps/api/src/ldap-keycloak-sync/ldap-keycloak-sync.service.ts:659-729 | one stretch in place: caches and continuation become those of the specification, whose answers `AnswerInOrder` and `FullNameFindsTheFirstSoCalled` tell |
| `LdapResolver.Resolver.MemberTask` | apps/api/src/ldap-keycloak-sync/ldap-keycloak-sync.service.ts:831-856 | one stretch of a member task, with the push of a resolved user |
| `LdapUpdates.MergeMeaning` | apps/api/src/ldap-keycloak-sync/ldap-keycloak-sync.service.ts:733-740 | the merged entry of a user holds a group on its add side exactly if some raw update adds it, and on its remove side exactly if some removes it |
| `LdapUpdates.BatchMeaning` | libs/src/ldapKeycloakSync/utils/ldap-utils.ts:93-100 | after the deduplication a request to add is issued exactly for a pair that is added and not removed, and the other way round: a group on both lists is dropped from both |
| `LdapUpdates.IssuedMeaning` | apps/api/src/ldap-keycloak-sync/ldap-keycloak-sync.service.ts:756-767 | an addition is requested exactly for a pair that is added and not removed; a removal exactly for one that is removed and not added when every uncontradicted addition of that user succeeds |
| `LdapUpdates.OrderIndependent` | apps/api/src/ldap-keycloak-sync/ldap-keycloak-sync.service.ts:742-753 | with duplicates and in any completion order, with any set of failing requests, the resulting membership of a pair depends only on which requests were sent and succeeded |
| `LdapUpdates.AppliedMeaning` | apps/api/src/ldap-keycloak-sync/ldap-keycloak-sync.service.ts:732-767 | the membership of every pair after the batches, for every completion order and every set of failures, told from the raw list and the failures; a failing addition leaves the removals of that user, and of no other, unsent |
| `LdapUpdates.MergedEqualsRaw` | apps/api/src/ldap-keycloak-sync/ldap-keycloak-sync.service.ts:732-754 | for a raw list in which no pair is both added and removed, the merged batches give the same memberships as the raw list applied one by one |
| `LdapUpdates.MergedEqualsRawIffNoConflict` | apps/api/src/ldap-keycloak-sync/ldap-keycloak-sync.service.ts:732-754 | merging preserves the meaning of the raw list for all memberships to start from if and only if no pair is both added and removed |
| `LdapUpdates.EditSets.DedupeAddRemove` | libs/src/ldapKeycloakSync/utils/ldap-utils.ts:93-100 | removes from both sets exactly the ids that are in both, while the first one is iterated |
| `LdapUpdates.MergeByUser` | apps/api/src/ldap-keycloak-sync/ldap-keycloak-sync.service.ts:733-740 | the loop builds the merged map |
| `LdapUpdates.PrepareBatches` | apps/api/src/ldap-keycloak-sync/ldap-keycloak-sync.service.ts:742-751 | per user a deduplicated batch; users with nothing left get none |
| `LdapUpdates.Keycloak.SendAll` | apps/api/src/groups/groups.service.ts:468-496 | all requests of one kind are sent; failures are collected |
| `LdapUpdates.Keycloak.ApplyUpdatesDeduped` | apps/api/src/ldap-keycloak-sync/ldap-keycloak-sync.service.ts:732-767 | the requests sent are a completion order of the batches, and the memberships are those of the specification |
| `LdapSync.EditsMeaning` | apps/api/src/ldap-keycloak-sync/ldap-keycloak-sync.service.ts:221-251 | the comparison is by username and the edits are by id: the edits of a group add exactly the ids wanted under a name that is not cached and remove exactly those cached under a name that is not wanted; a renamed account is on both lists |
| `LdapSync.PairedEdits` | apps/api/src/ldap-keycloak-sync/ldap-keycloak-sync.service.ts:221-251 | for ids and usernames that pair one to one these are exactly the missing and the unwanted accounts |
| `LdapSync.NoEditsIffSame` | apps/api/src/ldap-keycloak-sync/ldap-keycloak-sync.service.ts:227-231 | there are no edits exactly when both lists hold the same usernames |
| `LdapSync.CompareTouches` | apps/api/src/ldap-keycloak-sync/ldap-keycloak-sync.service.ts:227-251 | recording one group's difference leaves the edits of every other group as they were |
| `LdapSync.StepInv` | apps/api/src/ldap-keycloak-sync/ldap-keycloak-sync.service.ts:207-256 | every stretch of every group task keeps the invariant of all groups, whatever accounts are renamed: not begun means untouched, done means difference recorded and cache as it is left |
| `LdapSync.EditsConflictIffRenamed` | apps/api/src/ldap-keycloak-sync/ldap-keycloak-sync.service.ts:207-256 | at every moment of every interleaving the edits contradict each other if and only if, in some group compared so far, an id is carried by a wanted user whose name is not cached and by a cached user whose name is not wanted |
| `LdapSync.RenameConflicts` | libs/src/ldapKeycloakSync/utils/ldap-utils.ts:93-100 | the input: an account renamed since the cache was written is added and removed; applied one by one the edits would end its membership, while the deduplicated batches leave it as it is |
| `LdapSync.DoneMeaning` | apps/api/src/ldap-keycloak-sync/ldap-keycloak-sync.service.ts:208-255 | a finished task has recorded exactly the difference of its group, and the cache holds the resolved members without blank ones, or what it held when no username differs |
| `LdapSync.UnknownGroupFails` | apps/api/src/ldap-keycloak-sync/ldap-keycloak-sync.service.ts:588-610 | a group that Keycloak holds and the cache does not know fails the synchronisation, whatever the other tasks do |
| `LdapSync.ReachedIffNamesTellAccounts` | apps/api/src/ldap-keycloak-sync/ldap-keycloak-sync.service.ts:207-264 | in every interleaving and completion order, when the cached memberships matched Keycloak and every change succeeds: a finished synchronisation has given every LDAP group exactly its resolved members if and only if, in every group, an account wanted under cached names only is cached under wanted names only, and one cached under wanted names only is wanted |
| `LdapSync.ConvergesIffChangesSucceed` | apps/api/src/ldap-keycloak-sync/ldap-keycloak-sync.service.ts:207-264 | where that holds, accounts renamed or not: every group is reached if and only if every request that would change something is sent and succeeds; the cache is as it should be either way and no other group changes |
| `LdapSync.ConvergesIffNoRequestFails` | apps/api/src/ldap-keycloak-sync/ldap-keycloak-sync.service.ts:207-264 | when equal usernames have equal ids and an id has one username in each list, accounts renamed in between or not: every group is reached if and only if no request of the batches fails |
| `LdapSync.RecreatedAccountIsMissed` | apps/api/src/ldap-keycloak-sync/ldap-keycloak-sync.service.ts:224-228 | an account deleted and made anew under its old username has a new id; there is no edit, and it is not added |
| `LdapSync.EverySyncCanFinish` | apps/api/src/ldap-keycloak-sync/ldap-keycloak-sync.service.ts:207-256 | every synchronisation whose creations meet no path unknown to the cache has an interleaving that finishes it |
| `LdapSync.SecondSyncIsQuietIff` | apps/api/src/ldap-keycloak-sync/ldap-keycloak-sync.service.ts:207-264 | after a finished synchronisation, a second finished one over the same LDAP groups records no edit, in every interleaving of both and whatever is renamed, if and only if every group resolves to the usernames left in the cache, which are those of the first one when none was blank; it then changes no cache and creates no group |
| `LdapSync.SecondSyncChangesNothing` | apps/api/src/ldap-keycloak-sync/ldap-keycloak-sync.service.ts:207-264 | in particular a second synchronisation that resolves the same members, none of them blank, changes nothing, finished or not |
| `LdapSync.UpToDateGroupIsLeftAlone` | apps/api/src/ldap-keycloak-sync/ldap-keycloak-sync.service.ts:224-231 | a group whose cache is up to date gets no request, whatever Keycloak really holds for it |
| `LdapSync.LostEditsAreNotRepaired` | apps/api/src/ldap-keycloak-sync/ldap-keycloak-sync.service.ts:231-264 | an edit lost to a failure is not repaired by later synchronisations: the cache was written before the edits were applied, and differences are computed against the cache |
| `LdapSync.SyncSweepsExactlyTheStale` | apps/api/src/ldap-keycloak-sync/ldap-keycloak-sync.service.ts:207-288 | from a state in which Keycloak has every cached group and new groups get new ids, after any finished interleaving, deletions that complete in any order and whichever of them fail: of the paths that the cache knew, LDAP has or Keycloak had, exactly those exist that are neither a stale group whose deletion was not refused nor below one |
| `LdapSync.SyncKeepsExactlyLdapAndAdminGroups` | apps/api/src/ldap-keycloak-sync/ldap-keycloak-sync.service.ts:207-288 | in particular a known or LDAP path with no stale group above it exists afterwards if and only if LDAP has it or its group has an admin name |
| `LdapSync.AdminNamesMeaning` | apps/api/src/ldap-keycloak-sync/ldap-keycloak-sync.service.ts:205 | the admin names are those of the admin group paths without the leading slash |
| `LdapSync.AdminGroupsStay` | apps/api/src/ldap-keycloak-sync/ldap-keycloak-sync.service.ts:205-288 | of the groups that LDAP lacks, with nothing stale above and no refused deletion, exactly those go whose name with a leading slash is no admin group path |
| `LdapSync.DeletedGroups` | apps/api/src/ldap-keycloak-sync/ldap-keycloak-sync.service.ts:273-286 | Keycloak deletes a group with everything below it: in any order of completion exactly that is gone, and all deletions succeed if and only if none is refused and none comes after one of a group above it |
| `LdapSync.LongestFirstFindsAll` | apps/api/src/ldap-keycloak-sync/ldap-keycloak-sync.service.ts:271 | longer paths first, each once: no deletion comes after one of a group above |
| `LdapSync.AdminSubgroupGoes` | apps/api/src/ldap-keycloak-sync/ldap-keycloak-sync.service.ts:280-285 | an instance: a group with an admin name below a stale group goes with it |
| `LdapSync.SharedPathsMerge` | apps/api/src/ldap-keycloak-sync/ldap-keycloak-sync.service.ts:266 | the LDAP paths are as many as the DNs if and only if no two DNs share a path; otherwise fewer |
| `LdapSync.SyncService.EnsureKeycloakGroupUsingCache` | apps/api/src/ldap-keycloak-sync/ldap-keycloak-sync.service.ts:570-610 | a known path gives its group; an unknown one is created and entered, or the task throws when Keycloak already holds it |
| `LdapSync.SyncService.PushEdits` | apps/api/src/ldap-keycloak-sync/ldap-keycloak-sync.service.ts:237-251 | the two loops append the edits of one group |
| `LdapSync.SyncService.CompareMembers` | apps/api/src/ldap-keycloak-sync/ldap-keycloak-sync.service.ts:219-251 | one stretch: edits recorded, and a cache write only when there is a difference |
| `LdapSync.SyncService.WriteMembers` | apps/api/src/ldap-keycloak-sync/ldap-keycloak-sync.service.ts:253 | the cache entry becomes the sanitised resolved members |
| `LdapSync.SyncService.MoveTask` | apps/api/src/ldap-keycloak-sync/ldap-keycloak-sync.service.ts:208-255 | one stretch of one group task |
| `LdapSync.SyncService.DeleteStaleGroups` | apps/api/src/ldap-keycloak-sync/ldap-keycloak-sync.service.ts:266-288 | every deletion of a stale path is tried once, in any order of completion; one that is refused or finds its group gone fails, and success means that none did |
| `LdapSync.LastGroupAtAPath` | apps/api/src/ldap-keycloak-sync/ldap-keycloak-sync.service.ts:179-184 | in the map by path a path has the last group of the list with this path; an empty path is no key |
| `LdapSync.SyncService.IndexByPath` | apps/api/src/ldap-keycloak-sync/ldap-keycloak-sync.service.ts:179-184 | the loop builds the map by path |
| `LdapSync.SyncService.StartTasks` | apps/api/src/ldap-keycloak-sync/ldap-keycloak-sync.service.ts:163-210 | one task per LDAP path; a DN without a group name fails the synchronisation while the other tasks start |
| `LdapSync.SyncService.Run` | apps/api/src/ldap-keycloak-sync/ldap-keycloak-sync.service.ts:158-300 | an empty group cache changes nothing; a synchronisation that fails or stops early changes no membership although its tasks have gone on; one that ends has applied the batches of a complete interleaving, and in Keycloak exactly the stale groups whose deletion was not refused are gone, with what is below them; when all admin group paths begin with a slash, stale is told from the configured paths: a known path outside LDAP whose group name, behind a slash, is none of them |
| `LdapEndToEnd.ResolvedMembers` | apps/api/src/ldap-keycloak-sync/ldap-keycloak-sync.service.ts:219-221 | the members a group task computes are exactly the accounts listed in the groups it has visited, in every interleaving of searches and resolutions and whatever names are learned meanwhile |
| `LdapEndToEnd.MembersAreBetween` | apps/api/src/ldap-keycloak-sync/ldap-keycloak-sync.service.ts:219-221 | they include every account reachable with the names known at the start and none unreachable with those known at the end |
| `LdapEndToEnd.KeycloakHoldsTheReachableAccounts` | apps/api/src/ldap-keycloak-sync/ldap-keycloak-sync.service.ts:207-264 | expansion, resolution, difference, merge and requests together: when the changes succeed and, in the group, usernames tell the accounts, its Keycloak group holds exactly the accounts of the groups visited; these lie between the accounts reachable with the first and the last names, and are the reachable ones when no name learned is listed in a reachable group |
| `LdapEndToEnd.SecondSyncIsQuietIff` | apps/api/src/ldap-keycloak-sync/ldap-keycloak-sync.service.ts:207-264 | with the members derived from the expansions and whatever the cache held before the first: a second synchronisation records no edit if and only if, for every LDAP group, both expansions visited groups with the same accounts |
| `LdapEndToEnd.SameMembersIff` | apps/api/src/ldap-keycloak-sync/ldap-keycloak-sync.service.ts:185 | two tasks of the same group find the same accounts in every interleaving, whenever names are learned, if and only if the same accounts are reachable with the names known at the start and at the end of each |
| `LdapEndToEnd.NewSubgroupMattersLater` | apps/api/src/ldap-keycloak-sync/ldap-keycloak-sync.service.ts:600 | a cached group that lists a group created meanwhile is such a case: the two differ in the user that group lists |
| `LdapEndToEnd.SecondSyncOfUnchangedDirectoryEdits` | apps/api/src/ldap-keycloak-sync/ldap-keycloak-sync.service.ts:158-264 | two whole synchronisations over one unchanged LDAP directory, from a cache that does not know the listed group: what the first one creates is what its expansions learn, the second starts where the first ended, both finish, and the second records edits |
| `LdapEndToEnd.NewSubgroupWithoutMembersIsHarmless` | apps/api/src/ldap-keycloak-sync/ldap-keycloak-sync.service.ts:600 | a name learned that is listed in a reachable group need not matter: a group without members adds no account |
| `Types.SanitizeMembers` | apps/api/src/groups/groups.service.ts:132-154 | keeps exactly the members with a non-blank id and username, in order |
| `GroupRefresh.RetryFilters` | apps/api/src/groups/groups.service.ts:243-245 | retrying only the failed groups loses and adds none: the groups that fail to the end are the same from the list of failures as from the whole list, in the same order |
| `GroupRefresh.EachGroupIsTriedOncePerAttempt` | apps/api/src/groups/groups.service.ts:226-248 | for every list and pattern of failures a group is requested at an attempt exactly if it failed at all earlier ones, once for each time it is listed, and never at more than `maximumRetries` attempts |
| `GroupRefresh.PathAfterRetries` | apps/api/src/groups/groups.service.ts:226-273 | for every list, paths shared or not, and every order in which the requests of each attempt are answered: a path of which some group succeeds at some attempt ends with the entry of such a group, every other path keeps its entry |
| `GroupRefresh.FourAttemptsDecide` | apps/api/src/groups/groups.service.ts:226-273 | a whole call told from its requests, the first attempt and three retries: a path of which some group is answered ends with the entry of such a group, which holds the members that its id has, without those with a blank id or username; every other path keeps its entry |
| `GroupRefresh.CacheAfterRetries` | apps/api/src/groups/groups.service.ts:226-273 | with distinct paths: a group that failed at every attempt has the cache entry it had before, every other group has a fresh one of its own, whichever attempt succeeded |
| `GroupRefresh.OrderOfAnswersDoesNotMatter` | apps/api/src/groups/groups.service.ts:226-248 | the cache after all attempts is the same for all orders of answers when the groups of one path that succeed have the same entry |
| `GroupRefresh.LastAnswerWins` | apps/api/src/groups/groups.service.ts:234 | two different groups at one path that both answer at once: the two orders leave different entries |
| `GroupRefresh.OtherPathAfterRetries` | apps/api/src/groups/groups.service.ts:226-273 | no cache entry of another path is touched |
| `GroupRefresh.FlattenKeepsEveryGroup` | apps/api/src/groups/groups.service.ts:324-341 | the flat list holds exactly the groups found in the tree at some depth |
| `GroupRefresh.GroupsService.UpdateGroupWithMembersInCache` | apps/api/src/groups/groups.service.ts:250-273 | writes the sanitised members given or fetched; a failing fetch writes nothing |
| `GroupRefresh.GroupsService.RunBatch` | apps/api/src/groups/groups.service.ts:231-240 | one batch: every request is sent, they are answered in any order, and the failures are collected in the order of the batch |
| `GroupRefresh.GroupsService.RunBatches` | apps/api/src/groups/groups.service.ts:230-241 | the batches of an attempt together send every group once, in order, and collect the failures |
| `GroupRefresh.GroupsService.TryUpdateGroupsWithMembersInCache` | apps/api/src/groups/groups.service.ts:226-248 | returns exactly the groups that fail at all attempts, in their order; the cache is that of the orders in which the attempts were answered, the requests are those of the specification; it ends |
| `GroupRefresh.FlatGroups.TraverseSubGroups` | apps/api/src/groups/groups.service.ts:327-336 | pushes a group and then all groups below it |
| `GroupRefresh.FlatGroups.TraverseAll` | apps/api/src/groups/groups.service.ts:331-338 | pushes a list of groups with everything below, in order |
| `SingleFlight.FlagCountsTheRunningRefresh` | apps/api/src/groups/groups.service.ts:275-305 | in every interleaving of any number of refreshes, failing at any point, the number of running refreshes is one while the flag is set and zero otherwise |
| `SingleFlight.SkippedIff` | apps/api/src/groups/groups.service.ts:275-305 | in every interleaving from the start a call is skipped exactly if a refresh runs, or if a refresh has succeeded before and the last notice said that an LDAP synchronisation is active; every other call begins one |
| `SingleFlight.RefreshGuard.UpdateGroupsAndMembersInCache` | apps/api/src/groups/groups.service.ts:276-287 | the stretch up to the first await: skip, or set the flag and start |
| `SingleFlight.RefreshGuard.Resume` | apps/api/src/groups/groups.service.ts:287-304 | one later stretch; every way out clears the flag |
| `SingleFlight.SingleWithoutOverlap` | apps/api/src/ldap-keycloak-sync/ldap-keycloak-sync.service.ts:146-156 | two synchronisations never run at once as long as no call tests the flag while another is between its test and its set |
| `SingleFlight.OverlapRunsTwice` | apps/api/src/ldap-keycloak-sync/ldap-keycloak-sync.service.ts:146-156 | every such overlap leads to two synchronisations at once when the two calls go on |
| `SingleFlight.TwoSyncsAndAThird` | apps/api/src/ldap-keycloak-sync/ldap-keycloak-sync.service.ts:129-300 | a run from the start with two synchronisations at once, the first of which clears the flag for both when it ends, so that a third joins the other |
| `TldrawRooms.MutualExclusion` | apps/api/src/tldraw-sync/tldraw-sync.service.ts:70-88 | in every interleaving of callers, failing loads, closings and ticks: at most one caller per room id is in the critical section, its lock is in force meanwhile, and without one the lock is free |
| `TldrawRooms.NoDeadlock` | apps/api/src/tldraw-sync/tldraw-sync.service.ts:71-87 | a waiting caller can go on, or another caller of its id can, whether its load succeeds or fails |
| `TldrawRooms.OneOpenRoomPerId` | apps/api/src/tldraw-sync/tldraw-sync.service.ts:90-131 | no room id ever has two open rooms, and every open room is the entry of the map |
| `TldrawRooms.OpenRoomIsReturnedAtOnce` | apps/api/src/tldraw-sync/tldraw-sync.service.ts:90-97 | after any run a call for a room that is open is handed that room at once, also while another caller holds the lock, and nothing else changes |
| `TldrawRooms.CallersGetTheirRoom` | apps/api/src/tldraw-sync/tldraw-sync.service.ts:90-114 | a caller is handed a room of the id it asked for |
| `TldrawRooms.TickSavesAllIffNeverReopenedTooEarly` | apps/api/src/tldraw-sync/tldraw-sync.service.ts:56-68 | after a tick all changes of a room are in a snapshot handed over for saving if and only if its id was never opened again between its closing with unsaved changes and the tick that would have saved it |
| `TldrawRooms.ReopeningLosesAChange` | apps/api/src/tldraw-sync/tldraw-sync.service.ts:97-110 | a run from the start in which the tick saves nothing of a change |
| `TldrawRooms.LostForGood` | apps/api/src/tldraw-sync/tldraw-sync.service.ts:97-110 | changes lost by reopening too early are never saved later |
| `TldrawRooms.TickKeepsOpenRooms` | apps/api/src/tldraw-sync/tldraw-sync.service.ts:56-68 | the saver drops closed rooms only; every entry it leaves is open and saved |
| `TldrawRooms.StepInv` | apps/api/src/tldraw-sync/tldraw-sync.service.ts:56-139 | every stretch keeps the lock, room and saving invariants of all ids |
| `TldrawRooms.TldrawSync.WithGlobalRoomLock` | apps/api/src/tldraw-sync/tldraw-sync.service.ts:70-87 | from the loop test to the next await: wait, or take the lock and enter |
| `TldrawRooms.TldrawSync.MakeOrLoadRoom` | apps/api/src/tldraw-sync/tldraw-sync.service.ts:90-97 | an open room is returned at once; otherwise the caller goes for the lock |
| `TldrawRooms.TldrawSync.RoomLoaded` | apps/api/src/tldraw-sync/tldraw-sync.service.ts:103-112 | the loaded room replaces the entry of its id |
| `TldrawRooms.TldrawSync.LoadFailed` | apps/api/src/tldraw-sync/tldraw-sync.service.ts:103 | a failing load leaves rooms as they are and leads to the release of the lock |
| `TldrawRooms.TldrawSync.LeaveLock` | apps/api/src/tldraw-sync/tldraw-sync.service.ts:84-87 | the lock is given up and the caller returns or throws |
| `TldrawRooms.TldrawSync.CloseRoom` | apps/api/src/tldraw-sync/tldraw-sync.service.ts:119-123 | the last session closes the room; the map keeps its entry |
| `TldrawRooms.TldrawSync.OnDataChange` | apps/api/src/tldraw-sync/tldraw-sync.service.ts:124-129 | a change marks whatever entry the map has for the id |
| `TldrawRooms.TldrawSync.HandleRoomPersistence` | apps/api/src/tldraw-sync/tldraw-sync.service.ts:56-68 | the loop over the entries, in any order, is the tick of the model |
| `TldrawSnapshots.NothingIsLost` | apps/api/src/tldraw-sync/tldraw-sync.service.ts:56-139 | with contents, database and saves on their way: as long as no load is installed that missed a change handed over, and saves are stored in order, every change handed over is in the room, and in the database once all is stored |
| `TldrawSnapshots.LoadSeesWhatWasStored` | apps/api/src/tldraw-sync/tldraw-sync.service.ts:103-112 | whatever happens between the answer of the database and the installation, the new room holds exactly what was stored at the answer; a load that fails changes nothing |
| `TldrawSnapshots.LoadAfterAllSavesIsFresh` | apps/api/src/tldraw-sync/tldraw-sync.service.ts:103-112 | a load answered while no save is on its way and installed before the next tick misses no change handed over |
| `TldrawSnapshots.InstallCanLoseIffStale` | apps/api/src/tldraw-sync/tldraw-sync.service.ts:103-110 | from a state in which nothing is lost, installing a load can lead to a change missing from the database, with all saves stored in order, if and only if the load missed a change handed over |
| `TldrawSnapshots.SlowSaveIsOverwritten` | apps/api/src/tldraw-sync/tldraw-sync.service.ts:133-135 | a run from the start that gets there: the board is opened again when its snapshot has been handed over but not stored |
| `TldrawSnapshots.EveryOrderStoresAllIff` | apps/api/src/tldraw-sync/tldraw-sync.service.ts:62 | nobody waits for a save: every order in which the saves on their way can be stored ends with all that was handed over if and only if each of them has all of it |
| `TldrawSnapshots.OneAtATimeIsInOrder` | apps/api/src/tldraw-sync/tldraw-sync.service.ts:56-68 | when every hand-over happens with no other save on its way, saves are stored in order |
| `TldrawSnapshots.OlderSaveIsStoredLast` | apps/api/src/tldraw-sync/tldraw-sync.service.ts:133-135 | a run from the start without any further load: two saves are on their way, the older one is stored last, and a change is missing |
| `SurveyAttachments.ReturnedFormulaHasSameActions` | apps/api/src/surveys/surveys-attachment.service.ts:48-91 | the returned formula asks for the same folders and file names as the given one |
| `SurveyAttachments.SweepMeaning` | apps/api/src/surveys/surveys-attachment.service.ts:93-126 | the sweep keeps exactly the referenced files with their content and no empty folder; the result is exactly the references when all of them are on the disk |
| `SurveyAttachments.WantedIsWhatTheFormulaAsksFor` | apps/api/src/surveys/surveys-attachment.service.ts:48-91 | told from the tree of the formula: the walk looks for exactly the logo's file and, at every depth of pages, elements, panels and templates, the last segments of the non-empty image, choice and file links, in the folder of their element |
| `SurveyAttachments.DeletedFoldersAreOfOtherElements` | apps/api/src/surveys/surveys-attachment.service.ts:243-245 | it deletes exactly the folders named like an element without attachments, at any depth |
| `SurveyAttachments.NoClashIsNamesApart` | apps/api/src/surveys/surveys-attachment.service.ts:150-245 | no names clash exactly if no such element is named like a folder that the formula asks a file for |
| `SurveyAttachments.FilesAskedForAreKept` | apps/api/src/surveys/surveys-attachment.service.ts:48-126 | from the formula to the disk, in every interleaving and with uploads at any time: when names are apart, every file the formula asks for that was there is collected and kept with its content |
| `SurveyAttachments.OnlyFilesAskedForRemain` | apps/api/src/surveys/surveys-attachment.service.ts:48-126 | and every file of the survey that remains is one the formula asks for; no empty folder remains |
| `SurveyAttachments.UploadedFileIsStored` | apps/api/src/surveys/surveys-attachment.service.ts:251-292 | a temporary file that one place of the formula alone asks for is in its folder afterwards, with its content, unless the temporary folder is emptied meanwhile |
| `SurveyAttachments.MovedLink` | apps/api/src/surveys/surveys-attachment.service.ts:271-285 | the link of a moved file keeps the host, whatever it is, and leads to the survey and folder the file is in, by the public endpoint for a public survey |
| `SurveyAttachments.HostlessLink` | apps/api/src/surveys/surveys-attachment.service.ts:280 | a link without the endpoint has no host for the new link |
| `SurveyAttachments.PlanIsOrdered` | apps/api/src/surveys/surveys-attachment.service.ts:51-86 | the awaits of the walk (logo, then pages, then elements; in a panel elements, then template elements) order its actions without cycles |
| `SurveyAttachments.PreProcessKeepsExactlyTheReferences` | apps/api/src/surveys/surveys-attachment.service.ts:48-126 | in every interleaving that these awaits allow, with uploads at any time, for a formula whose late deletions are harmless: afterwards the survey's files are exactly the collected references, all of them wanted, no empty folder remains, and no content is made up |
| `SurveyAttachments.CleanIffLateResetsAreHarmless` | apps/api/src/surveys/surveys-attachment.service.ts:48-126 | that holds for every disk and interleaving if and only if every file whose folder may be deleted beside or after its look-up can be found nowhere: its folder is deleted before the look-up, and before it another element whose folder is deleted too has used up a temporary file of that name |
| `SurveyAttachments.LateResetLosesAFile` | apps/api/src/surveys/surveys-attachment.service.ts:243-245 | otherwise some walk, from a disk that has the file at the start and without any upload, collects a file whose folder is deleted afterwards |
| `SurveyAttachments.FirstImageUsesTheFileUp` | apps/api/src/surveys/surveys-attachment.service.ts:69-86 | a formula with a deletion beside a look-up in its folder that always ends clean: the first of two images uses the temporary file up |
| `SurveyAttachments.UploadNameTellsTheTime` | apps/api/src/filesystem/multer.utilities.ts:52-59 | the name of an upload determines its time, random number and extension, so a name that a client has been told is not given again at another time |
| `SurveyAttachments.WantedFilesAreKept` | apps/api/src/surveys/surveys-attachment.service.ts:48-126 | without a clash of names every file that is wanted and there is kept as it was and collected |
| `SurveyAttachments.KeptIffNoClash` | apps/api/src/surveys/surveys-attachment.service.ts:243-301 | every wanted file that is there is kept, for every disk and walk, if and only if no element without attachments shares its name with a folder that holds some, wherever the two are |
| `SurveyAttachments.ResetOnAPageComesFirst` | apps/api/src/surveys/surveys-attachment.service.ts:69-86 | the two conditions differ: with the element without attachments on a page and the image outside of pages the walk always ends clean, but deletes a wanted file |
| `SurveyAttachments.SecondRunChangesNothing` | apps/api/src/surveys/surveys-attachment.service.ts:48-126 | without a clash a second call with the returned formula leaves the disk as it is and collects the same references, in every interleaving of both |
| `SurveyAttachments.SecondQuietIffNoClash` | apps/api/src/surveys/surveys-attachment.service.ts:48-126 | a second call is quiet for every disk and interleaving if and only if no names clash |
| `SurveyAttachments.EveryWalkCanFinish` | apps/api/src/surveys/surveys-attachment.service.ts:69-86 | every walk can be brought to its end; uploads and the removal of the temporary folder can come at any moment |
| `SurveyAttachments.AttachmentStore.ReceiveUpload` | apps/api/src/filesystem/multer.utilities.ts:52-59 | an upload puts a file under a name the server makes up into the user's temporary folder and returns the name |
| `SurveyAttachments.AttachmentStore.CleanupTemporaryFiles` | apps/api/src/surveys/surveys-attachment.service.ts:128-131 | the temporary folder is emptied |
| `SurveyAttachments.AttachmentStore.DeleteDirectory` | apps/api/src/surveys/surveys-attachment.service.ts:294-301 | the folder of an element without attachments goes, with its files |
| `SurveyAttachments.AttachmentStore.ProcessUrl` | apps/api/src/surveys/surveys-attachment.service.ts:251-292 | one stretch of one link: look at the permanent file, look at the temporary one, make the folder, move, collect |
| `SurveyAttachments.AttachmentStore.CleanupQuestionFolder` | apps/api/src/surveys/surveys-attachment.service.ts:109-126 | unreferenced files of one folder go, and the folder if nothing is left |
| `SurveyAttachments.AttachmentStore.CleanupOrphanedAttachments` | apps/api/src/surveys/surveys-attachment.service.ts:93-107 | the sweep over all folders, in any order, is the sweep of the specification |
| `Notifications.BatchesPartition` | apps/api/src/notifications/notifications.service.ts:126-129 | for every list length each username is in exactly one batch, in order; no batch is empty or too large, and only the last one may be short |
| `Notifications.SlicesAreBatches` | apps/api/src/notifications/notifications.service.ts:126-129 | the computed number of batches and the index arithmetic of the slices give those batches |
| `Notifications.InsertedPlusFailed` | apps/api/src/notifications/notifications.service.ts:131-167 | inserted and failed add up to the number of usernames, whichever documents are refused and whichever inserts break |
| `Notifications.BatchesInsertTheList` | apps/api/src/notifications/notifications.service.ts:126-148 | for the rows it makes no difference how the list is cut into batches |
| `Notifications.FailuresAreCounted` | apps/api/src/notifications/notifications.service.ts:93-98 | what is refused shows up in the logged count: for different users and no broken insert it is nought if and only if every user has a document that is not refused |
| `Notifications.NotifyIsAllOrNothing` | apps/api/src/notifications/notifications.service.ts:78-121 | when `notifyUsernames` throws at any point and its rollback succeeds, both collections are as before |
| `Notifications.NotifyThrowsIff` | apps/api/src/notifications/notifications.service.ts:78-121 | for all users, documents refused and inserts broken: a creation throws if and only if another notification has its source, or a push that is not skipped does not come to its end; without anything to create, if and only if a push that is not skipped is not sent |
| `Notifications.NotifyStores` | apps/api/src/notifications/notifications.service.ts:78-121 | a creation that reports success has stored the notification as given, stamped with the time of the push and with rows marked sent when it was pushed, unstamped and pending when the push was skipped; no other notification or row has changed |
| `Notifications.NotifyLeavesExactlyTheUsers` | apps/api/src/notifications/notifications.service.ts:78-121 | for any documents refused and any inserts broken: a creation that reports success leaves exactly the users with a document that was not refused as recipients, all unread, and no other row changed: exactly the given users if and only if every one of them has one |
| `Notifications.RefusedRecipientIsNotReported` | apps/api/src/notifications/notifications.service.ts:93-98 | a refused document goes unreported: the creation ends well without a row for its user |
| `Notifications.SyncLeavesExactlyTheUsers` | apps/api/src/notifications/notifications.service.ts:285-336 | a recipient synchronisation that reports success leaves, of the given users, exactly those who had a row or have a document that was not refused, all unread, keeps the rows of those who stay, and touches no other notification |
| `Notifications.UpsertLeavesExactlyTheUsers` | apps/api/src/notifications/notifications.service.ts:214-283 | after an upsert that reports success there is exactly one notification of the source, with the new content, and everything else is unchanged; its recipients are exactly the given users, all unread, if and only if every one of them had a row or a document that was not refused |
| `Notifications.UpsertStoresOne` | apps/api/src/notifications/notifications.service.ts:214-243 | a notification with a source type and a source id, both not empty, that is found is brought up to date and none is added; otherwise success means exactly one new notification, and an error that all are as before |
| `Notifications.UpdateThrowsIff` | apps/api/src/notifications/notifications.service.ts:245-283 | an update throws if and only if there is a row to insert and the insert ends in another error than a bulk write error, or a push that is not skipped and is due does not come to its end |
| `Notifications.UpdateStores` | apps/api/src/notifications/notifications.service.ts:245-283 | an update that reports success has changed the content, and the stamp if a push was due; the rows are sent then and pending otherwise, all unread; nothing else has changed |
| `Notifications.StampIsTheLastPush` | apps/api/src/notifications/notifications.service.ts:53-62 | over all operations: the stamp of a notification that stays is the time of the last push that stamped it |
| `Notifications.PushesAreApart` | apps/api/src/notifications/notifications.service.ts:53-62 | after a stamped push, over every sequence of operations without another one: an update tries to push exactly from thirty minutes later on |
| `Notifications.UnstampedPushIsRepeated` | apps/api/src/notifications/notifications.service.ts:245-283 | a push whose stamp fails is not remembered: the next update pushes again at once |
| `Notifications.UpdateThrowsIffBroken` | apps/api/src/notifications/notifications.service.ts:310-322 | an update without a push ends in an error if and only if there is a row to insert and the insert ends in another error than a bulk write error |
| `Notifications.RefusedUpdateIsNotReported` | apps/api/src/notifications/notifications.service.ts:310-322 | so an update, too, can end well without a row for one of its users |
| `Notifications.UserDeleteRemovesWithTheLastRecipient` | apps/api/src/notifications/notifications.service.ts:549-663 | a user-side delete takes exactly the chosen rows and removes a notification exactly when its last recipient goes |
| `Notifications.ReadingMarksOwnRows` | apps/api/src/notifications/notifications.service.ts:527-547 | reading marks the user's row with the id, or all rows of the user, and nothing else of any row; what is counted as unread is what changes |
| `Notifications.DeletingTakesOwnRows` | apps/api/src/notifications/notifications.service.ts:549-663 | a user's deletions take no row of another user, and of their own the one with the id, all of them, or all of one kind |
| `Notifications.DeletingSentTakesOwnNotifications` | apps/api/src/notifications/notifications.service.ts:617-678 | deleting what a user has sent takes exactly the notifications that user created, with the rows of everybody |
| `Notifications.OnlyTheCreatorDeletes` | apps/api/src/notifications/notifications.service.ts:561-579 | deleting one sent notification takes it, with the rows of everybody, exactly for the user who created it; for anybody else nothing changes |
| `Notifications.EveryLookUpHasAResult` | apps/api/src/notifications/notifications.service.ts:201-559 | every request can be answered: each look-up by source, by row id or by source id has a result |
| `Notifications.CascadeRemovesAllIffUnique` | apps/api/src/notifications/notifications.service.ts:201-212 | deleting by source id takes one notification and its rows; none with the id is left if and only if there was at most one |
| `Notifications.CascadeCanLeaveOne` | apps/api/src/notifications/notifications.service.ts:201-212 | two source types may share a source id, and then one notification stays |
| `Notifications.StepInv` | apps/api/src/notifications/notifications.service.ts:78-718 | every operation keeps one notification per source; every operation but expiry keeps every row attached to its notification |
| `Notifications.RunInv` | apps/api/src/notifications/notifications.service.ts:78-718 | the same over every sequence of operations |
| `Notifications.CronRestoresTheInvariant` | apps/api/src/notifications/notifications.service.ts:680-718 | after any sequence of operations, expiry included, the nightly job restores the invariant, keeps every notification and deletes exactly the rows whose notification is gone |
| `Notifications.NotificationStore.InsertMany` | apps/api/src/notifications/notifications.service.ts:140-148 | an unordered insert skips the documents that are refused, for whatever reason, and counts the rest |
| `Notifications.NotificationStore.CreateUserNotifications` | apps/api/src/notifications/notifications.service.ts:123-179 | the batches by index and slice, and their counts, are those of the specification; the counts add up |
| `Notifications.NotificationStore.NotifyUsernames` | apps/api/src/notifications/notifications.service.ts:78-121 | create, insert, push, stamp, mark sent; the first failure takes the notification and its rows back |
| `Notifications.NotificationStore.SyncUserNotifications` | apps/api/src/notifications/notifications.service.ts:285-336 | remove, insert, reset, in place |
| `Notifications.NotificationStore.UpdateExistingNotification` | apps/api/src/notifications/notifications.service.ts:245-283 | new content, recipient synchronisation, and a push unless it is skipped or was sent less than the debounce time ago |
| `Notifications.NotificationStore.UpsertNotificationForSource` | apps/api/src/notifications/notifications.service.ts:214-243 | without a full source it creates; otherwise it updates what the look-up finds, or creates |
| `Notifications.NotificationStore.MarkAsRead` | apps/api/src/notifications/notifications.service.ts:527-537 | the user's row becomes read; the count says whether it was unread |
| `Notifications.NotificationStore.MarkAllAsRead` | apps/api/src/notifications/notifications.service.ts:539-547 | all rows of the user become read; the count is that of the unread ones |
| `Notifications.NotificationStore.CleanupOrphanedNotifications` | apps/api/src/notifications/notifications.service.ts:581-615 | of the given notifications exactly those without a row go |
| `Notifications.NotificationStore.DeleteUserNotification` | apps/api/src/notifications/notifications.service.ts:549-559 | the user's row goes, and its notification with the last row |
| `Notifications.NotificationStore.DeleteAllUserNotifications` | apps/api/src/notifications/notifications.service.ts:617-663 | the filters for all, sent and one kind, and the number returned |
| `Notifications.NotificationStore.DeleteAllSentNotifications` | apps/api/src/notifications/notifications.service.ts:665-678 | every notification the user created goes with all its rows |
| `Notifications.NotificationStore.DeleteSentNotification` | apps/api/src/notifications/notifications.service.ts:561-579 | only its creator can delete a sent notification, with all rows |
| `Notifications.NotificationStore.CascadeDeleteBySourceId` | apps/api/src/notifications/notifications.service.ts:201-212 | one notification with the source id goes, with its rows |
| `Notifications.NotificationStore.CleanupOrphanedUserNotifications` | apps/api/src/notifications/notifications.service.ts:680-718 | the dangling rows go |
| `MailIdle.StepInv` | apps/api/src/mails/mail-idle.service.ts:138-258 | every stretch, timer and event keeps the timer, identifier and connection invariants of all users |
| `MailIdle.TimersAreTheMapEntries` | apps/api/src/mails/mail-idle.service.ts:433-515 | in every interleaving the armed reconnect and disconnect timers are exactly the entries of their maps, at most one each per user, and every connection in the map has its restart armed |
| `MailIdle.TriggersAtMostOnce` | apps/api/src/mails/mail-idle.service.ts:206-222 | the events of one client change anything at most once, in every interleaving |
| `MailIdle.TriggersUnlessHandled` | apps/api/src/mails/mail-idle.service.ts:206-222 | an event of a client changes something exactly while its error flag is not set |
| `MailIdle.HandledStaysQuiet` | apps/api/src/mails/mail-idle.service.ts:206-222 | the events of a client whose error flag is set change nothing, in every continuation |
| `MailIdle.SilentAfterStop` | apps/api/src/mails/mail-idle.service.ts:456-471 | the events of a connection that has left the map by `stopIdle`, by being replaced or at shutdown change nothing afterwards |
| `MailIdle.SilentIffNotOverwritten` | apps/api/src/mails/mail-idle.service.ts:206-245 | a connection that leaves the map is silent in every continuation if and only if it is not overwritten by a second one that comes up, or its error was handled before |
| `MailIdle.OverwrittenEndsTheNew` | apps/api/src/mails/mail-idle.service.ts:206-245 | the next error or close of an overwritten client ends the new connection of its user |
| `MailIdle.OverwriteHappens` | apps/api/src/mails/mail-idle.service.ts:138-245 | a run from the empty service: two starts overlap, both connect, the first client closes, and the working second connection is gone |
| `MailIdle.RestartsExactIff` | apps/api/src/mails/mail-idle.service.ts:373-386 | a step keeps every armed restart timer attached to its user's connection in the map if and only if it displaces no connection |
| `MailIdle.LateReconnectReplacesAWorkingConnection` | apps/api/src/mails/mail-idle.service.ts:418-449 | a user who comes back while the logout of a failed connection is pending gets the new, working connection torn down by the reconnect scheduled afterwards, and its restart timer stays armed |
| `MailIdle.LateReconnectHappens` | apps/api/src/mails/mail-idle.service.ts:418-449 | a run from the empty service that gets there |
| `MailIdle.ErrorArmsTheFirstReconnect` | apps/api/src/mails/mail-idle.service.ts:418-431 | an error of a connection in the map leads to a reconnect of attempt one |
| `MailIdle.OthersKeepThePhase` | apps/api/src/mails/mail-idle.service.ts:138-515 | no event of another user, no late client event and no restart timer moves a user's chain of reconnects |
| `MailIdle.FailingReconnectsStopAtTheMaximum` | apps/api/src/mails/mail-idle.service.ts:433-454 | with every connect failing and nothing cancelling, whatever happens to other users: the chain never gets stuck, never exceeds three attempts, and ends after exactly three with a total delay of thirty seconds |
| `MailIdle.OnlyReconnectsAreRetried` | apps/api/src/mails/mail-idle.service.ts:250-258 | after the logout of a client that did not connect a new attempt is armed exactly if the connect was itself a reconnect, and not the third |
| `MailIdle.FailedConnectIsSilenced` | apps/api/src/mails/mail-idle.service.ts:250-256 | a client that fails to connect has no effect afterwards, in every continuation, and does not enter the map |
| `MailIdle.ComingBackEndsTheGracePeriod` | apps/api/src/mails/mail-idle.service.ts:507-515 | after a user has come back, in every continuation in which the user does not leave again, no grace period of that user is armed and none ends |
| `MailIdle.GracePeriodEnds` | apps/api/src/mails/mail-idle.service.ts:482-505 | when a grace period ends, the user has no connection and no pending reconnect; the connection there was is silenced and its restart timer gone; connections of others stay |
| `MailIdle.LeavingArmsOneGracePeriod` | apps/api/src/mails/mail-idle.service.ts:482-505 | leaving arms a timer exactly if the user has a connection and none is armed |
| `MailIdle.StartOpens` | apps/api/src/mails/mail-idle.service.ts:138-200 | a start that can go ahead begins a client and cancels a pending reconnect; one that is not ready changes nothing |
| `MailIdle.ReconnectAndRestartOpen` | apps/api/src/mails/mail-idle.service.ts:388-454 | a reconnect that fires, and the end of the logout of a restart, begin a client too |
| `MailIdle.RestartStopsForANewOne` | apps/api/src/mails/mail-idle.service.ts:373-401 | the restart timer takes the connection out of the map, silenced, and its logout leads to a new one |
| `MailIdle.StopAllIsPossible` | apps/api/src/mails/mail-idle.service.ts:517-527 | shutting down is possible at any moment |
| `MailIdle.MailIdleService.constructor` | apps/api/src/mails/mail-idle.service.ts:70-83 | all maps begin empty |
| `MailIdle.MailIdleService.StartIdle` | apps/api/src/mails/mail-idle.service.ts:138-167 | nothing for a user with a connection or without what a connection needs |
| `MailIdle.MailIdleService.CreateIdleConnection` | apps/api/src/mails/mail-idle.service.ts:170-200 | a pending reconnect is cancelled; an existing connection is silenced and replaced; otherwise a client is opened |
| `MailIdle.MailIdleService.ClientConnected` | apps/api/src/mails/mail-idle.service.ts:244-245 | the connection enters the map and its restart is armed |
| `MailIdle.MailIdleService.ConnectFailed` | apps/api/src/mails/mail-idle.service.ts:250-256 | a failed connect silences the client before its logout |
| `MailIdle.MailIdleService.ClientFailed` | apps/api/src/mails/mail-idle.service.ts:206-222 | the first error or close of a client is handled, later ones are ignored |
| `MailIdle.MailIdleService.HandleConnectionError` | apps/api/src/mails/mail-idle.service.ts:418-429 | the user's connection in the map, whichever it is, is stopped for a reconnect |
| `MailIdle.MailIdleService.ScheduleReconnect` | apps/api/src/mails/mail-idle.service.ts:433-454 | beyond the maximum nothing; otherwise an earlier reconnect is replaced by a new one |
| `MailIdle.MailIdleService.CancelPendingReconnect` | apps/api/src/mails/mail-idle.service.ts:473-480 | timer and entry go together |
| `MailIdle.MailIdleService.StopIdle` | apps/api/src/mails/mail-idle.service.ts:456-469 | the connection leaves the map silenced, with its restart timer cleared |
| `MailIdle.MailIdleService.RestartIdle` | apps/api/src/mails/mail-idle.service.ts:388-401 | the connection is stopped for a new one |
| `MailIdle.MailIdleService.Resume` | apps/api/src/mails/mail-idle.service.ts:241-452 | one awaited call answers and the function that waited goes on |
| `MailIdle.MailIdleService.OnTimeout` | apps/api/src/mails/mail-idle.service.ts:383-498 | the callbacks of the three kinds of timers |
| `MailIdle.MailIdleService.HandleUserDisconnected` | apps/api/src/mails/mail-idle.service.ts:482-505 | a grace period is armed once, and only for a user with a connection |
| `MailIdle.MailIdleService.HandleUserConnected` | apps/api/src/mails/mail-idle.service.ts:507-515 | a pending grace period is cancelled; what follows from it is in `ComingBackEndsTheGracePeriod` |
| `MailIdle.MailIdleService.StopAllConnections` | apps/api/src/mails/mail-idle.service.ts:517-527 | both maps of timers and the map of connections are empty afterwards |
| `AppPositions.UpdateIsListMove` | apps/api/src/appconfig/appconfig.service.ts:128-174 | from positions 1 to n, updating an existing app with a position in 1..n is taking it out of the sorted list and inserting it at that index |
| `AppPositions.DeleteIsListDelete` | apps/api/src/appconfig/appconfig.service.ts:313-337 | deleting an app deletes it from the list and leaves 1..n-1 with the order of the others kept |
| `AppPositions.InsertAppends` | apps/api/src/appconfig/appconfig.schema.ts:68-75 | an app inserted without a position, or with the next free one, is appended |
| `AppPositions.UpdateKeepsDenseIff` | apps/api/src/appconfig/appconfig.service.ts:128-174 | an update leaves the positions a permutation of 1..n if and only if the new position is in range, or is n+1 for an app that does not exist yet |
| `AppPositions.InsertKeepsDenseIff` | apps/api/src/appconfig/appconfig.service.ts:106-109 | an insert leaves them dense if and only if the name is taken, the position is missing, or it is the next free one |
| `AppPositions.OthersKeepTheirGroups` | apps/api/src/appconfig/appconfig.service.ts:138-154 | shifting touches positions only |
| `AppPositions.RunsRefineLists` | apps/api/src/appconfig/appconfig.service.ts:106-337 | over every sequence of fitting operations the stored positions are those of a list on which the same list operations were done |
| `AppPositions.AppConfigs.Update` | apps/api/src/appconfig/appconfig.service.ts:128-174 | the ordered bulk write: one range shift, then the document |
| `AppPositions.AppConfigs.Delete` | apps/api/src/appconfig/appconfig.service.ts:313-337 | the ordered bulk write: the document, then the shift |
| `AppPositions.AppConfigs.Insert` | apps/api/src/appconfig/appconfig.service.ts:106-109 | a taken name is refused |
| `AccessGuard.SharedKeyMeans` | apps/api/src/common/guards/accessCache.ts:46-65 | two requests share a key if and only if they are the same or one username continues the other and the rest of it, with the separator, opens the other domain |
| `AccessGuard.KeysAreApart` | apps/api/src/common/guards/accessCache.ts:46-65 | so without a colon in the domains, or without one in the usernames, the key tells user and domain apart |
| `AccessGuard.CacheIsTransparent` | apps/api/src/auth/access.guard.ts:41-99 | in every interleaving of requests to both guards, expiries, evictions, writes and refreshes, for users and domains whose requests share no key, every cached decision is the uncached decision on the map in force |
| `AccessGuard.DecisionIsCached` | apps/api/src/auth/access.guard.ts:82-98 | a check is answered once and its decision is in the cache, so that the same request is not checked again; of the other entries only those that make way for it are gone |
| `AccessGuard.HasAccessMeans` | apps/api/src/auth/access.guard.ts:82-98 | the uncached decision: some group of the user is that of the super admins, an admin group, or an access group of that app |
| `AccessGuard.CurrentAccessMeans` | apps/api/src/appconfig/appconfig.service.ts:79-86 | with a map that is current, the access groups that decide are those of the stored configuration of that app |
| `AccessGuard.TransparentIffKeysApart` | apps/api/src/common/guards/accessCache.ts:22-72 | for any users and domains: all decisions in every run are right, whatever the groups, map and store are, if and only if no two of their requests share a key |
| `AccessGuard.CachedAnswerIsCurrent` | apps/api/src/auth/access.guard.ts:71-79 | what a request is answered from the cache is the decision the current map gives, for every domain if usernames have no colon, for every user if domains have none |
| `AccessGuard.ColonInDomainConfusesUsers` | apps/api/src/common/guards/dynamicAppAccess.guard.ts:53-72 | a domain taken from the URL can make two users share a key |
| `AccessGuard.MapIsCurrentIff` | apps/api/src/appconfig/appconfig.service.ts:76-96 | for every schedule that starts with a current map: the map in force at its end is the store's, whatever the writes write, if and only if the refresh assigned last read the store after the last write |
| `AccessGuard.InOrderRefreshesAreCurrent` | apps/api/src/appconfig/appconfig.service.ts:76-96 | in particular when refreshes are assigned in the order in which they read and one read follows the last write |
| `AccessGuard.OvertakenRefreshLeavesOldMap` | apps/api/src/appconfig/appconfig.service.ts:76-96 | two refreshes that finish out of order leave the map of the older store in force |
| `AccessGuard.Guard.CanActivate` | apps/api/src/auth/access.guard.ts:46-82 | up to its await: public routes and routes without a domain pass, no user is refused, a cached decision is final |
| `AccessGuard.Guard.CanActivateByParameter` | apps/api/src/common/guards/dynamicAppAccess.guard.ts:40-84 | the same for a domain that is a parameter of the URL, in the same cache |
| `AccessGuard.Guard.FinishCheck` | apps/api/src/auth/access.guard.ts:82-98 | it passes exactly if some group of the user is that of the super admins, an admin group, or an access group of that app; the decision is cached |
| `AccessGuard.Guard.ReadConfigs` | apps/api/src/appconfig/appconfig.service.ts:78-84 | a refresh takes the access groups of the store at the moment it reads them |
| `AccessGuard.Guard.PatchAccessGroups` | apps/api/src/appconfig/appconfig.service.ts:195-216 | a write to the access groups of one app, after which nothing is read |
| `AccessGuard.Guard.UpdateAppAccessMap` | apps/api/src/appconfig/appconfig.service.ts:79-86 | the new map and the emptied cache in one stretch |
| `BulletinTokens.ToPlaceholderIdempotent` | apps/api/src/bulletinboard/bulletinboard.service.ts:291-293 | placeholder replacement is idempotent on every string |
| `BulletinTokens.StoredContentHoldsNoToken` | apps/api/src/bulletinboard/bulletinboard.service.ts:291-293 | every `token=` in the output is followed by the placeholder and then by an ampersand, a quote or the end |
| `BulletinTokens.RoundTrip` | apps/api/src/bulletinboard/bulletinboard.service.ts:220-222 | for every content and every recoverable token: replacing, filling in and replacing again is replacing once |
| `BulletinTokens.RoundTripIffRecoverable` | apps/api/src/bulletinboard/bulletinboard.service.ts:220-222 | the round trip holds for every content if and only if the token, filled in with the dollar patterns of the replacement, is not empty, has no ampersand or quote, and quotes none of the text around |
| `BulletinTokens.StoringReplacesTheFirst` | apps/api/src/bulletinboard/bulletinboard.service.ts:291-293 | what comes before the first `token=` with a value stays, the placeholder takes the place of the value up to the next ampersand or quote, and the rest is dealt with in the same way |
| `BulletinTokens.StoringKeepsOtherText` | apps/api/src/bulletinboard/bulletinboard.service.ts:291-293 | a text without such a value is stored as it is |
| `BulletinTokens.FillReplacesTheFirst` | apps/api/src/bulletinboard/bulletinboard.service.ts:220-222 | what comes before the first placeholder stays, the expanded token takes its place, and the rest is dealt with in the same way; without a dollar sign the token is inserted as it is |
| `BulletinTokens.FillKeepsOtherText` | apps/api/src/bulletinboard/bulletinboard.service.ts:220-222 | a text without a placeholder is left as it is |
| `BulletinTokens.NoPlaceholderIsLeft` | apps/api/src/bulletinboard/bulletinboard.service.ts:220-222 | in stored content filled in with a plain token without a dollar sign, which is no placeholder itself, no placeholder is left |
| `BulletinTokens.ExpandsTheFirstPattern` | apps/api/src/bulletinboard/bulletinboard.service.ts:220-222 | the first dollar pattern of a token becomes a dollar, the placeholder, or the stored text before or after it |
| `BulletinTokens.DollarFreeIsLiteral` | apps/api/src/bulletinboard/bulletinboard.service.ts:220-222 | a token without a dollar sign is filled in as it is |
| `BulletinTokens.RunLength` | apps/api/src/bulletinboard/bulletinboard.service.ts:291-293 | the longest run of characters other than ampersand and quote |
| `TempFiles.PrunedMeaning` | apps/api/src/filesystem/filesystem.service.ts:451-486 | of the files exactly those changed within the last thirty days remain; a directory remains exactly if something in it does, at some depth, or if it is the root |
| `TempFiles.PruneIsIdempotent` | apps/api/src/filesystem/filesystem.service.ts:451-486 | doing it again changes nothing |
| `TempFiles.OutsideUntouched` | apps/api/src/filesystem/filesystem.service.ts:451-486 | nothing outside the path is touched and nothing that remains is changed |
| `TempFiles.PruneOneMore` | apps/api/src/filesystem/filesystem.service.ts:468-473 | the recursive calls for the entries of a directory do not disturb each other, so their order does not matter |
| `TempFiles.FinishDirectory` | apps/api/src/filesystem/filesystem.service.ts:475-481 | from the pruned entries to the pruned directory: it goes exactly if nothing is left and it is not the root |
| `TempFiles.EveryInterleavingPrunes` | apps/api/src/filesystem/filesystem.service.ts:451-486 | the recursive calls side by side, cut at their awaits: in every interleaving, once all have ended, the tree is the pruned one |
| `TempFiles.SomeCallCanGoOn` | apps/api/src/filesystem/filesystem.service.ts:468-482 | the calls never wait for one another for good: as long as one has not ended, it or one further down can go on |
| `TempFiles.FileSystem.RemoveOldTempFiles` | apps/api/src/filesystem/filesystem.service.ts:451-486 | the recursive, in-place removal leaves exactly the pruned tree; an empty path or a missing entry changes nothing |
| `TempFiles.FileSystem.RemoveFromDirectory` | apps/api/src/filesystem/filesystem.service.ts:467-482 | the entries, and then the directory itself if nothing is left |
| `TempFiles.FileSystem.PruneChildren` | apps/api/src/filesystem/filesystem.service.ts:468-473 | the entries in any order |

## Left out

- LdapResolver.ResolveMembersIsFresh: latinising, lower-casing, the candidate names and the numbered-name match are functions given from outside; the directory is `Consistent`, which is more than `PairIsRightIff` asks of two calls.
- LdapSync.ReachedIffNamesTellAccounts: distinct paths have distinct group ids, and two DNs with one path are one task here, so two tasks of one group do not run side by side.
- LdapSync.SyncService.EnsureKeycloakGroupUsingCache: creation and the look-up after it are one step; the second look-up in the cached list of all groups, and the unguarded read-modify-write of that list, are not modelled. What it adds to the shared group cache is a `Learn` event of the expansions.
- LdapSync.SyncSweepsExactlyTheStale: a group is below another if its path continues the other's; nobody else creates or moves groups meanwhile.
- LdapSync.SyncService.Run: group attributes and the time of the last synchronisation are not modelled.
- SingleFlight.SingleWithoutOverlap: the other guards before the flag (configuration, cache readiness, deployment target) only end a call earlier and are not modelled.
- GroupRefresh.GroupsService.RunBatch: cache lifetimes are not modelled.
- TldrawRooms.TickSavesAllIffNeverReopenedTooEarly: is about snapshots handed over; what becomes of them is in `TldrawSnapshots`, for one board and without failing writes.
- SurveyAttachments.PreProcessKeepsExactlyTheReferences: file and element names have no slash and are not dot-dot, I/O does not fail, and only one call of a user runs at a time, apart from the removal of its temporary folder; uploads get names that no formula submitted before has, as `UploadNameTellsTheTime` bears out; the rewriting of `choicesByUrl` is not modelled.
- Notifications.RunInv: operations do not interleave; batches are inserted one after another; the text fields of a notification are one value and read times are a flag.
- Notifications.NotificationStore.DeleteUserNotification: row ids are unique as primary keys, so the row found is the row deleted.
- MailIdle.TimersAreTheMapEntries: connect and opening the inbox are one awaited call; credentials are passed along unchanged; the connection cap and configuration are one condition of starting.
- MailIdle.StepInv: mail counting, fetching and the pending fetch range are not modelled.
- AppPositions.RunsRefineLists: operations do not interleave; positions are unbounded integers.
- AccessGuard.CacheIsTransparent: groups of users and admin groups are fixed; which entries expire or are evicted, and when, is left open.
- TempFiles.FileSystem.RemoveOldTempFiles: the entries are dealt with one after another, as `EveryInterleavingPrunes` allows; no I/O errors and nobody else changes the tree meanwhile.
- LDAP bind, TLS and paged search, HTTP calls, queues, push tokens, event streams and logging.
- Bulletin attachments and categories, conferences, parent-child pairing, authentication, licences, thumbnails, controllers, schemas without logic and the web client: plain branching or forwarding without state of its own.
