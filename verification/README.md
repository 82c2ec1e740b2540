# Verified model of the cluster bot's managers

A Dafny model of the stateful parts of the OpenShift cluster bot: the GCP access
manager, the MCE sync (provision cache and notices), the job manager and its
restart recovery, the ROSA cluster limit, the shared-secret update loop, and the
text codecs that carry state through annotations and account names.

Each component has the operations as functions of the state (clock readings and
failing remote calls are arguments), theorems over all runs or all inputs of those
functions, and, where the source works by loops and field updates, methods with the
same loops that are proved equal to the functions. A remote call that fails changes
nothing. Maps are iterated in an arbitrary order. Times are integers (nanoseconds in
the access manager, seconds in the job manager). Strings are sequences of characters,
lengths count characters, and lower-casing folds the ASCII letters.

`dafny verify dfyconfig.toml` checks the whole project.

| file | about |
|---|---|
| `Wrappers.dfy`, `GoStrings.dfy`, `FiniteSets.dfy` | optional values, the string functions the bot uses, sizes of sets |
| `AccountNames.dfy` | the service-account name codec |
| `AccessPolicy.dfy`, `AccessSafety.dfy`, `AccessEffects.dfy`, `AccessManager.dfy` | GCP access: operations, safety over runs, effects, the loops |
| `AccessSplit.dfy`, `AccessRaces.dfy` | GCP access with lookups and revokes split where they give up the lock |
| `AccessOwnership.dfy`, `AccessSplitOwnership.dfy` | whose account a user gets, in runs of whole operations and in any interleaving |
| `AccessAnswers.dfy` | what the access operations answer and leave behind, exactly |
| `AccessLasting.dfy` | how long a grant lasts |
| `SecretUpdates.dfy`, `SecretFairness.dfy`, `SecretLoop.dfy` | `UpdateSecret` under interleaving: serial order, who gets through, the loop |
| `RosaCapacity.dfy`, `RosaPublication.dfy` | the ROSA cluster limit under interleaving, and which publications keep it |
| `Provisions.dfy`, `ProvisionObjects.dfy` | the MCE provision cache, by value and over shared objects |
| `Notices.dfy` | readiness and failure notices |
| `Jobs.dfy`, `JobRecovery.dfy`, `JobSync.dfy`, `JobManager.dfy` | admission, restart recovery, what a sync records, the loops |
| `JobParams.dfy`, `Options.dfy`, `Links.dfy` | parameters, launch options, Slack links |
| `Inputs.dfy`, `Resolver.dfy` | pull-request grouping, release resolution |

## Where the code does not keep a promise

- Decoding an account name gives back the user exactly when the user name has no capitals and
  contains neither `-dot-` nor `-dot.` (`AccountNames.AccountNameRoundTrip`, `AccountNames.MisreadName`);
  the comment calls the encoding reversible.
- A lookup and a revoke of an uncached user read the policy without the lock and then change the
  cache without looking again. From an empty project, for every user, a revoke that read before
  a grant makes the next grant open a second account (`AccessRaces.RevokeRaceGrantsTwice`); for
  every user a scan recognizes, so does a lookup that read an expired grant
  (`AccessRaces.LookupRaceGrantsTwice`). The end of such a call is safe in all continuations
  exactly when it respects the binding behind the user's cache entry (`AccessSplit.FinishSafeIff`),
  and every interleaving is safe in which the cache passes a re-check that the code could make
  under the lock (`AccessSplit.EverySplitRunIsSafe`).
- A lookup decides by the account's name whose it is. In every run of whole operations each cached
  account is live and its user's own exactly when no account name of one user decodes to another
  (`AccessOwnership.OwnedIff`). That holds for lower-case, short, reversible names at `redhat.com`
  (`AccessOwnership.HomeUsersOwn`) and fails for a user of another domain and the `redhat.com`
  user of the same name (`AccessOwnership.OtherDomainShares`).
- A lookup that gave up the lock can cache an account deleted meanwhile, even with the re-check
  (`AccessSplitOwnership.DeadAccountCached`); cached accounts stay live and their users' own exactly
  in the interleavings in which each call that stores finds its account still live
  (`AccessSplitOwnership.OwnedAlongIff`). A deleted account may also be made again: live cached
  accounts are their users' own in all interleavings exactly when, besides, no account name a scan
  takes for one user's can be made for another (`AccessSplitOwnership.OwnedWhereLiveIff`).
- Ten retries are not enough for more than ten callers of `UpdateSecret`, and a lost creation is
  not retried: without faults everybody gets through if and only if there is a secret and at most
  ten callers, or only one caller (`SecretFairness.EveryoneCommitsIff`).
- ROSA syncs that listed before creations and publish after them break the limit: by any number of
  clusters, and by exactly as many as are missed at an admission
  (`RosaCapacity.StaleListingsReachBound`, `RosaCapacity.OvershootBounded`). With complete listings
  the limit holds; one publication keeps it in all continuations with complete listings exactly when
  the listing, with what running creations are about to insert, has at least as many clusters as exist
  (`RosaPublication.PublicationHarmlessIff`).
- After a restart a user is recognized exactly when the first pending launch in the list
  is at most twice `maxAge` old (`JobRecovery.RestartRecovers`); a longer-lived launch
  listed first hides a younger one (`JobRecovery.LongLivedHidesOthers`). The bot itself writes an
  `expires` of `maxAge` plus 45 minutes with a `maxAge` of three hours, so this needs an annotation
  from elsewhere; launches the bot annotated are all recovered (`JobRecovery.BotLaunchesRecovered`).
- A job that fails to start removes the user's request even when it names another, running
  cluster, so a second one can be launched (`Jobs.FailedTestAllowsSecondLaunch`). After a failed
  start no user ever has two active launches, in every continuation with clean starts, exactly when
  there is no such cluster or the bot runs at most one (`Jobs.FailStartSafeIff`).
- The limit of 23 other jobs per user admits 24 (`Jobs.OtherJobsReach24`).
- A sync that drops a cluster restarts its readiness count, and a delivery that cannot be recorded
  is made again; the bounds on both are reached (`Notices.ReadyBoundsReached`).
- A failure that is new while an older one is still owed shares the older one's three attempts
  (`Notices.FailureFate`).

## Model

| member | source | states |
|---|---|---|
| `AccountNames.AccountNameRoundTrip` | pkg/manager/gcp_access.go:800-902 | for every ASCII `name@redhat.com` whose encoded name has at most 19 characters and every ten-digit time, the account email decodes to that email if and only if the name has no capitals and contains neither `-dot-` nor `-dot.`, and to the lower-case email if and only if the lower-case name contains neither |
| `AccountNames.DecodeEncode` | pkg/manager/gcp_access.go:821-837 | undoing `-dot-` and then `-dash-` inverts the encoding on exactly the reversible names |
| `AccountNames.MisreadName` | pkg/manager/gcp_access.go:792-841 | `a-dot-b@redhat.com`, short enough for the encoding, decodes to another email |
| `AccountNames.UserEmailOfIff` | pkg/manager/gcp_access.go:843-902 | an account email decodes to a user exactly when it has the form `base-digits@domain` with ten digits and the user is the decoded base |
| `AccountNames.LongBase` | pkg/manager/gcp_access.go:167-190 | for an email whose encoded name is longer than 19 characters the account id starts with the email itself, at most 19 characters of it, each lower-cased and with a dash for `.` and `@` |
| `AccountNames.AccountIdFits` | pkg/manager/gcp_access.go:167-190 | with a time of at most ten digits no account id is longer than 30 characters |
| `AccountNames.SanitizedWhole` | pkg/manager/gcp_access.go:800-811 | an email without exactly one `@` is encoded as a whole |
| `AccessSafety.EveryAtomicRunIsSafe` | pkg/manager/gcp_access.go:306-780 | in every run of grants, lookups, revokes and cleanups from a policy without temporary bindings and an empty cache, whichever calls fail: every bound account is live, every active binding's account is cached under its owner, and no user owns two active bindings |
| `AccessSafety.GrantKeeps` | pkg/manager/gcp_access.go:306-442 | a grant keeps the run invariant, through each failure and roll-back |
| `AccessSafety.LookupKeeps` | pkg/manager/gcp_access.go:752-780 | a lookup keeps it, even when it attributes another user's account |
| `AccessSafety.RevokeKeeps` | pkg/manager/gcp_access.go:533-644 | a revoke keeps it |
| `AccessSafety.CleanupKeeps` | pkg/manager/gcp_access.go:647-742 | a cleanup keeps it, also when the policy write fails after the cache was trimmed |
| `AccessSafety.UncachedOwnsNothing` | pkg/manager/gcp_access.go:317-339 | a user without an unexpired cache entry owns no active binding, which is why the cache check is enough before creating an account |
| `AccessSafety.ForeignBindingsSurvive` | pkg/manager/gcp_access.go:400-731 | over every run all bindings that are not temporary grants stay unchanged and in order |
| `AccessSafety.RevokeRemovesExactly` | pkg/manager/gcp_access.go:591-617 | a revoke takes out exactly the account's temporary memberships; every other role, member and condition stays in order |
| `AccessSafety.RevokeKeepsBindings` | pkg/manager/gcp_access.go:597-617 | bindings it does not shrink stay whole, shrunken ones have members left, none still holds the account |
| `AccessSafety.CleanupRemovesExactly` | pkg/manager/gcp_access.go:668-711 | a cleanup takes out exactly the memberships of readably expired temporary bindings, keeping the order of the rest |
| `AccessSafety.UnexpiredIsFilter` | pkg/manager/gcp_access.go:674-711 | a binding stays if and only if it is not a readably expired temporary one |
| `AccessSplit.UninterruptedIsWhole` | pkg/manager/gcp_access.go:548-577 | missing the cache, reading the policy and finishing, with nothing in between, is the whole lookup, and the whole revoke of an uncached user |
| `AccessSplit.FinishSafeIff` | pkg/manager/gcp_access.go:551-577 | the end of a lookup or revoke that gave up the lock leaves all three promises intact in every continuation if and only if, where an active binding stands on the account in the user's cache entry, the call found that account with an end no earlier, or removes it |
| `AccessSplit.EverySplitRunIsSafe` | pkg/manager/gcp_access.go:752-780 | in every interleaving of whole operations and of lookups and revokes split into cache miss, policy read and finish, the promises hold if at each finish the user is uncached, the entry has expired, or the found grant is on the cached account and ends no earlier |
| `AccessRaces.RevokeRaceGrantsTwice` | pkg/manager/gcp_access.go:551-577 | from an empty project, for every user: a revoke reads the policy, a grant succeeds, the revoke finishes, a second grant succeeds, and the user has two active bindings |
| `AccessRaces.LookupRaceGrantsTwice` | pkg/manager/gcp_access.go:757-777 | from an empty project, for every user a scan recognizes by account name or display name: a grant expires, a cleanup fails to write, a lookup reads it, a grant succeeds, the lookup stores the expired one, another grant succeeds, and the user has two active bindings |
| `AccessOwnership.OwnedIff` | pkg/manager/gcp_access.go:446-530 | in every run of whole operations by a set of users each cached account is live and was created for the user it is cached under, if and only if no account name of one of these users decodes to another |
| `AccessOwnership.HomeUsersOwn` | pkg/manager/gcp_access.go:843-902 | in every run of whole operations this holds for all lower-case, short, reversible names at `redhat.com`, whatever the times in the account names |
| `AccessOwnership.OtherDomainShares` | pkg/manager/gcp_access.go:800-825 | it fails for users of one name at `redhat.com` and in another domain |
| `AccessSplitOwnership.DeadAccountCached` | pkg/manager/gcp_access.go:757-777 | from an empty project, for every user a scan recognizes: a grant lapses, a lookup reads it, a cleanup deletes its account and the lookup caches it, although the re-check passes |
| `AccessSplitOwnership.OwnedAlongIff` | pkg/manager/gcp_access.go:551-577 | among users told apart by their account names, in any interleaving every cached account is live and its user's own throughout if and only if each call that stores what it read finds that account still live |
| `AccessSplitOwnership.OwnedWhereLiveIff` | pkg/manager/gcp_access.go:446-530 | in every interleaving of a set of users' calls each cached account that is live was created for its user, if and only if no account name of one decodes to another and none that a scan takes for one can be made for another |
| `AccessSplitOwnership.HomeUsersOwnLive` | pkg/manager/gcp_access.go:843-902 | this holds for all lower-case, short, reversible names at `redhat.com` |
| `AccessLasting.GrantLasts` | pkg/manager/gcp_access.go:306-442 | among users told apart by their account names: a grant given after any interleaving stays in force over every further one that starts no revoke for the user and in which the user's own lookups pass the re-check: until the second it ends in, seven days later, its binding gives its account the role under the stated reason and is active, the account is the user's, asking again changes nothing and reports the same end, and a lookup, whatever fails in it, reports exactly the account and the end of the grant |
| `AccessEffects.GrantThenRevoke` | pkg/manager/gcp_access.go:306-644 | a revoke after a grant restores policy, accounts and cache |
| `AccessEffects.RevokeEndsAccess` | pkg/manager/gcp_access.go:533-644 | after a successful revoke the user owns no active binding and is not cached, whatever failed on the way |
| `AccessEffects.CleanupLeavesNothingExpired` | pkg/manager/gcp_access.go:647-742 | after a cleanup without failures no expired binding is left, and their accounts are gone from the project and the cache |
| `AccessEffects.GrantFailsIff` | pkg/manager/gcp_access.go:306-442 | a grant fails if and only if the bot is off or a call it needs fails; everything is then as it was, or, when the roll-back fails too, there is one more account that is bound to nothing |
| `AccessEffects.GrantIsCached` | pkg/manager/gcp_access.go:306-442 | after a successful grant a lookup returns the entry the grant left, with the end the grant reported; a user with an unexpired entry gets that one again, any other a new one of seven days, and no other user's entry changes |
| `AccessEffects.SuccessIgnoresRollback` | pkg/manager/gcp_access.go:306-442 | a grant that succeeds is the grant without any failing call |
| `AccessEffects.RevokeCanBeRetried` | pkg/manager/gcp_access.go:551-621 | a failed revoke changes neither policy nor accounts, and revoking again gives the state and result it would have given in the first place |
| `AccessEffects.CleanupCanBeRetried` | pkg/manager/gcp_access.go:668-731 | a failed cleanup changes neither policy nor accounts, and a later one gives what it would have given without it, although the cache was trimmed |
| `AccessEffects.RestartFindsGrant` | pkg/manager/gcp_access.go:446-530 | with an empty cache a lookup finds the grant of every user the scan recognizes: same account, start and end in whole seconds |
| `AccessEffects.RestartThenRevoke` | pkg/manager/gcp_access.go:533-644 | and a revoke with an empty cache finds it too and restores policy and accounts |
| `AccessAnswers.EveryOwnerIsAnswered` | pkg/manager/gcp_access.go:752-780 | after every run of whole operations the owner of an active binding who looks up the grant is told the binding's account and an end no earlier than the binding's, whatever fails in the lookup |
| `AccessAnswers.LookupAnswers` | pkg/manager/gcp_access.go:752-780 | a lookup fails exactly when the bot is off or a policy it needs cannot be read; a cached user is answered with the entry, any other with the first match in the policy, which is then cached, or with nothing when there is no match |
| `AccessAnswers.ScanFindsFirst` | pkg/manager/gcp_access.go:446-530 | the scan returns the first member, in policy order, of a temporary binding with a readable end that decodes to the user or, for long names, has a readable display name equal to the email; it returns nothing only when there is none |
| `AccessAnswers.RevokeAnswers` | pkg/manager/gcp_access.go:533-644 | a revoke fails exactly when the bot is off or a call it needs fails, keeping policy and accounts; else the user is forgotten, the account in the entry or the first match loses its temporary memberships and, unless the deletion fails, is the only account gone |
| `AccessAnswers.CleanupAnswers` | pkg/manager/gcp_access.go:647-742 | a cleanup fails exactly when a policy call it needs fails; else exactly the bindings that are over leave the policy, and exactly their accounts go from the project, but for failed deletions; the entries on these accounts are forgotten even when the write fails |
| `AccessAnswers.OthersSurvive` | pkg/manager/gcp_access.go:400-731 | a binding of another role, without a condition or under another title is in the policy after every run |
| `AccessAnswers.DryRunTouchesNothing` | pkg/manager/gcp_access.go:341-350 | where nobody has access, no run of a dry-run bot changes policy or accounts |
| `AccessAnswers.DryRunAnswers` | pkg/manager/gcp_access.go:345-350 | a dry-run grant reports seven days and caches an account whose name starts with `dry-run-` |
| `AccessManager.Manager.Grant` | pkg/manager/gcp_access.go:306-442 | the method with its early returns and roll-backs gives the modelled state and result |
| `AccessManager.Manager.FindGrant` | pkg/manager/gcp_access.go:446-530 | the nested scan returns the first recognized member whose expiry can be read |
| `AccessManager.Manager.Lookup` | pkg/manager/gcp_access.go:752-780 | cache first, then the policy; a found grant is cached |
| `AccessManager.Manager.RemoveMembers` | pkg/manager/gcp_access.go:591-617 | the loop builds the policy without the member and reports whether anything changed |
| `AccessManager.Manager.Revoke` | pkg/manager/gcp_access.go:533-644 | the method gives the modelled state and result |
| `AccessManager.Manager.ScanExpired` | pkg/manager/gcp_access.go:668-711 | the loop separates expired bindings, collects their accounts and trims the cache |
| `AccessManager.Manager.Cleanup` | pkg/manager/gcp_access.go:647-742 | the method gives the modelled state and result |
| `SecretUpdates.EveryRunIsSerial` | pkg/utils/utils.go:123-164 | for any interleaving of any number of callers and any failures: the stored data are the committed edits applied one by one in commit order, a caller that succeeded has committed exactly once, every other has committed nothing, and nobody starts an eleventh attempt |
| `SecretUpdates.AttemptAnswers` | pkg/utils/utils.go:126-163 | an undisturbed attempt commits the edit of what is stored, or of empty data, exactly when neither call fails; else nothing is stored, and only a conflict on an existing secret before the tenth attempt is tried again |
| `SecretUpdates.SecondWriterLoses` | pkg/utils/utils.go:147-163 | a write that comes second stores nothing; an edit is tried again up to the tenth attempt, a creation is given up |
| `SecretFairness.TurnsFinish` | pkg/utils/utils.go:125-164 | whatever the others do and whatever fails, a caller has succeeded or given up after at most twenty calls |
| `SecretFairness.GivingUpTakesTen` | pkg/utils/utils.go:147-163 | without faults on an existing secret a caller gives up only after ten commits by ten other callers |
| `SecretFairness.EveryoneCommitsIff` | pkg/utils/utils.go:123-164 | without faults every caller that gets twenty turns commits, in every schedule, if and only if there is a secret and at most ten callers, or only one caller |
| `SecretLoop.Server.Update` | pkg/utils/utils.go:147-157 | a write is taken only for the version it was made from, as the write step of the interleaved machine |
| `SecretLoop.Attempt` | pkg/utils/utils.go:126-158 | one pass of the loop is the caller's two steps among the others' |
| `SecretLoop.UpdateSecret` | pkg/utils/utils.go:123-164 | the retry loop is a run of the interleaved machine, and it reports success exactly when its edit was committed |
| `RosaCapacity.LimitHolds` | pkg/manager/manager.go:3111-3119 | with a nonzero limit and complete listings, existing clusters plus admitted creations never exceed the limit in any interleaving of admissions, creations, insertions, releases, deletions and syncs |
| `RosaCapacity.OvershootBounded` | pkg/manager/manager.go:3111-3119 | in every run the limit is exceeded by at most the clusters missed at an admission |
| `RosaCapacity.StaleListingsReachBound` | pkg/manager/manager.go:693-832 | for every limit and every number of clusters, syncs that listed before the creations and publish after them let the load exceed the limit by that number while no more are missed at an admission, so the bound is exact |
| `RosaPublication.StaysWithinIff` | pkg/manager/manager.go:3111-3119 | a state within the limit stays there in every continuation with complete listings and new ids if and only if the list and running creations know at least as many clusters as exist |
| `RosaPublication.PublicationHarmlessIff` | pkg/manager/manager.go:826-831 | a publication keeps the limit in all those continuations if and only if the listing, with what running creations are about to insert, has at least as many clusters as exist |
| `RosaCapacity.CreationRoundTrip` | pkg/manager/rosa.go:259-272 | a whole creation adds its cluster remotely and to the list and returns its slot |
| `RosaCapacity.DeletionMakesRoom` | pkg/manager/manager.go:826-831 | after a deletion and a sync a creation is admitted exactly when the remaining clusters and the pending creations are below the limit, or there is none |
| `RosaCapacity.RosaClusters.TryAdmit` | pkg/manager/manager.go:3111-3117 | the locked check and reservation is the admission step |
| `RosaCapacity.RosaClusters.InsertCreated` | pkg/manager/rosa.go:265-272 | the locked insertion is the insertion step; an entry a sync put there stays |
| `RosaCapacity.RosaClusters.ReleaseSlot` | pkg/manager/manager.go:3118 | the deferred decrement is the release step |
| `RosaCapacity.RosaClusters.PublishListing` | pkg/manager/manager.go:826-831 | the replacement of the list is the publication step |
| `Provisions.EveryCacheReal` | pkg/manager/manager.go:606-668 | over every history and every pattern of list and get failures, each cached provision is, log aside, a version the remote had of an object listed for that deployment, and carries no log |
| `Provisions.CacheIsTransparent` | pkg/manager/manager.go:616-653 | when a resource version fixes content, a failure-free sync against a resting remote caches what fetching every newest provision would |
| `Provisions.CachedIsNewest` | pkg/manager/manager.go:616-668 | exactly the deployments with listed provisions then have one cached: the first of those with the latest creation, without its log |
| `Provisions.FailureKeepsCached` | pkg/manager/manager.go:608-650 | a failed list, a failed get or a newest provision that is gone by then leaves the deployment's cached provision in place |
| `Provisions.Newest` | pkg/manager/manager.go:631-637 | the chosen provision has the latest creation, and is the first of those in the list |
| `Provisions.FetchedEntries` | pkg/manager/manager.go:616-668 | with distinct names the set given to log stripping names exactly the entries fetched in this sync |
| `Provisions.ListedNamesDistinct` | pkg/manager/mce.go:382-405 | the deployments of a sync have distinct names, because one is looked up per namespace under the namespace's name |
| `ProvisionObjects.ListManagedClusters` | pkg/manager/mce.go:382-405 | the loop over the namespaces gives the clusters and deployments that are found, in order |
| `ProvisionObjects.FindNewest` | pkg/manager/manager.go:631-637 | the loop finds that provision |
| `ProvisionObjects.MceClusters.SyncProvisions` | pkg/manager/manager.go:606-655 | the loop returns reused objects themselves and new objects for fetched ones, and modifies nothing |
| `ProvisionObjects.MceClusters.StripInstallLogs` | pkg/manager/manager.go:662-668 | only the objects of fetched names lose their logs |
| `ProvisionObjects.MceClusters.Sync` | pkg/manager/manager.go:410-566 | publishes the modelled cache and writes to no object that existed before the sync |
| `ProvisionObjects.MceClusters.SyncListed` | pkg/manager/manager.go:375-566 | a sync fed by that loop publishes the modelled cache without writing to an earlier object, and changes nothing when the namespaces cannot be listed |
| `ProvisionObjects.MceClusters.ProvisionForNotification` | pkg/manager/mce.go:45-58 | for a failed cached provision that the remote side still has, a new object equal to the remote one; otherwise the cached object itself, or none; the cache is not touched |
| `Notices.FailureAttemptsBounded` | pkg/manager/manager.go:1200-1241 | over any run of syncs failure reports number at most three per failure that begins, that is, where the last sync had cached another provision or stage or a deployment that had not failed; stored counts stay below three |
| `Notices.NoRepeatAfterDelivery` | pkg/manager/manager.go:1200-1223 | between a delivered failure report and the next attempt a failure begins |
| `Notices.ReadyNoticesBounded` | pkg/manager/manager.go:442-484 | in any run delivered readiness notices exceed the failed annotation updates by at most one, and attempts are at most three for each of those plus two per sync that drops the cluster |
| `Notices.OneReadyNotice` | pkg/manager/manager.go:442-554 | when annotation updates succeed a cluster gets at most one delivered readiness notice, and at most three attempts while it stays listed |
| `Notices.NoReadyOnceAnnotated` | pkg/manager/manager.go:442-446 | an annotated cluster is never notified again |
| `Notices.ReadyBoundsReached` | pkg/manager/manager.go:442-554 | for every number of syncs that drop the cluster and of failed updates some run reaches both bounds on readiness notices at once |
| `Notices.FailureFate` | pkg/manager/manager.go:485-507 | over consecutive syncs in which a listed, unavailable, notifiable cluster fails in the same provision, or in its deployment without one: if the sync before had cached something else, or a report is owed, it is tried in exactly the syncs before the first delivery while attempts are left of the three, and delivered in exactly the first of them in which log and notifier are available; if not, it is never tried |
| `Notices.ReadyFate` | pkg/manager/manager.go:442-484 | over any run in which the cluster stays ready and annotations can be written, it is tried until the first delivery or the third attempt, delivered at most once and at the first chance, and annotated from then on |
| `Notices.ReusedIsNotNew` | pkg/manager/manager.go:1188-1190 | a failure whose provision was kept from the cache, after a failed call too, does not begin in that sync |
| `Notices.OnsetIff` | pkg/manager/manager.go:1188-1190 | of two consecutive syncs the later sees a failure begin if and only if the earlier saw a provision, and not this one failed; for a deployment without provision, if and only if the earlier saw a deployment that had not failed |
| `Notices.TriesIff` | pkg/manager/manager.go:442-507 | at any point of any run, a failure report is tried exactly for an unavailable, notifiable cluster whose failure begins or whose failure is still there and owed, and a readiness notice exactly for an available, notifiable one with credentials and a deployment that is not annotated |
| `Notices.OwedAfter` | pkg/manager/manager.go:521-554 | when counts and annotation remain after a sync: with the cluster and the failure, while nothing is tried, and after an undelivered first or second attempt, which adds one |
| `Notices.RecordAttempt` | pkg/manager/manager.go:1228-1241 | the count goes up by one or, at three, is dropped with a give-up; no other count changes |
| `Notices.KeepOnly` | pkg/manager/manager.go:541-554 | the closing loops delete exactly the counts of clusters outside the given set |
| `Notices.NoticeManager.NotifyMceFailure` | pkg/manager/manager.go:1200-1223 | the method makes the modelled change to the one cluster's count |
| `Notices.NoticeManager.Sync` | pkg/manager/manager.go:416-554 | a sync steps every cluster as modelled, whatever the iteration order, and stored counts are always 1 or 2 |
| `Jobs.CapacityHolds` | pkg/manager/manager.go:2493-2575 | in every run of launches, failed starts, terminations and sweeps from empty maps, active launches never exceed `maxClusters` and one user's other jobs never exceed 24 |
| `Jobs.OtherJobsReach24` | pkg/manager/manager.go:2546-2554 | 24 other jobs of one user can be reached |
| `Jobs.OneLaunchPerUser` | pkg/manager/manager.go:2498-2520 | while no failed start hits a user who has another launch, no user ever has two active launches |
| `Jobs.FailStartSafeIff` | pkg/manager/manager.go:2565-2575 | from any state of a clean run, after a failed start no user has two active launches in any continuation with clean starts, if and only if the user had no other active launch or the bot runs at most one cluster |
| `Jobs.CleanRunIsExclusive` | pkg/manager/manager.go:2498-2575 | every state of a run with clean starts meets what is asked there: each active launch is named by its owner's request, and the limit holds |
| `Jobs.FailedTestAllowsSecondLaunch` | pkg/manager/manager.go:2565-2575 | a test job that fails to start lets its user launch a second cluster |
| `Jobs.TerminateThenLaunch` | pkg/manager/manager.go:2660-2676 | after terminating the running cluster the user's next launch is admitted, without raising the number of active launches |
| `Jobs.FailedStartUndoesIff` | pkg/manager/manager.go:2556-2574 | a failed start restores the maps from before the admission if and only if the name was new and the user had no request |
| `Jobs.LaunchBlocksNext` | pkg/manager/manager.go:2498-2558 | a launch below the limits is admitted and blocks the user's next one |
| `Jobs.LaunchAnswers` | pkg/manager/manager.go:2498-2558 | a launch is told the cluster is up exactly when the requested job has credentials, and refused exactly when the user is otherwise held up by a job without failure or the clusters in use reach the limit; else the request is entered, the failed job it replaces is forgotten and nothing else changes |
| `Jobs.OtherJobAnswers` | pkg/manager/manager.go:2545-2558 | any other job is refused exactly when the user has more than 23 of them, and touches no request |
| `Jobs.TerminateAnswers` | pkg/manager/manager.go:2660-2676 | the job is failed and complete and expires fifteen minutes later, the user's request goes only if it names it, and nothing else changes |
| `Jobs.TerminatedLingers` | pkg/manager/manager.go:2660-2676 | over every run that does not name it a terminated job stays known until a sweep more than fifteen minutes later, and is gone from then on |
| `JobRecovery.RestartRecovers` | pkg/manager/manager.go:874-1120 | after the first sync from empty maps a user has a request if and only if the first pending launch listed is at most twice `maxAge` old; it names that job, which is tracked and unfailed, and another launch is refused |
| `JobRecovery.ShortLivedRecovered` | pkg/manager/manager.go:1047-1120 | users whose pending launches all live at most twice `maxAge` are recognized |
| `JobRecovery.BotLaunchesRecovered` | pkg/manager/prow.go:334-397 | users whose pending launches carry the expiry the bot writes are all recognized |
| `JobRecovery.LongLivedHidesOthers` | pkg/manager/manager.go:1047-1120 | a longer-lived launch listed first makes the user forgotten |
| `JobSync.SyncTracks` | pkg/manager/manager.go:874-1105 | after a sync from any maps, a listed ProwJob with inputs and readable parameters, in a state the sync follows and not over, is tracked under its name: failed if and only if its state is failure, complete if and only if it has a completion time, ending fifteen minutes after completion or else after the annotated lifetime or `maxAge` |
| `JobSync.SyncKeeps` | pkg/manager/manager.go:874-1114 | every other job is as before, until its time is over |
| `JobSync.SyncKeepsRequest` | pkg/manager/manager.go:1050-1120 | a request stays as it is for twice `maxAge`, and nobody gets one without a pending launch whose job was not complete |
| `JobSync.SyncOpensRequest` | pkg/manager/manager.go:1047-1120 | a user without a request gets that of the first such launch, if it is at most twice `maxAge` old |
| `JobSync.NextLaunch` | pkg/manager/manager.go:2498-2520 | after a sync from any maps the next launch of a user whose requested job failed is admitted exactly when a cluster is free, and the failed job is forgotten; with a job that has not failed it is refused |
| `JobManager.Manager.LaunchLocked` | pkg/manager/manager.go:2493-2559 | the locked section gives the modelled maps and reply |
| `JobManager.Manager.CountActive` | pkg/manager/manager.go:2522-2527 | the loop counts the active launches |
| `JobManager.Manager.CountOthers` | pkg/manager/manager.go:2546-2551 | the loop counts the user's other jobs |
| `JobManager.Manager.CleanupFailedStart` | pkg/manager/manager.go:2568-2572 | deletes the user's request and the job |
| `JobManager.Manager.MarkTerminated` | pkg/manager/manager.go:2660-2676 | marks the job and clears the request if it still names it |
| `JobManager.Manager.SweepJobs` | pkg/manager/manager.go:1108-1114 | deletes exactly the expired jobs |
| `JobManager.Manager.SweepRequests` | pkg/manager/manager.go:1115-1120 | deletes exactly the requests older than twice `maxAge` |
| `JobManager.Manager.SyncProwJobs` | pkg/manager/manager.go:861-1124 | the sync loop gives the modelled maps |
| `JobParams.ParamsFromAnnotation` | pkg/utils/utils.go:74-95 | the loop parses as modelled, including each refusal |
| `JobParams.ParseExactly` | pkg/utils/utils.go:74-95 | a text is refused exactly when one of its parts names nothing; otherwise a name has the value its last part spells after the first `=`, and no other names are there |
| `JobParams.ParamsToString` | pkg/manager/manager.go:355-369 | the text joins the sorted pairs of exactly the entries with a name, each once, whatever the iteration order |
| `JobParams.PrintedUnique` | pkg/manager/manager.go:355-369 | a map has one printed form |
| `JobParams.PrintParse` | pkg/manager/manager.go:355-369 | the printed form parses back to the map if and only if names are trimmed, non-empty and free of `,` and `=`, and values free of `,` |
| `JobParams.PairsParse` | pkg/utils/utils.go:74-95 | the same for the pairs in any order |
| `JobParams.ParsePrintParse` | pkg/utils/utils.go:74-95 | parsing, printing and parsing an accepted text gives the same map |
| `Options.ParseOptions` | pkg/slack/slack.go:655-746 | the result is the order-free meaning of the parsed options, including every refusal and the panic on an empty first input |
| `Options.ParseWords` | pkg/slack/slack.go:660-700 | the loop accepts exactly the acceptable options and reads platform, architecture and remaining parameters, in every iteration order |
| `Options.OrderIrrelevant` | pkg/slack/slack.go:661-700 | folding the loop over any enumeration of the options gives that reading |
| `Options.ChoiceIsSupported` | pkg/slack/slack.go:661-746 | on success the remaining parameters are supported and unchanged, platform and architecture come from the lists or defaults, and `hypershift-hosted` goes with `multi` only |
| `Options.ChosenIff` | pkg/slack/slack.go:661-746 | options are answered with a choice if and only if they are acceptable and can be served and the choice has the platform and architecture they name, or the defaults (`aws`, or `hypershift-hosted` where it is served and the architecture is open or `multi`; `amd64`, or `multi` on `hypershift-hosted`), and exactly the other options with their values |
| `Options.HostedIff` | pkg/slack/slack.go:704-728 | hypershift serves exactly installs and launches of one input that starts with a served version, and, if the current version is served, those without inputs or whose first input is `nightly`, `ci` or `prerelease` |
| `Options.ChoiceFailsIff` | pkg/slack/slack.go:701-744 | acceptable options fail only for an architecture without a default platform, or for `hypershift-hosted` with another architecture than `multi` |
| `Options.HypershiftIff` | pkg/slack/slack.go:701-744 | acceptable options give `hypershift-hosted` if and only if the architecture is `multi` or open and they name it, or name no platform where it is served |
| `Options.PanicsIff` | pkg/slack/slack.go:701-730 | the parse panics exactly for acceptable options without a platform and with no architecture or `multi`, in a normal launch whose first input is empty, when the current version is served or there is one input and any version is served |
| `Links.StripLinks` | pkg/utils/utils.go:47-72 | the loop terminates and replaces every link by its text |
| `Links.StripRender` | pkg/utils/utils.go:47-72 | stripping a message rendered from plain text, `<url>` and `<url\|label>` gives exactly the visible text |
| `Inputs.AppendPull` | pkg/manager/manager.go:1896-1906 | the loop joins the pull request to its repository's entry or opens one |
| `Inputs.LookupInputs` | pkg/manager/manager.go:1873-1933 | the nested loops read the inputs as modelled, including each refusal and the default |
| `Inputs.GroupingFaithful` | pkg/manager/manager.go:1886-1926 | repositories are distinct, each with exactly its pulls in the given order, and the image is the only one given |
| `Inputs.Arm64HasRunner` | pkg/manager/manager.go:1919-1924 | an accepted arm64 input with an image has a runner image and a version, unless it is konflux |
| `Inputs.GroupingConserves` | pkg/manager/manager.go:1895-1906 | every pull is kept as often as it was given |
| `Inputs.LookupFaithful` | pkg/manager/manager.go:1886-1932 | the same for every input of an accepted list, one result per input |
| `Inputs.AcceptedIff` | pkg/manager/manager.go:1886-1926 | an input is accepted if and only if every part resolves, at most one is a release, and on arm64 that has a runner and a version or is konflux; image, version and run image are those of the release, and empty without one |
| `Inputs.LookupIff` | pkg/manager/manager.go:1884-1932 | a list is accepted if and only if all its inputs are |
| `Inputs.LookupVersions` | pkg/manager/manager.go:1923-1930 | every input of an accepted list has the image, version and run image of its release; without a version it takes that of its first repository; entries stand in the order in which repositories come up, on the base of their first pull request |
| `Inputs.NothingAsked` | pkg/manager/manager.go:1873-1882 | where nothing is asked for the result is the nightly release alone, and any other list is looked up as it is |
| `Resolver.FindNewestTag` | pkg/manager/manager.go:1799-1814 | the loop finds the modelled pick |
| `Resolver.NewestTagIsNewest` | pkg/manager/manager.go:1799-1814 | the pick is an accepted tag of the stream with a maximal creation stamp, the first of those; none only without candidates |
| `Resolver.Resolve` | pkg/manager/manager.go:1582-1757 | rewriting `nightly`, `ci` and `prerelease` in place gives what rewriting once and taking the first readable stream with a result or error gives |
| `Resolver.VerdictIff` | pkg/manager/manager.go:1591-1757 | for what a requested name stands for (`nightly`, `ci` and `prerelease` the builds of the current release): nothing is found if and only if no readable stream has a status item, accepted tag, spec tag or stable pick for it or lacks its amd64 companion; else the first such stream decides, with a failure if and only if the companion or the runner is missing, and otherwise with the newest accepted tag, the tag of the name or the stable pick in the order of preference, run by itself on amd64 and multi and elsewhere by the matching amd64 release (konflux names excepted) |
| `Resolver.VersionIff` | pkg/manager/manager.go:1599-1600 | a name is taken as a version exactly when it is two numbers with a dot between them |

## Left out

- Slack transport, modals, help texts and routing; metrics, logging and process set-up.
- `newJob`, `waitForJob`, `finishedJob`, operator handling and the job scripts: the capacity bounds cover launches, failed starts, terminations and sweeps only.
- Key creation, BigQuery logging, base64 and HTTP are calls that succeed or fail; a condition's description is only its justification.
- RFC 3339 text: a condition is modelled by the time that can be read from it, to whole seconds when the bot wrote it.
- The account name of users whose encoded name is longer than 19 characters is cut (`AccountNames.LongBase`); nothing is claimed about decoding it.
- Bot restarts and outside edits of the IAM policy are not part of the access runs.
- The semantic-version library and the pick of the newest stable tag are parameters of `Resolver.Env`; the list of streams of an architecture shares one suffix.
- `ResolveAsPullRequest` and the resolution of a part to an image are given as the resolved parts.
- The texts of error messages, the suggestion of a close option name, and the waiting-time estimate.
- Credential caching of the MCE sync, deletion of expired clusters, and cluster counting metrics.
- AWS resource clean-up and the password secret of ROSA clusters, apart from the update loop of the secret.
- ROSA cluster ids are taken not to be used again while the bot knows them (`RosaPublication.FreshIds`).
- `ParseImageInput`, version and regular-expression checks.
- `JobRecovery.RestartRecovers` and the lemmas of `JobSync` take the names of the listed ProwJobs as distinct, and `Provisions.ListedNamesDistinct` those of the listed namespaces, as the API server guarantees for one kind in one list.
- The launch command never passes an empty first input to `Options.ParseOptions`; that is not modelled.
