# RosPanel, verified

Dafny models of the parts of RosPanel that hold state every run and every interleaving must keep, and
proofs of what they keep. Each file is one module; `dafny verify dfyconfig.toml` checks the project.

RosPanel is a VPN control plane. Interleaved code is modelled as a transition system (a state, its steps,
and theorems over all runs); sequential code as classes and methods with the source's own loops, tied to
those systems or to specification functions. Time is an integer that does not go backwards, the store is
maps with the transactions the code describes, and outputs (notices, webhooks) are history.

| file | what it models |
|---|---|
| `ReloadLoop.dfy` | the one-slot channel and the structural flag that feed the reload loop |
| `ConfigApply.dfy`, `ApplyState.dfy` | live user sync, full reconcile and the rekey protocol against Xray as a map from user to key version; the bookkeeping both share |
| `AlertRules.dfy`, `AlertRuns.dfy`, `AlertAgreement.dfy`, `AlertEngine.dfy` | alert rules per (rule, server): hold time, cooldown, peak, what rows and all-clears tell; agreement of engine and store over sweeps, edits and restarts; the engine's own loops |
| `Cascade.dfy`, `CascadeBridges.dfy` | the graph search that keeps cascades from looping, and the two ends of each bridge |
| `Plans.dfy`, `Claims.dfy`, `Orders.dfy`, `Terms.dfy`, `Till.dfy` | what a plan writes, the transaction that settles an order and rewards a referrer, payment orders under racing confirmers, paid terms over whole runs of them, and billing as it changes the store |
| `Restore.dfy`, `DbRecovery.dfy` | crash-safe restore, and recovery from a corrupt database |
| `IpAddress.dfy`, `IpMatcher.dfy` | prefixes down to their bits and bytes, and the blocklist matcher |
| `AbuseMeasures.dfy` | warning, throttle and switch-off beside an operator |
| `Sightings.dfy`, `SightingBuffers.dfy` | the bounded buffers of sightings and matches, and the throttle |
| `AnyTlsServer.dfy`, `UdpStream.dfy`, `UdpServe.dfy` | the AnyTLS registry, and a UDP stream's table of tunnels refining a recency list |
| `BruteGuard.dfy` | the proxy brute-force guard against one that prunes nothing |
| `AwgRange.dfy`, `AwgChain.dfy`, `AwgParams.dfy` | AmneziaWG parameters: texts, chains, validation, random blocks |
| `Common.dfy` | optional values, sums of maps, facts about finite sets |

Where a property turned out false of the code, the code is modelled as it is, a counterexample is given,
and the exact condition under which the code meets the property is proved; the rows below say which. The
conditions found:

- a live sync loses a key version exactly if Xray restarts between the API update and the write of
  config.json while config.json has an older key of a user whose rekey the sync then clears; a pass ends
  with every key current only if nobody recorded as applied had dropped out of Xray;
- an alert row is orphaned if an edit forgets a rule that has an open row, as when a sweep fires between
  the edit's close and its forgetting;
- switching a server back on is not checked for loops;
- a payment of a deleted user is claimed and credits nobody, unless its transaction looks for their referrer
  or writes their groups: then it is rolled back, and the order stays open;
- a running paid plan is replaced exactly by a payment for another plan confirmed with the wallet off;
- a restore resumed after a crash drops an archive's own top-level WAL or SHM file once it is in place
  (the panel's own backups never carry one);
- a recovery that dies leaves no database, and reads as a fresh install, exactly if the database has been
  renamed away or removed and nothing has landed one since: from the quarantine's first rename to the
  first unpacking or the put-back's rename, and again between the put-back's removal and its rename; one
  that dies between an archive's database and its key leaves the two unpaired, and one that runs out of
  archives leaves the original beside the key written last;
- an IPv6 prefix shorter than 96 bits that holds the IPv4-mapped block matches no mapped destination, and
  one of 80 bits or more of these matches nothing; a zone takes a block's last address out of it;
- an operator's switch-off during a switch-off measure is undone by the lift, and a lift works from a
  list that a setting by hand may have overtaken;
- proxy attempts made during a ban are not counted, which shows exactly in the minute after the ban;
- a parameter range that runs backwards does not survive the store or JSON.

## Model

| member | source | states |
|---|---|---|
| `ReloadLoop.NoRequestIsLost` | internal/core/manager.go:902-958 | in every interleaving of the flag store, the non-blocking send, the drain and the swap: once the loop is blocked on an empty channel with no trigger halfway, each earlier user-sync request was followed by a pass and each earlier reconcile request by a full one |
| `ReloadLoop.HalfwayTriggersOweOnlyThemselves` | internal/core/manager.go:797-800 | while triggers are halfway, nothing is owed but what those very triggers asked for |
| `ReloadLoop.LoopAloneAnswersEverything` | internal/core/manager.go:916-959 | left to itself from any reachable state, the loop settles in a bounded number of its own steps with every request answered |
| `ReloadLoop.RunKeepsInv` | internal/core/manager.go:909-959 | every state of a run has an owed request backed by the flag, the channel, the pass coming or a trigger halfway |
| `ReloadLoop.OwedIsUnanswered` | internal/core/manager.go:902-914 | the request flags of the history say exactly that some request has no later answer |
| `ConfigApply.NoStaleKeyIsForgotten` | internal/core/manager.go:986-1126 | over any interleaving of credential writes, marks, live syncs, full reconciles, failures, Xray deaths and restarts, but for the restarts that lose a key (RestartForgetsIff says which): an applied user whose key on Xray or in config.json is older than the stored one is still marked rekeyed, or its writer has yet to mark it |
| `ConfigApply.StepKeepsInv` | internal/core/manager.go:1165-1244 | each single step of the store, of Xray and of either pass keeps what that rests on |
| `ConfigApply.RestartKeepsInvIff` | internal/core/manager.go:1084-1098 | between the API update and the write of config.json a restart of Xray keeps what that rests on exactly if config.json holds no older key of a carried user whose rekey the sync is about to clear |
| `ConfigApply.RestartForgetsIff` | internal/core/manager.go:1084-1098 | left to itself after such a restart, the sync ends with an applied user on an old key that nothing marks exactly if that condition fails |
| `ConfigApply.SyncEndsCurrent` | internal/core/manager.go:986-1098 | a live sync with nothing beside it ends with applied equal to the working set and no rekey pending, and with every stored key on Xray exactly if nobody applied was missing there |
| `ConfigApply.FullEndsCurrent` | internal/core/manager.go:1165-1195 | a full reconcile with nothing beside it ends with applied equal to the working set, and with every stored key on Xray exactly if the supervisor did not skip the apply, or skipped it with everybody still there |
| `ConfigApply.QuietDiffResult` | internal/core/manager.go:1029-1098 | the whole effect of a live sync that found something to do |
| `ConfigApply.QuietSyncResult` | internal/core/manager.go:986-1098 | the whole effect of a quiet live sync from its start, nothing to do included |
| `ConfigApply.QuietFullResult` | internal/xray/supervisor.go:612-634 | the whole effect of a full reconcile, skipped apply included |
| `ConfigApply.RestartInWindowForgetsARekey` | internal/core/manager.go:1084-1098 | counterexample run: Xray restarted between the API update and the write of config.json comes back with an old key that nothing will replace |
| `ConfigApply.FailedSyncLosesAUser` | internal/core/manager.go:962-976 | counterexample run: a live update that fails after its removals leaves a user recorded as applied and off Xray; let back in before the full reconcile that follows has read, that reconcile skips its apply and no live sync after it puts the user back |
| `ConfigApply.SkippedApplyLosesAUser` | internal/xray/supervisor.go:621-634 | counterexample run: the supervisor's comparison with the config it started from skips an apply although live syncs have moved the process since |
| `ConfigApply.FailedStartIsTakenUp` | internal/xray/supervisor.go:676-720 | after a reconcile whose process will not start, the next restart brings up exactly the users it read, and nothing is recorded as applied |
| `ApplyState.Registry.MarkRekeyed` | internal/core/manager.go:1234-1244 | the next sequence number is issued and recorded under the user |
| `ApplyState.Registry.RekeyedUpTo` | internal/core/manager.go:1247-1251 | for every state it holds, the number the count step of a live sync and of a full reconcile goes on with; every rekey marked so far is among those an apply under it carries |
| `ApplyState.Registry.ClearRekeyed` | internal/core/manager.go:1222-1230 | exactly the marks an apply carried are forgotten |
| `ApplyState.Registry.SetApplied` | internal/core/manager.go:1209-1218 | applied becomes the ids applied, and the marks they carried go |
| `ApplyState.Registry.WorkingIDsChanged` | internal/core/manager.go:1256-1268 | true exactly when the working set differs from the applied one or a rekey is pending |
| `ApplyState.Registry.DiffUsers` | internal/core/manager.go:1029-1048 | the removals and additions the state machine computes, each user once |
| `AlertRules.FiringsAreEarned` | internal/core/manager_alerts.go:329-419 | in every run: a firing is told only at the end of an unbroken stretch of sweeps, as long as the rule asks, that each read a figure strictly above the threshold for an above rule and strictly below it for a below rule, and never within the cooldown of the pair's previous clear while its state is kept; an all-clear only at a figure that is not beyond it; either with the time and figure of its sweep |
| `AlertRules.PeaksAreExtreme` | internal/core/manager_alerts.go:382-401 | in every run: the peak of an all-clear is one of the figures that held since the firing (or the restored peak), and under one direction none is above it for an above rule, none below it for a below rule |
| `AlertRules.HeldLongEnoughFires` | internal/core/manager_alerts.go:402-418 | and it does fire: a figure strictly beyond the threshold, in the rule's direction, at every sweep of a stretch as long as the rule asks is firing at its end, whatever failed on the way, unless the pair cleared less than ten minutes ago or that row cannot be stored |
| `AlertRules.FiresThenClears` | internal/core/manager_alerts.go:373-419 | a firing comes and goes with the figure: held by a stretch strictly beyond the threshold, its row closed at once and an all-clear for it told by the first figure that is not |
| `AlertRules.StepKeepsTimed` | internal/core/manager_alerts.go:291-369 | sweep starts, visits, orphan closings, edits, restarts and retention all keep the hold-time and cooldown invariants |
| `AlertRules.WorstIsExtreme` | internal/core/manager_alerts.go:392-401 | figures folded one by one under one direction give the greatest of them, or the least |
| `AlertRules.FailuresAreRetried` | internal/core/manager_alerts.go:379-417 | a close that fails leaves the firing held, open and untold; a row that cannot be stored leaves the time counting; a peak that cannot be stored is still the engine's |
| `AlertRuns.DueStretchFires` | internal/core/manager_alerts.go:291-419 | in every run, while the engine keeps the pair: if every sweep from its next visit on has read a figure strictly beyond the threshold of the rule it was read under, for as long as the rule now asks, the pair is firing after the visit, unless it cleared less than the cooldown ago or that row cannot be stored, whatever else happened meanwhile |
| `AlertRuns.AllClearsNameTheirFiring` | internal/core/manager_alerts.go:373-419 | in every run an all-clear tells the pair, id, time and figure a firing told before it; while no peak fails to be stored, the open row of every firing held shows its time, figure and peak |
| `AlertRuns.RowsAreHistory` | internal/store/alerts.go:160-211 | in every run a row stays, with its pair, time and figure, until retention takes it, exactly if it was closed before the cutoff; once closed nothing of it changes |
| `AlertAgreement.AgreementHolds` | internal/core/manager_alerts.go:291-369 | over any run in which nothing open is forgotten: the store's open rows and the engine's held ids agree, no pair is told as fired twice without its row closed in between, and an all-clear is about the pair's last firing, whose row is closed |
| `AlertAgreement.AgreementIsExact` | internal/core/manager_alerts.go:297-310 | with no edit underway: a row is open for a pair exactly when the engine holds its id |
| `AlertAgreement.ForgetAgreesIff` | internal/core/manager_alerts.go:183-191 | forgetting a rule's pairs keeps the agreement exactly when the rule has no open row by then |
| `AlertAgreement.OrphanAgreesIff` | internal/core/manager_alerts.go:353-367 | dropping an orphaned pair keeps it exactly when its row was closed first |
| `AlertAgreement.UndisturbedEditIsClean` | internal/core/manager_alerts.go:161-167 | an edit no sweep comes into meets that condition when its close succeeds |
| `AlertAgreement.EditCanOrphanARow` | internal/core/manager_alerts.go:134-169 | counterexample run: a sweep firing between an edit's close and its forgetting leaves an open row nobody holds, and the same firing is announced again beside it |
| `AlertAgreement.StepKeepsInv` | internal/core/manager_alerts.go:291-419 | each step that forgets nothing open keeps the agreement and the history of notices |
| `AlertEngine.AlertEngine.StepPair` | internal/core/manager_alerts.go:373-419 | alertStep as written, on the engine's own maps, does what the transition does |
| `AlertEngine.AlertEngine.VisitSample` | internal/core/manager_alerts.go:317-336 | one pair of a sweep is one visit of the transition system, with the figure the server reported |
| `AlertEngine.AlertEngine.VisitRule` | internal/core/manager_alerts.go:313-351 | one enabled rule visits every reporting server it watches and only rests the silent ones |
| `AlertEngine.AlertEngine.CloseOrphans` | internal/core/manager_alerts.go:353-367 | every pair not found live is dropped, and only those, its close failing exactly for the pairs the store fails for |
| `AlertEngine.AlertEngine.ReadOpen` | internal/core/manager_alerts.go:297-309 | each pair with an open row is restored from one of its open rows |
| `AlertEngine.AlertEngine.Eval` | internal/core/manager_alerts.go:291-369 | a sweep is a run of the transition system that visits exactly the due pairs with the right figures, drops the rest with exactly the closes that fail failing, and owes exactly the notices the run tells; with none failing it keeps store and engine in agreement; if the store cannot be read back it does nothing |
| `AlertEngine.SweepKeepsAgreement` | internal/core/manager_alerts.go:291-369 | every run made of sweep steps whose orphan closes succeed keeps the agreement and the history of notices |
| `AlertEngine.AlertEngine.HoldsWhatIsOpen` | internal/core/manager_alerts.go:297-310 | with no edit underway the engine's own maps hold an id for a pair exactly when the store's row of that id is open for it |
| `AlertEngine.AlertEngine.ForgetRule` | internal/core/manager_alerts.go:183-191 | exactly the rule's pairs are dropped |
| `AlertEngine.AlertEngine.SaveRule` | internal/core/manager_alerts.go:134-169 | a change of condition or a switch-off closes the rule's firings and then forgets its pairs, a rename does neither; undisturbed and with the close succeeding it keeps store and engine in agreement |
| `AlertEngine.AlertEngine.DeleteRule` | internal/core/manager_alerts.go:172-181 | a deletion closes and forgets, and keeps the agreement |
| `Cascade.LoopsBack` | internal/core/manager_cascade.go:390-417 | the search with a seen set terminates and answers true exactly when the target is reachable over enabled lanes of in-service servers |
| `Cascade.ValidateCascade` | internal/core/manager_cascade.go:326-377 | a routing is accepted exactly if no exit of an enabled, changed lane is objected to, and a refusal is the first objection in the code's order; AcceptedIffDialed and RefusalSaysWhy say what that means to the links built |
| `Cascade.AcceptedRoutingKeepsAcyclic` | internal/core/manager_cascade.go:326-377 | if no cascade loops, none does after any accepted routing is saved, although unchanged lanes are not looked at |
| `Cascade.RefusedRoutingWouldLoop` | internal/core/manager_cascade.go:346-372 | a routing refused for a loop or for naming its own server would have closed one |
| `Cascade.LoopsRunThroughNewEdges` | internal/core/manager_cascade.go:390-417 | a server's edges close a loop exactly when one of their ends leads back to it over the rest of the graph |
| `Cascade.EnablingKeepsAcyclic` | internal/core/manager_cascade.go:51-68 | switching a server back on, which is not checked, keeps the graph free of loops exactly when none of its exits leads back to it |
| `Cascade.EnablingCanCloseALoop` | internal/core/manager_cascade.go:51-68 | counterexample: three accepted edits, one saved while its exit was off, loop when the server is switched on |
| `CascadeBridges.CascadeFor` | internal/core/manager_cascade.go:81-114 | the upstreams of each lane id: links to the lane's exits that are in service, not the entry itself and on, in order, the last lane with any winning |
| `CascadeBridges.BridgesFor` | internal/core/manager_cascade.go:137-171 | exactly the bridges some enabled lane of an in-service entry uses, each once, in order of entry |
| `CascadeBridges.EntryBridges` | internal/core/manager_cascade.go:149-168 | one entry's bridges: one for each lane name its enabled lanes use for this exit |
| `CascadeBridges.AddBridgeClients` | internal/xray/cascade.go:32-50 | each bridge's credential on the built-in lane its name stands for, if that lane is on |
| `CascadeBridges.DialedIsListed` | internal/core/manager_cascade.go:81-171 | whatever an entry dials, its exit lists exactly once with the same credential and takes as a client of the lane the link runs over |
| `CascadeBridges.ListedIsDialed` | internal/core/manager_cascade.go:81-171 | whatever an exit lists on a lane that is on, the entry dials |
| `CascadeBridges.AcceptedIffDialed` | internal/core/manager_cascade.go:326-377 | once saved, and with its lane ids distinct, a routing has one upstream per exit, in order and over that exit's bridge, for each of its new or changed lanes, and none of these exits leads back, exactly if the check accepts it |
| `CascadeBridges.RefusalSaysWhy` | internal/core/manager_cascade.go:354-372 | what is wrong with the exit a refusal stopped at; one refused because its connection is off is one the saved routing would leave undialed |
| `CascadeBridges.ClientsAreEntries` | internal/xray/cascade.go:32-50 | an exit takes as clients of a built-in lane, while it is on, exactly the entries with an enabled lane that leaves through it over a bridge of that lane |
| `CascadeBridges.ExitInUse` | internal/core/manager_cascade.go:420-435 | refused exactly when another in-service server leaves through this one |
| `Plans.PurchaseGivesAccess` | internal/core/manager_billing.go:781-841 | after any bought non-free plan: a term with no end or a future one, and a quota unlimited or unspent |
| `Plans.RenewalMovesTheEnd` | internal/core/manager_billing.go:808-820 | a renewal moves the end by exactly the days bought if and only if the term had not run out; never by less |
| `Plans.RefillSurvivesRenewal` | internal/core/manager_billing.go:857-870 | a quota bought for several periods keeps its per-period refill through a later single renewal |
| `Plans.OnlyPurchasesRefill` | internal/core/manager_billing.go:827-856 | re-assigning the plan held keeps the counter and the traffic bought on top; another plan, or a period paid for on a limited one, starts the counter over and drops it |
| `Plans.PlanGivesWhatItSells` | internal/store/billing.go:440-505 | once a plan is written the user has its speed, its groups beside those given by hand, and its devices with the extra ones asked for, or the ones held where they are kept: never more than it sells, none where it sells none |
| `Plans.QuotaRefills` | internal/core/manager_billing.go:623-633 | a quota refills by the plan's own cycle, every period of a free plan, and every period of several bought at once; a paid plan's otherwise runs over all the time bought, and nothing refills without a quota |
| `Plans.RefillIsCountedFrom` | internal/core/manager_billing.go:857-870 | the refill is counted from now, but from where it was while it and the counter are kept |
| `Plans.ManualModeKeepsTheCounter` | internal/core/manager_billing.go:783-790 | manual mode takes away the plan with its term, quota, devices, speed and groups, and leaves the counter, what was given by hand and the days in the bank |
| `Plans.TermIsCounted` | internal/core/manager_billing.go:803-814 | a free plan, and one without days, has no end; any other ends the days given after the term it extends, if that still runs, and else after now |
| `Orders.ClaimHasOneOutcome` | internal/store/wallet.go:187-258 | a claim of an open order has exactly one outcome: the plan's columns written, banked days used up and the balance moved by minus its part of the price, or no plan and the whole payment on the balance; nobody else is touched but by what a referrer earns |
| `Orders.ClaimChangesNothingIff` | internal/store/wallet.go:187-258 | a claim changes nothing exactly if the order is already paid, or its transaction finds nobody to write for: the user is gone, and a referrer is due a share, or a plan bought without the balance is due days for a referrer or puts its user in groups; otherwise the order is paid |
| `Orders.MoneyIsConserved` | internal/core/manager_billing.go:920-1002 | in every run of racing confirmers: each order is claimed at most once and stays paid, and money received plus old balances and what referrers earned equals new balances, the price of plans granted, and payments of users who are gone |
| `Orders.LostIff` | internal/store/wallet.go:187-258 | money is lost exactly by claiming an open payment of a user who no longer exists when the transaction finds no need of them: no referrer is looked for and no groups are written |
| `Orders.TopupOfADeletedUserIsLost` | internal/store/wallet.go:187-209 | counterexample run: the top-up of a deleted user becomes paid and credits nobody |
| `Orders.DecisionIsFair` | internal/core/manager_billing.go:935-990 | whatever a confirmation decides either banks the whole payment or grants a plan and debits exactly the balance's part |
| `Orders.GrantedPlanGivesAccess` | internal/core/manager_billing.go:974-990 | in every run, the plan a claim grants gives its user access at the clock it was decided by, whatever happened to the counter meanwhile |
| `Orders.DowngradeSparesTheFuture` | internal/core/manager_billing.go:1149-1164 | an expiry sweep, however stale its list, moves to the free plan, its counter at zero, exactly a user whose term on another plan had ended by its tick, and touches no term that is endless or ends in the future |
| `Orders.RenewalIsGranted` | internal/core/manager_billing.go:905-990 | an order to renew the active plan for the devices held is granted as a renewal with the banked days on top, and leaves the next one in the same position |
| `Orders.FirstPurchaseIsGranted` | internal/core/manager_billing.go:974-990 | a user with no active paid plan gets the plan they paid for, from now on, with the banked days if it has a term |
| `Orders.PaidTermOnlyGrows` | internal/core/manager_billing.go:947-990 | with the wallet on, or for an order for the plan held, no decision shortens or replaces a running paid term: what it grants is the same plan, ending at least as many days later as were bought and banked, and exactly as many unless the term runs out before the end is computed |
| `Orders.ReplacedIff` | internal/core/manager_billing.go:947-990 | an order granted on a running paid plan replaces it exactly if it is for another plan and the wallet is off |
| `Orders.WithoutAWalletATermIsReplaced` | internal/core/manager_billing.go:947-960 | counterexample: without the wallet a payment for another plan replaces a running term |
| `Orders.BankedIff` | internal/core/manager_billing.go:951-1002 | a payment for a plan goes onto the balance exactly if the wallet is on and its code is used up or a running plan is another one or has no period, or if it renews the running plan for other devices than the user has; it fails exactly if it does not and there is no such plan |
| `Orders.RenewalKeepsDevices` | internal/core/manager_billing.go:968-981 | a renewal decided while the plan runs is granted only for the devices the user has, and leaves them so, as far as the plan still sells them |
| `Orders.OnlyTheFirstEarns` | internal/store/wallet.go:384-399 | where only a first payment counts: once one is on the books, every other claim of that user goes unrewarded, whatever happens in between |
| `Claims.RewardIff` | internal/store/wallet.go:366-441 | who earns what: a referrer who is there, from somebody else's payment that brought in money, the first of its kind where only that counts; a share of it, or days for a plan paid at least half with money, unless they are on a lifetime plan |
| `Claims.DaysGoOnTheTerm` | internal/store/wallet.go:416-446 | days earned lengthen a paid term that runs, and otherwise wait in the bank |
| `Terms.RunStaysReady` | internal/core/manager_billing.go:921-924 | in every run: what the lock holder is about to commit is what it would decide on the user's row as it now stands, traffic counted and referrers set meanwhile included, and no order is granted or rewarded twice |
| `Terms.ClaimMovesTheEnd` | internal/core/manager_billing.go:920-1002 | in every run: a claim for a paid term that ran when it was read, decided with the wallet on or for the plan held, leaves the row as it is or moves the end it has at the claim, on the same plan, by at least the days bought and banked, by exactly those exactly if the term had not run out when the end was computed |
| `Terms.ClaimReplacesIff` | internal/core/manager_billing.go:947-990 | in every run, whatever the settings: a claim puts a user off a running paid plan exactly by granting an order for another one decided with the wallet off |
| `Terms.ClaimKeepsDevices` | internal/core/manager_billing.go:968-981 | in every run: a claim that leaves a user on the plan that was running when their devices were looked at leaves them exactly the extra devices they had, as far as the plan still sells them |
| `Terms.RenewalsAddUp` | internal/core/manager_billing.go:905-1002 | from any reachable state and whatever the settings, over any run of racing confirmers, cancellations, deletions and stale expiry sweeps in which the user's paid term does not run out, nobody changes their row or the plan by hand, and no other plan is granted to them with the wallet off: the user stays on the plan, and the end with the days in the bank moves by exactly the days of the orders granted and of the rewards earned, each once |
| `Terms.AnyInterleavingAddsUp` | internal/core/manager_billing.go:921-924 | two such runs that grant the same, in whatever interleaving, leave the user the same time |
| `Terms.DevicesStay` | internal/core/manager_billing.go:968-981 | over all of such a run a user's extra devices on a plan that sells them stay: no renewal takes one away or adds one unpaid |
| `Till.PlanWriteForDays` | internal/core/manager_billing.go:781-872 | the plan write put together field by field, groups and speed cap included, is the one the properties are about; manual mode and an unknown plan included |
| `Till.Till.Credit` | internal/store/wallet.go:42-54 | adds to a known balance and reports an unknown user |
| `Till.Till.Debit` | internal/store/wallet.go:58-71 | takes the money only when the balance covers it |
| `Till.Till.MarkPaid` | internal/store/wallet.go:265-274 | won exactly while the order is pending or cancelled |
| `Till.Till.Deliver` | internal/store/wallet.go:218-236 | the plan for the balance's part of the price, or nothing; the groups of a user who is gone fail it |
| `Till.Till.Settle` | internal/store/wallet.go:203-239 | credit, top-up marking, delivery and the fall-back to a top-up together are the settlement of the claim |
| `Till.Till.Reward` | internal/store/wallet.go:361-453 | the referrer earns exactly what the transition system says: a share of the money on the balance, or days on a running paid term or in the bank; it fails exactly if it is due for a user who is gone |
| `Till.Till.SettleAndReward` | internal/store/wallet.go:203-245 | settlement and reward one after the other, and exactly when one of them fails |
| `Till.Till.ConfirmOrder` | internal/store/wallet.go:187-258 | the transaction is the claim of the transition system, rolled back as a whole exactly if it finds nobody to write for, and says whether it won and delivered |
| `Till.Till.ConfirmOrderPaid` | internal/core/manager_billing.go:920-1002 | a confirmation is one decision and, unless that fails, one claim, with the lock held throughout; a claim won is an open order paid, an error claims nothing; BankedIff says what is decided |
| `Till.Till.DowngradeExpired` | internal/core/manager_billing.go:1149-1176 | the re-checked downgrade of one user |
| `Till.Till.EnforceBilling` | internal/core/manager_billing.go:1109-1143 | every user on another plan whose term had ended by the tick is on the free one after, with its quota, the counter at zero and no end, and nobody else changes |
| `Restore.DataDir.ApplyPending` | internal/backup/backup.go:241-267 | wherever it stops, each archived entry is still staged or already in place; when it reports applied or nothing pending, the data directory is complete; enough operations always finish it |
| `Restore.DataDir.MoveEntries` | internal/backup/backup.go:254-265 | the entries moved one by one keep that, a removal cut short included |
| `Restore.DataDir.DropSidecars` | internal/backup/backup.go:246-249 | every sidecar that could be removed is gone, a failure being passed over |
| `Restore.DataDir.BootUntilUp` | cmd/rospanel/service.go:75-84 | over any number of crashed boots the panel comes up only on complete data, and does come up once a boot is long enough |
| `Restore.DataDir.StageRestore` | internal/backup/backup.go:222-235 | staging changes nothing live; the marker stands only over a staging area holding the whole archive |
| `Restore.CompleteIsOverlay` | internal/backup/backup.go:237-240 | complete data with the sidecars gone is the old directory overlaid by the archive |
| `Restore.DroppingIsSafeIff` | internal/backup/backup.go:246-249 | dropping the sidecars is safe exactly while none of the archive's own is in place yet |
| `Restore.ResumingLosesAnArchivedSidecar` | internal/backup/backup.go:246-249 | counterexample: an archive with its own sidecar loses it when a boot resumes |
| `Restore.TornStagingIsWholeIff` | internal/backup/backup.go:224-226 | an older staging area removed halfway is still applied as whole; it is whole exactly if what is gone was already in place |
| `DbRecovery.Recovery.EnsureHealthy` | cmd/rospanel/dbrecover.go:31-103 | a healthy or otherwise unreadable database is left alone; a corrupt one is replaced by that of the newest archive that is whole, holds a sound database of a schema that can be read and is not later than this build's, and meets no fault, under that archive's key or the one written last, and kept in quarantine; if there is none, and only then when nothing else fails, it is refused with the original back in place and the key written last; every file after a death is the operations carried out so far |
| `DbRecovery.DiesWithoutDatabaseIff` | cmd/rospanel/dbrecover.go:31-138 | for every corrupt database, list of archives, fault and point of death: no database is left, which the next boot takes for a fresh install, exactly if the last operation carried out on it renamed it away or removed it and no unpacking, cut short or not, and no way back has landed one since |
| `DbRecovery.NothingOldIsLost` | cmd/rospanel/dbrecover.go:31-138 | wherever the process dies, and whatever the archives do, the damaged database and its sidecars are each still in place or in the quarantine |
| `DbRecovery.OldKeyIff` | cmd/rospanel/dbrecover.go:69-103 | the key left beside the original database is the old one exactly if no archive that vetted wrote its key, or the last one written is the same |
| `DbRecovery.Recovery.Quarantine` | cmd/rospanel/dbrecover.go:120-138 | the database and its sidecars move aside together, or the database is put back; stopped on the way, no database is there exactly from the first rename on |
| `DbRecovery.Recovery.PutBack` | cmd/rospanel/dbrecover.go:108-115 | everything quarantined is back in place and nothing else; stopped on the way, no database is there between the removal and the rename |
| `DbRecovery.Recovery.Unpack` | cmd/rospanel/dbrecover.go:84-88 | what an unpacking leaves of the database and the key, cut short by a fault or a death or not |
| `DbRecovery.DatabaseUnderTheOldKeyIff` | cmd/rospanel/dbrecover.go:84-97 | an archive's database lies under the old key exactly if the process dies between the two writes, and the next boot takes it for good |
| `DbRecovery.CrashAfterQuarantineReadsAsFresh` | cmd/rospanel/dbrecover.go:63-88 | counterexample: a crash after the first rename leaves no database, and the check of the next boot calls that healthy |
| `IpAddress.LastAddr` | internal/abuse/ipmatch.go:91-106 | host bits set one at a time in the 16-byte form give the prefix's last address |
| `IpAddress.BetweenIsSharing` | internal/abuse/ipmatch.go:88-106 | between a prefix's first and last address lie exactly the addresses that share its bits (section 3.1 of RFC 4632) |
| `IpMatcher.ParseIPEntry` | internal/abuse/ipmatch.go:73-88 | the range an entry becomes |
| `IpMatcher.RangeIsEntry` | internal/abuse/ipmatch.go:73-106 | that range contains exactly the addresses the entry means |
| `IpMatcher.AgreesWithRfc` | internal/abuse/ipmatch.go:61-106 | for every block and every destination as it is asked for: the matcher answers exactly if the block has the destination, in this form or the other (IPv4 or IPv4-mapped), unless the destination is mapped and the block is wider than the mapped one, or the block has only its last end mapped, or a zone sorts the destination behind the block's last address; it agrees with section 3.1 of RFC 4632 exactly outside those |
| `IpMatcher.MappedIsMissed` | internal/abuse/ipmatch.go:61-69 | `::/0` has every mapped destination and the matcher finds none in it |
| `IpMatcher.SortByLo` | internal/abuse/ipmatch.go:50-53 | the ranges in order of their first address, none lost |
| `IpMatcher.MergeRanges` | internal/abuse/ipmatch.go:110-126 | merged in place: separate ranges in order, covering exactly what they did |
| `IpMatcher.Has` | internal/abuse/ipmatch.go:33-39 | the binary search answers true exactly when some range contains the address |
| `IpMatcher.Matcher.SetIP` | internal/abuse/ipmatch.go:42-57 | a category's list covers exactly the addresses its entries mean |
| `IpMatcher.Matcher.Clear` | internal/abuse/matcher.go:77-84 | a cleared category lists nothing |
| `IpMatcher.Matcher.Match` | internal/abuse/matcher.go:104-115 | a destination is found in the operator's own list if that has an entry with its unmapped address, else in the bad-address list if that has, and in no other: a linear scan of the entries |
| `AbuseMeasures.MeasuresLeaveNoTrace` | internal/core/manager_abuse_measures.go:42-204 | over any mix of escalations, deadline lifts, tariff changes and settings by hand that meets the two conditions below: with no measure in force the user is exactly as last chosen |
| `AbuseMeasures.SwitchOffKeptIff` | internal/core/manager_users.go:114-133 | an operator's switch-off is kept exactly when no switch-off measure is in force; else it does nothing and the lift switches the user back on |
| `AbuseMeasures.LiftKeptIff` | internal/core/manager_abuse_measures.go:138-189 | a lift of a listed measure keeps the choice exactly when the row still owes what the list said |
| `AbuseMeasures.SpeedSetBeforeALiftIsLost` | internal/core/manager_abuse_measures.go:138-152 | counterexample: a speed set by hand between the listing and the lift is overwritten |
| `AbuseMeasures.RungsOnlyRise` | internal/core/manager_abuse_measures.go:50-133 | a rung in force is never lowered, and never taken again |
| `AbuseMeasures.ReachedRungIsTaken` | internal/core/manager_abuse_measures.go:50-133 | for every user and report: switched off exactly if the switch-off's threshold is reached and they are on, throttled exactly if only the throttle's is, nothing is in force and no cap, a group's before their own, is slower; warned once a day below that |
| `AbuseMeasures.MeasuresHoldTheirHours` | internal/core/manager_abuse_measures.go:50-133 | in every run: a throttled user has the cap of the ladder that throttled them, whatever a tariff sets, one switched off is off, and either is listed as due exactly once its hours are over; with no measure in force no deadline or saved speed is left |
| `AbuseMeasures.FlushesAddUp` | internal/core/manager_abuse_measures.go:42-134 | a user who is on ends up where the day's total alone would have put them, however it is spread over flushes |
| `AbuseMeasures.OneLiftUndoes` | internal/core/manager_abuse_measures.go:60-70 | one lift undoes whatever is in force, an escalated throttle included |
| `AbuseMeasures.Row.Apply` | internal/core/manager_abuse_measures.go:42-134 | the writes of a flush are the escalation, and something is told exactly when something changed: told a throttle, the speed is the ladder's cap and the old one is saved; told a switch-off, the user is off with their own speed back; either until the ladder's hours are over |
| `AbuseMeasures.Row.LiftMeasure` | internal/core/manager_abuse_measures.go:161-189 | the writes of a lift |
| `AbuseMeasures.Row.Overrule` | internal/core/manager_abuse_measures.go:194-204 | a hand setting forgets the measure it overrules and restores nothing |
| `AbuseMeasures.Row.SetEnabled` | internal/core/manager_users.go:114-133 | a toggle to the present state does nothing; a switch-on overrules a switch-off |
| `AbuseMeasures.Row.SetSpeedLimit` | internal/core/manager_shaper.go:96-122 | a speed set by hand replaces a throttle; a negative one is refused |
| `Sightings.NothingIsLost` | internal/core/manager.go:659-762 | however arrivals, drains, writes and requeues interleave: under every key, hits accepted are hits buffered, in flight, stored, shed at the cap or of a user gone; the buffer stays within its cap; where nothing was dropped the newest sighting is still known |
| `Sightings.AddKeeps` | internal/core/manager.go:686-707 | an arrival keeps that, at the cap too |
| `Sightings.FlushKeeps` | internal/core/manager.go:726-762 | a drain, a write and a requeue keep it |
| `SightingBuffers.HitBuffer.Add` | internal/core/manager.go:683-707 | folded in, or turned away exactly when the key is new and the buffer full |
| `SightingBuffers.HitBuffer.Drain` | internal/core/manager.go:727-736 | the whole buffer goes in flight |
| `SightingBuffers.HitBuffer.MergeBack` | internal/core/manager.go:745-758 | hits merge back key by key; only keys with nothing buffered are shed, and only at the cap |
| `SightingBuffers.HitBuffer.PutBack` | internal/core/manager.go:739-762 | a failed flush is one requeue |
| `SightingBuffers.HitBuffer.Flush` | internal/core/manager.go:726-762 | a flush, whatever comes in while it writes, is a run of the buffer's world: drained, added to, then written or put back; a failed one with nothing coming in leaves the buffer as it was |
| `SightingBuffers.AccessLog.RecordAccess` | internal/core/manager.go:659-714 | the swept throttle decides as one that remembers every line; a line turned away for room is not throttled next time |
| `SightingBuffers.AccessLog.Sweep` | internal/core/manager.go:695-702 | exactly the lines older than the throttle leave |
| `SightingBuffers.AddMatch` | internal/core/manager_abuse.go:79-116 | a destination is buffered, its count clamped, exactly if the matcher finds it in a list |
| `AnyTlsServer.Server.SetUsers` | internal/anytls/anytls.go:86-115 | each account is its e-mail's last that parses, and a close is started for exactly the sessions on none of these |
| `AnyTlsServer.AccountsAreTheLast` | internal/anytls/anytls.go:86-98 | an e-mail has an account exactly if one of its entries parses, and it is the last that does |
| `AnyTlsServer.Server.StaleAreClosed` | internal/anytls/anytls.go:104-115 | once the closes started have run, in whatever order and whatever came in between, every tracked session whose connection is open is on a current account |
| `AnyTlsServer.Server.RunCloser` | internal/anytls/anytls.go:113-115 | one started close, whenever it runs, shuts its connection and keeps the rest |
| `AnyTlsServer.Server.RunClosers` | internal/anytls/anytls.go:112-114 | all the closes started, one after another: their connections are shut, and no tracked session on a stale account is left open |
| `AnyTlsServer.Server.Track` | internal/anytls/anytls.go:263-276 | a stream is let in exactly when its account is current on that UUID; a session is tracked under its first one |
| `AnyTlsServer.Server.Untrack` | internal/anytls/anytls.go:278-282 | the session is forgotten, the rest of the invariant kept |
| `AnyTlsServer.Session.Close` | internal/anytls/anytls.go:246-255 | the connection is closed, once |
| `AnyTlsServer.Server.Reserve` | internal/anytls/stream.go:249-257 | a place exactly while the user has fewer than 1024; the count stays reservations plus open tunnels |
| `AnyTlsServer.Server.DialXray` | internal/anytls/stream.go:59-79 | a place is taken exactly by a dial that ends in an open tunnel; one refused, not connected or not written to leaves every count as it was |
| `AnyTlsServer.Server.DialFailed` | internal/anytls/stream.go:67-71 | a failed dial gives its place back |
| `AnyTlsServer.Server.Dialed` | internal/anytls/stream.go:72-79 | a dial that went through hands its place to the tunnel |
| `AnyTlsServer.Server.CloseTunnel` | internal/anytls/stream.go:88-92 | the place goes back on the first close and only then |
| `AnyTlsServer.Server.Release` | internal/anytls/stream.go:259-267 | one place less, an entry at zero leaving the map |
| `UdpStream.RunIsSound` | internal/anytls/stream.go:133-204 | over any packets: at most one tunnel a destination and 64 in all, every tunnel opened is open or closed once |
| `UdpStream.OrderIsRecency` | internal/anytls/stream.go:186-218 | the reference list is in the order of the last packet to each destination, so what a new destination pushes out was sent to longest ago |
| `UdpStream.AllGivenBack` | internal/anytls/stream.go:150-157 | once the rest is closed at the end, every tunnel has been closed and none twice |
| `UdpStream.WhyTunnelsClose` | internal/anytls/stream.go:160-218 | a packet closes the tunnel it is for exactly if its Xray end is dead or the write fails, and any other exactly if it is the one sent to longest ago, all 64 are open and the destination is new |
| `UdpStream.WhenADestinationIsServed` | internal/anytls/stream.go:160-203 | after a packet its destination has a tunnel exactly if the write went through, over a live one or one that could be dialed |
| `UdpServe.Stream.Serve` | internal/anytls/stream.go:133-204 | the stamped map does what the list does, packet by packet, and on return every tunnel is closed exactly once |
| `UdpServe.Stream.Handle` | internal/anytls/stream.go:160-203 | one packet: dead tunnels reaped, room made, dialed, stamped, closed if the write fails |
| `UdpServe.Stream.EvictIdlest` | internal/anytls/stream.go:206-218 | the smallest stamp is the head of the list |
| `UdpServe.Stream.CloseAll` | internal/anytls/stream.go:150-157 | the deferred close leaves nothing open and closes nothing twice |
| `BruteGuard.Guard.Record` | internal/core/brute_guard.go:45-68 | true exactly when the source is not banned and this is at least its fifth counted attempt of the window since its last ban, lift or forget, as a guard that prunes nothing would answer |
| `BruteGuard.Guard.Prune` | internal/core/brute_guard.go:52-60 | the in-place filter keeps exactly the attempts within the window |
| `BruteGuard.Guard.Clean` | internal/core/brute_guard.go:130-148 | expired bans and stale lists go, and no later answer changes |
| `BruteGuard.Guard.LiftBan` | internal/core/brute_guard.go:91-99 | a lift wipes the source, and a banned one is always reported |
| `BruteGuard.Guard.ForgetNets` | internal/core/brute_guard.go:73-86 | exactly the sources inside the nets are wiped |
| `BruteGuard.BansAreSpaced` | internal/core/brute_guard.go:45-68 | without a lift or a forget two bans of one source are at least an hour apart |
| `BruteGuard.LiteralIff` | internal/core/brute_guard.go:45-68 | counting attempts made during a ban too would answer the same, whatever came before, exactly if no ban is remembered, it is still on, or the window no longer reaches into it |
| `BruteGuard.IgnoredFallInTheBan` | internal/core/brute_guard.go:49-51 | in every trace the attempts ignored lie before the end of the ban remembered |
| `BruteGuard.AttemptsDuringABanDoNotCount` | internal/core/brute_guard.go:49-51 | for every instant of the minute in between: four attempts at the end of a ban do not count towards the one that follows it |
| `BruteGuard.RecentOfRecent` | internal/core/brute_guard.go:52-60 | pruning early loses nothing a later window would see |
| `AwgRange.TextRoundTrip` | internal/awg/awg.go:55-114 | a range's text reads back to it exactly when it does not run backwards, and is refused otherwise |
| `AwgRange.ParsedIsOrdered` | internal/awg/awg.go:91-114 | whatever the text, a range that parses does not run backwards and its own text says the same |
| `AwgRange.JsonRoundTrip` | internal/awg/awg.go:71-89 | through JSON too a range comes back exactly when it does not run backwards |
| `AwgRange.DecimalReadsBack` | internal/awg/awg.go:55-63 | the decimal text of a number reads back as that number |
| `AwgRange.ParsesIff` | internal/awg/awg.go:91-114 | a text parses to a range exactly if it says it: blank for none, its number, or its two numbers in order with a dash between them, whatever the white space and the leading zeros |
| `AwgParams.FromModel` | internal/awg/model.go:21-57 | the block the row says, or the first range that does not parse |
| `AwgParams.ModelRoundTrip` | internal/awg/model.go:21-85 | a block survives the store exactly when none of its ranges runs backwards, and reads back to no other |
| `AwgParams.OldAgentsReadTheHeaders` | internal/awg/awg.go:194-206 | a block that needs no new agent writes all four headers as bare numbers that read back; a band makes it need one |
| `AwgParams.OldAgentsCarryAllIff` | internal/awg/awg.go:120-206 | a block needs a new agent exactly if the nine numbers an old one knows do not carry all of it |
| `AwgParams.Validate` | internal/awg/awg.go:279-318 | accepted exactly with the numbers in bounds, the padded lengths pairwise different, four disjoint header bands, a whole key and well-formed chains |
| `AwgParams.ValidIff` | internal/awg/awg.go:208-318 | of a block whose ranges are in order: accepted exactly with its numbers in bounds, no two padded handshake messages of one length, a type that tells which message a packet is and is none of WireGuard's own, a whole key and well-formed chains |
| `AwgParams.OverlapIsASharedValue` | internal/awg/awg.go:116-118 | two ranges overlap exactly when they share a value |
| `AwgParams.RandomParams` | internal/awg/awg.go:224-270 | whatever is drawn, a block it returns passes Validate, runs no range backwards, wears one of the profiles and needs a new agent; none is returned only when the draws run out |
| `AwgChain.ValidateChain` | internal/awg/imitate.go:99-135 | accepts exactly the chains that are tags the engine takes, one after another |
| `AwgChain.FirstTag` | internal/awg/imitate.go:104-112 | a well-formed chain starts with a whole tag and goes on as one |
| `AwgChain.RunIsOkIff` | internal/awg/imitate.go:113-135 | a run of random bytes is taken exactly from one byte to 1400 |
| `AwgChain.BytesIsOkIff` | internal/awg/imitate.go:113-135 | fixed bytes are taken exactly as whole bytes in hex digits, at least one |
| `AwgChain.OtherTagsAreOkIff` | internal/awg/imitate.go:113-135 | of the other tags exactly the plain ones are taken |
| `AwgChain.ImitationsAreWellFormed` | internal/awg/imitate.go:38-76 | every profile's chains are ones the engine takes |

## Left out

- Xray process control and its gRPC calls, Hysteria, WireGuard, mieru and MTProto syncing, nftables and
  iproute2: foreign programs; a failed call is a failed step, a successful one its effect on the map.
- The supervisor's in-place change of inbounds and its rollback to the previous config: Apply either puts
  the generated config in force, skips, or leaves the process down.
- The second live check of syncUsers (a cascade entry joining turns the live sync into a full reconcile)
  appears as a free choice between the two passes.
- Bulk writes of users and deletion of users during a config pass: the working set changes as one step.
- SQL: transactions are single steps, and reads and writes of one row are not torn.
- Sub-second time: clocks are whole seconds.
- Text of notices, audit rows, webhooks, i18n and logs; notices are kept as history.
- Alert figures are real numbers: NaN never holds and is not modelled, and node names and hosts are left out.
- The restore of open alert rows is one step; a row closed between its query and its use is not seen apart.
- Cascade addresses: the IPv4 swap of an exit's host, entry source addresses and the rules that pin a
  bridge to them, and the text of links; a credential is the triple it is derived from.
- Add-on and change orders, promo codes beyond their one-use rule, purchases from the balance alone but for
  what they move; hold seconds and the raw counters a plan write resets; autoRenew, win-back and churn surveys.
- The balance's ledger lines; a group deleted between a decision and its claim, which fails the claim.
- Payment amounts and terms are unbounded integers: overflow of a 64-bit expiry is not modelled.
- Writers of a user row that do not take the plan lock (a quota form, a first connection that starts a held
  term) between a decision and its claim; the traffic counter is a step of its own and may.
- ConfigApply.QuietFullResult: leaves out the supervisor's in-place change of inbounds and its rollback.
- Till.PlanWriteForDays: leaves out the raw traffic counters a reset is measured from.
- Till.Till.ConfirmOrder: leaves out the promo use and the ledger lines of the transaction.
- Till.Till.ConfirmOrderPaid: leaves out add-on and change orders.
- Till.Till.EnforceBilling: leaves out auto-renewal from the balance, win-back and the churn survey before it.
- SightingBuffers.AddMatch: leaves out the category a match is stored under.
- Restore: nested paths, modes and tar contents; a top-level entry is one tree, a removal cut short leaves
  any tree or none, and removing an older staging area counts as one step except where a row says so.
- Restore.DataDir.ApplyPending: assumes the archive has no top-level WAL or SHM file, as the panel's own
  archives do not; DroppingIsSafeIff says exactly what happens otherwise.
- DbRecovery.Recovery.EnsureHealthy: moves back succeed, and of an archive only the database and the key are
  written.
- Parsing of addresses and feeds from text: entries and addresses are given as values; a nil matcher.
- Prefixes are compared as Go's netip compares them; zones are sequences of numbers.
- applyAbuseMeasure is one step; only the list of due measures is read apart from the lift.
- Match categories and the once-a-day alert about a user's matches (alertAbuse).
- The e-mail form of a user id in an access line is given as parsed.
- AnyTLS: TLS, framing, fallback connections, idle timers and replies; a tunnel's death is seen when the next
  packet to it is sent.
- BruteGuard.Guard.LiftBan: does not model the kernel's own set, so a ban from before a restart is not reported.
- Termination of RandomParams' redraws: without draws left it returns nothing.
- Base64: a key is the bytes it decodes to, or garbage.
- AwgRange.TextRoundTrip: texts are sequences of characters, with Unicode white space trimmed as Go does.
- backup rotation, cron matching, range checks of settings, slugs: easy or of little value.
