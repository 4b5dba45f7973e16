# Convergence of hosts and roles

This project models how Platform9's management plane and its host agent bring hosts to a desired state, and
proves what their code is for.

- The **resource manager** moves each role of each host through 13 states. API calls and a poller do so with
  compare-and-set updates on one table, most of them under a lock, some not, and the process may crash between any two
  actions. `RoleStates`, `Associations` and `RoleProtocol` model this as a labelled step function over table, lock,
  program counters, the poller's snapshot, push times and a log. `RoleInvariant` and `RolePreservation` hold
  the invariant, `RoleTheorems` and `RoleOutcomes` what follows for every run, and `ResourceManager` the operations as
  methods that are proved to take steps of the protocol only.
- The **host agent** compares installed applications with a desired configuration and removes, upgrades,
  adjusts and installs, or only counts. `Json` and `AppsConfig` hold the values and the satisfaction test, `AppPlan` the
  plan of a run and its meaning, `AppConvergence`, `AppOrder`, `AppProbe` and `AppRerun` the theorems about it, and
  `MockApps` and `Algorithms` the reference applications and `process_apps` over mutable objects. `HostSession` models what one
  message does to the agent and its log; `AgentSession` is the session as a class on top of `process_apps`.
- **bbmaster** adds firmware applications to what is pushed and hides them from what is reported: `FirmwareApps`.
- **Ini files**: `IniLine` has the two regular expressions at the level of characters, `IniFile` the meaning of lines,
  `IniMerge` the loop invariant, `IniLayout` the lines that are no keys, `IniGlue` and `IniTail` what becomes of a last
  line that lacks its newline, `ConfigFiles` merge and extraction; `IniJson` the conversion to and from JSON.
- **Certificates**: `Certs` has backup, replacement and restore on a finite set of files.
- **Role versions and settings**: `RoleVersions`, `ConsulRoles` and `HostSettings` have the tables and what every sequence
  of operations leaves in them.

Python's equality is spelled out in `Json.PyEq` (booleans are numbers). Packages, handlers, scripts, the network and
ConfigParser's file format are inputs that may fail at any point. Where a property the code suggests is false, the code
is kept, a failing input is exhibited, and the exact condition is proved:

| what fails | exact condition | failing input |
|---|---|---|
| a converged host is not probed as converged | `ProbeAfterRun` | `ListNeverConverges` |
| the probe announces a change that does not happen | `RunChangesTableIffProbeCounts` | `ListNeverConverges` |
| a satisfied host is probed as changed | `ProbeZeroIffSatisfied` | `ExtraServiceFoolsSatisfaction` |
| a merged key keeps an old value | `MergeSetsKey` | `RepeatedKeyKeepsLast` |
| extraction does not give merged parameters back | `ExtractAfterMerge` | `OpenPairSpoils`, `RepeatedKeyKeepsLast` |
| a restore of certificates raises | `RestoreBringsBack`, `ClashBreaksRestore` | every clash |
| a role has no active version | `SaveKeepsOneActive` | `CollidingKeys` |
| the recorded version is not active | `ActiveAfterConfig` | `RecordedVersionNotActive` |
| a value changes with a default | `MergeSetsExactly`, for other sections | `NewDefaultLeaks` |

Where code and documentation disagree, the model follows the code: the docstring of `move_to_preauth_state` speaks of
not-applied after any failure, but an edit goes back to applied; `_pending_support_bundle` is only ever assigned as a local
variable in `process_support_request`, so that a heartbeat never sends a bundle again; and the error handler of `add_role`
uses a user name that may be unbound, so that a new association then stays.

`dafny verify dfyconfig.toml` checks the whole project. Several proofs `hide` definitions they do not need.

## Model

| member | source | states |
|---|---|---|
| RoleTheorems.OnlyLegalTransitions | resmgr/resmgr/role_states.py:92-106 | In every reachable state of the protocol (any interleaving of API calls, the locked poller and the unlocked sweeps, crashes at any point), a step that changes a role's state, absent read as not-applied, follows an edge of valid_next |
| RoleTheorems.BodyRunsUndisturbed | resmgr/resmgr/dbutils.py:1284-1334 | While a thread is inside a move_new_state context, no step of another thread changes the role's state or removes its association |
| RoleTheorems.ClosingUpdateSucceeds | resmgr/resmgr/dbutils.py:1303-1334 | The compare-and-set that closes a context always finds its one row, and neither of its two transitions is ever refused as illegal |
| RoleTheorems.MutualExclusion | resmgr/resmgr/resmgr_provider_pf9.py:1998-2040 | At most one thread is at a point that needs the role update lock, and it holds the lock |
| RoleTheorems.AuthorizedBeforePush | resmgr/resmgr/resmgr_provider_pf9.py:619-664 | In every reachable state, a role in pre-auth has had a successful on_auth since it last entered start-apply or start-edit, and one in auth-converging a successful push after that |
| RoleTheorems.DeauthorizedBeforePush | resmgr/resmgr/resmgr_provider_pf9.py:667-700 | The dual for removal: pre-deauth needs a successful on_deauth since start-deauth, deauth-converging and deauth-converged a push after it |
| RoleTheorems.DroppedOnlyAfterCleanup | resmgr/resmgr/resmgr_provider_pf9.py:718-749 | Whenever an association is dropped out of deauth-converged, on_deauth, a push and on_deauth_converged have each succeeded, in this order, since the removal began |
| RoleTheorems.OnlyFreshReportsMoveRoles | resmgr/resmgr/resmgr_provider_pf9.py:1304-1339 | Every move out of auth-converging or deauth-converging is caused by a report; on a responding host never by one received before the process's latest push; a converged state needs an ok report satisfying the expected configuration, an error state a failed one |
| RoleOutcomes.HandlersDecide | resmgr/resmgr/resmgr_provider_pf9.py:619-716 | In every reachable log, a role that leaves a state in which a handler runs goes where the outcome of that handler says: from auth-converged to applied exactly if on_auth_converged succeeded, else to auth-error; likewise on_auth from start-apply and start-edit, on_deauth from start-deauth; nothing else has happened to the role in between |
| RoleOutcomes.ReportsLeadTo | resmgr/resmgr/resmgr_provider_pf9.py:1304-1339 | What a report makes the poller do: the roles fail exactly on a fresh report of failure; they finish exactly if the host does not respond or a fresh ok report satisfies the expected configuration; the configuration is pushed exactly if the host responds and what it has or is heading for does not satisfy it |
| RolePreservation.StepKeepsInv | resmgr/resmgr/resmgr_provider_pf9.py:1444-1495 | Every step of every thread, and a crash, keeps the protocol invariant, of which unique associations per host and role name are a part |
| RolePreservation.ReachableInv | resmgr/resmgr/resmgr_provider_pf9.py:1384-1433 | The invariant holds in every reachable state |
| RolePreservation.TryKeepsInv | resmgr/resmgr/resmgr_provider_pf9.py:1893-1939 | So do the compare-and-set attempts of add, delete, finish and fail |
| RolePreservation.CloseKeepsInv | resmgr/resmgr/dbutils.py:1303-1334 | So does the exit of a context, after success and after failure |
| RolePreservation.DropKeepsInv | resmgr/resmgr/resmgr_provider_pf9.py:718-749 | So does each action of dropping an association, whichever of them fails |
| RolePreservation.CrashKeepsInv | resmgr/resmgr/dbutils.py:542-575 | So does a crash, which keeps the table and forgets threads, lock and push times |
| RoleInvariant.ClaimsExclude | resmgr/resmgr/dbutils.py:1284-1334 | Two threads never work on the same role |
| Associations.AdvanceEffect | resmgr/resmgr/dbutils.py:1158-1195 | A compare-and-set moves exactly the one row of the role if it is in the expected state, and is a no-op otherwise |
| Associations.AssociateEffect | resmgr/resmgr/dbutils.py:1053-1096 | Associating changes no role's state, leaves one row for the role with the new version, and says whether there was none |
| Associations.RemoveEffect | resmgr/resmgr/dbutils.py:1130-1156 | Removing leaves the role absent and all others as they were |
| ResourceManager.ResMgrDb.AdvanceRoleState | resmgr/resmgr/dbutils.py:1158-1195 | An illegal transition is refused without effect; else the table changes by exactly one compare-and-set, and the result says whether it hit |
| ResourceManager.ResMgrDb.AssociateRoleToHost | resmgr/resmgr/dbutils.py:1053-1096 | An existing association gets the new version and keeps its state; a new one starts as not-applied |
| ResourceManager.ResMgrDb.RemoveRoleFromHost | resmgr/resmgr/dbutils.py:1130-1156 | All rows of the role go; with unique rows the result says whether there was one |
| ResourceManager.ResMgrDb.GetCurrentRoleAssociation | resmgr/resmgr/dbutils.py:1216-1232 | The state of the association exactly if there is one |
| ResourceManager.RoleManager.PushConfiguration | resmgr/resmgr/resmgr_provider_pf9.py:534-558 | The push time of the host is recorded exactly on success |
| ResourceManager.RoleManager.MoveNewState | resmgr/resmgr/dbutils.py:1284-1334 | The role ends in the success state exactly if the body succeeded, else in the failure state, and the log shows that outcome; nothing else in the table changes; the steps taken are protocol steps |
| ResourceManager.RoleManager.MoveToNotAppliedState | resmgr/resmgr/resmgr_provider_pf9.py:718-749 | The association is gone exactly if the handler succeeded and the removal was committed, else in deauth-error |
| ResourceManager.RoleManager.RemoveAndCheckHost | resmgr/resmgr/resmgr_provider_pf9.py:731-743 | The part after the handler: the association is gone exactly if the removal was committed, whatever follows |
| ResourceManager.RoleManager.AdvanceFromTransientState | resmgr/resmgr/resmgr_provider_pf9.py:1444-1495 | Terminates; on normal return every role of the snapshot is exactly where its state leads (auth-converging, applied, deauth-converging, or absent or in deauth-error), settled roles as before, and the lock is free; an exception releases the lock, with one role failed, those before it moved on and all others untouched |
| ResourceManager.RoleManager.AdvanceRole | resmgr/resmgr/resmgr_provider_pf9.py:1456-1495 | The inner loop ends, by a rank on states, with its role where its state leads, or where the failure of a handler or a push leaves it |
| ResourceManager.RoleManager.AdvanceOnce | resmgr/resmgr/resmgr_provider_pf9.py:1460-1495 | One pass: for each state, the state after a success and after a failure of the handler, push or removal that it calls for; the log shows that outcome; whether there is more to do, and whether an exception got out |
| ResourceManager.RoleManager.TryOnce | resmgr/resmgr/dbutils.py:1158-1195 | One attempt succeeds exactly if the role is present in the attempted state |
| ResourceManager.RoleManager.MoveToApplyEditState | resmgr/resmgr/resmgr_provider_pf9.py:1893-1916 | start-apply from not-applied and auth-error, start-edit from applied, a conflict without effect from every other state |
| ResourceManager.RoleManager.MoveToDeauthState | resmgr/resmgr/resmgr_provider_pf9.py:1918-1939 | start-deauth exactly from applied, auth-error and deauth-error, else a conflict without effect |
| ResourceManager.RoleManager.CredentialsStep | resmgr/resmgr/resmgr_provider_pf9.py:2015-2034 | A new association is removed again exactly if its credentials could be created but not stored; otherwise the table stays |
| ResourceManager.RoleManager.AddRole | resmgr/resmgr/resmgr_provider_pf9.py:1998-2040 | Exactly when a call conflicts, and then the state is kept; pre-auth after success; after a failed handler applied if it was applied, else not-applied; after a failed lookup of the host, or if no credentials could be created, start-edit or start-apply; if they could not be stored likewise, or absent if the role was new; one row with the new version |
| ResourceManager.RoleManager.DeleteRole | resmgr/resmgr/resmgr_provider_pf9.py:2050-2101 | Exactly when a call finds no role or conflicts, both without effect; pre-deauth after success, applied after a failed handler, start-deauth if the host cannot be looked up between the compare-and-set and the handler |
| ResourceManager.RoleManager.FinishRole | resmgr/resmgr/resmgr_provider_pf9.py:1389-1400 | A role in auth-converging ends in applied exactly if on_auth_converged succeeded, else in auth-error; one in deauth-converging is absent exactly if handler and removal succeeded, else in deauth-error; any other stays |
| ResourceManager.RoleManager.FailRole | resmgr/resmgr/resmgr_provider_pf9.py:1414-1433 | A converging role ends in its error state, any other stays |
| ResourceManager.RoleManager.SweepRoles | resmgr/resmgr/resmgr_provider_pf9.py:1384-1433 | The same for every role of the host, in one pass, by the outcome of each |
| AppConvergence.RunSucceedsIffReady | bbone/pf9app/pf9app/algorithms.py:48-196 | From any installed state and in both modes, a run with a package manager that does not fail raises exactly if some specification is not ready for its application (only what is upgraded or added needs a package); the table it leaves does not depend on the order |
| AppConvergence.RunReachesDesired | bbone/pf9app/pf9app/algorithms.py:48-196 | Any run that raises nothing leaves exactly the specified names (destructive) or those and the old others untouched, each with its services, its configuration equal to or included in the one it has, and its version exactly where it had it before or its package has it |
| AppConvergence.ProbeAfterRun | bbone/pf9app/pf9app/algorithms.py:158-174 | After any destructive run that raised nothing, a fresh probe counts 0 exactly if every version came out right and no specified configuration holds a list or a null |
| AppRerun.RerunAfterAbort | bbone/pf9app/pf9app/algorithms.py:48-196 | Wherever a run was aborted, a rerun that raises nothing leaves the specified services, configurations and versions as an undisturbed run would; and it raises nothing if the first had no reason to |
| AppRerun.PartialRunKeepsReady | bbone/pf9app/pf9app/algorithms.py:130-196 | A part of a run neither makes a specification unready nor changes which versions come out right |
| AppOrder.FetchedBeforeTouched | bbone/pf9app/pf9app/algorithms.py:136-150 | Wherever a run is cut off, an application that is not at its version is exactly as before unless its new package has been downloaded; if the package cannot be located it is never touched |
| AppOrder.StoppedBeforeRemoved | bbone/pf9app/pf9app/mock_app.py:68-76 | Whenever a run is about to remove an application, all its services are off |
| AppOrder.ConfiguredBeforeStarted | bbone/pf9app/pf9app/algorithms.py:151-174 | Whenever a run is about to set the services of an application, it already has the specified configuration |
| AppOrder.HandledInOrder | bbone/pf9app/pf9app/algorithms.py:60-196 | Once a run has begun with an application, the kept ones before the new ones and each group in its order, all before it are as the run makes them, and in a destructive run no obsolete one is left |
| AppOrder.OthersUntouched | bbone/pf9app/pf9app/algorithms.py:66-72 | A non-destructive run never touches an application that is not specified |
| AppRerun.StayingNeverTakenAway | bbone/pf9app/pf9app/algorithms.py:158-174 | At no point of a run is an application that is at its version missing or another package |
| AppProbe.ProbeZeroIffSatisfied | bbone/lib/bbcommon/utils.py:27-43 | For list-free specifications the probe counts 0 exactly if is_satisfied_by holds and no application reports names in its version or services beyond those asked of it |
| AppProbe.EqualIffIncluded | lib/configutils/configutils/configutils.py:152-177 | Inclusion of a list-free value is equality but for extra names |
| AppProbe.ExtraServiceFoolsSatisfaction | bbone/pf9app/pf9app/algorithms.py:166-174 | Without equal service names satisfaction is not enough: a concrete satisfied host whose probe counts a change |
| AppProbe.ProbeZeroPlansNothing | bbone/pf9app/pf9app/algorithms.py:66-72 | A probe of 0 announces a run without any action |
| AppProbe.RunChangesTableIffProbeCounts | bbone/pf9app/pf9app/algorithms.py:66-196 | For any run that raises nothing, in both modes: a zero count leaves the table, and the table changes exactly when the probe counts, unless the run is idle and rewrites an equal configuration that holds a list or a null |
| AppProbe.ListNeverConverges | bbone/pf9app/pf9app/algorithms.py:158-174 | The input for which it does not: one application as specified with a list in its configuration; the run leaves the table and the probe counts 1 before and after |
| AppProbe.CountIsOrderFree | bbone/pf9app/pf9app/algorithms.py:48-196 | A probe and a real run from the same snapshot count the same, in whatever orders they handle the names |
| AppProbe.ProbeCounts | bbone/pf9app/pf9app/algorithms.py:66-196 | The result: the number of obsolete (destructive), new and differently versioned applications, and of the others one for each configuration and one for each services dictionary that differs |
| AppProbe.NeverInstalledTwice | bbone/pf9app/pf9app/mock_app_db.py:19-29 | No point of a run installs a name that is in the table, or stops or removes one that is not |
| AppConvergence.DeletionsRun | bbone/pf9app/pf9app/algorithms.py:66-72 | The deletions remove exactly the given names |
| AppConvergence.UpgradeRuns | bbone/pf9app/pf9app/algorithms.py:136-157 | An upgrade succeeds exactly if the package can be located and the services fit it, and leaves exactly the new entry |
| AppConvergence.AddRuns | bbone/pf9app/pf9app/algorithms.py:175-195 | So does an installation |
| AppConvergence.AdjustRuns | bbone/pf9app/pf9app/algorithms.py:158-174 | An adjustment succeeds exactly if the services are given and are there already or fit, whatever can be located, and changes configuration and services only where they differ |
| Algorithms.GetAppOrdering | bbone/pf9app/pf9app/algorithms.py:229-235 | A permutation of the names sorted by rank, exactly if every rank is a number |
| Algorithms.RanksInOrder | bbone/pf9app/pf9app/algorithms.py:229-235 | Sorted means by the number that the rank denotes, and by 0 where there is none |
| Algorithms.ProcessApps | bbone/pf9app/pf9app/algorithms.py:25-196 | What was carried out is a prefix of the plan (deletions, kept, new; each of the last two groups a permutation, rank-sorted before anything is done) and explains the new table; without an exception the result is the probe's count, and a real run carried out the whole plan; a probe does nothing and raises exactly if a rank or a specification is bad |
| Algorithms.DeleteApps | bbone/pf9app/pf9app/algorithms.py:66-72 | The deletion loop carries out the deletions in order up to the point where it raises |
| Algorithms.KeepApps | bbone/pf9app/pf9app/algorithms.py:130-174 | The loop over kept applications, likewise, with the count of changes |
| Algorithms.AddApps | bbone/pf9app/pf9app/algorithms.py:175-195 | The installation loop, likewise |
| Algorithms.MakeApps | bbone/pf9app/pf9app/mock_app_db.py:37-39 | All applications of a snapshot, always if the snapshot is fresh |
| MockApps.App.SetDesiredServiceStates | bbone/pf9app/pf9app/mock_app.py:42-55 | Raises exactly if the application is not installed or the services do not fit it; else they are taken over, or all switched off |
| MockApps.AppDb.GetCurrentConfig | bbone/pf9app/pf9app/app_db.py:68-89 | The snapshot reports version, configuration and services of every installed application |
| MockApps.AppDb.AppInstalled | bbone/pf9app/pf9app/mock_app_db.py:19-23 | Refused exactly if the name is in the table |
| MockApps.AppDb.AppUninstalled | bbone/pf9app/pf9app/mock_app_db.py:25-29 | Refused exactly if it is not |
| MockApps.AppDb.MakeApp | bbone/pf9app/pf9app/mock_app_db.py:37-39 | The installed application exactly if it has that version |
| MockApps.AppDb.Uninstall | bbone/pf9app/pf9app/mock_app.py:68-76 | The services are stopped, then the package is removed; an exception leaves a prefix of that |
| MockApps.AppDb.Install | bbone/pf9app/pf9app/mock_app.py:110-117 | A downloaded application enters the table, or nothing changes |
| MockApps.AppDb.Reinstall | bbone/pf9app/pf9app/algorithms.py:148-156 | Removal, installation, configuration, services, or a prefix of these actions |
| MockApps.AppDb.Upgrade | bbone/pf9app/pf9app/algorithms.py:136-157 | Download, removal, installation, configuration, services, or a prefix of these actions |
| MockApps.AppDb.Add | bbone/pf9app/pf9app/algorithms.py:175-195 | Download, installation, configuration, services, or a prefix |
| MockApps.AppDb.Adjust | bbone/pf9app/pf9app/algorithms.py:158-174 | Configuration and services where they differ, and how many of the two did |
| AppsConfig.IsSatisfiedBy | bbone/lib/bbcommon/utils.py:27-43 | Same names, and every specification without the ignored keys included in the report; always for no configuration |
| AppsConfig.SatisfactionByProperty | bbone/lib/bbcommon/utils.py:27-43 | Property by property: all but url, du_config, pkginfo and rank are compared, dictionaries by inclusion, the rest by equality |
| Json.SubsetOfItself | lib/configutils/configutils/configutils.py:152-177 | is_dict_subset holds of a value and itself exactly if it is a dictionary without lists and nulls |
| Json.EqualImpliesSubset | lib/configutils/configutils/configutils.py:152-177 | A dictionary equal to a list-free one includes it |
| HostSession.AttemptsAreLimited | bbone/bbslave/bbslave/session.py:658-670 | In any stretch of a session without a new configuration: at most max_converge_attempts real runs, at most one automatic support bundle, at most one real run after it |
| HostSession.MessageIsAnswered | bbone/bbslave/bbslave/session.py:604-702 | A ping, heartbeat or set_config whose probe counts n, event by event: n = 0 leads to ok and no run, n > 0 without an attempt left to failed and no run, n > 0 with one left to converging, one more attempt, a support bundle in the last one, a real run of the saved configuration unless that bundle raised, and the report that the second probe calls for |
| HostSession.MessageIsCutShort | bbone/bbslave/bbslave/session.py:579-631 | What is left where something raises before that, and what every other message does |
| HostSession.EveryAttemptIsMade | bbone/bbslave/bbslave/session.py:658-672 | While pings and heartbeats find changes and nothing raises, each leads to a real run until the limit is reached, with one bundle, and none after it |
| HostSession.ExhaustedStaysIdle | bbone/bbslave/bbslave/session.py:658-661 | Once the attempts are used up, no message but set_config leads to a real run or an automatic bundle |
| HostSession.RunsApplyThePersistedConfig | bbone/bbslave/bbslave/session.py:640-702 | Every real run is of the configuration persisted last, with pf9-comms forced; a success reported after it satisfies that configuration |
| HostSession.LastConfigPersists | bbone/bbslave/bbslave/session.py:626-642 | The last set_config that passed the probe is what is on disk, forced, whatever came after |
| HostSession.StoredConfigPersists | bbone/bbslave/bbslave/session.py:629-642 | With a configuration on disk and no accepted new one it stays, forced from the first accepted message on |
| HostSession.FirstObservationPersists | bbone/bbslave/bbslave/session.py:632-642 | With nothing on disk the first observed configuration is adopted for good, forced |
| HostSession.FileChangesOnlyWhenAccepted | bbone/bbslave/bbslave/session.py:587-642 | Only a ping, heartbeat or set_config whose probe did not raise changes what is on disk |
| HostSession.Force | bbone/bbslave/bbslave/session.py:49-66 | pf9-comms ends up running if it has the flag, and nothing else changes |
| HostSession.HandleKeeps | bbone/bbslave/bbslave/session.py:579-702 | One message keeps the rules on the log of saves, runs, bundles and reports |
| AgentSession.Session.HandleMsg | bbone/bbslave/bbslave/session.py:579-702 | State and log change as the reference step says; what was seen is the table's configuration and the probe's count; exactly when process_apps is run for real, and then it carried out a prefix of its plan, all of it unless it raised |
| AgentSession.Session.Converge | bbone/bbslave/bbslave/session.py:663-702 | One attempt: the bundle on the last one, then the run, unless sending the bundle raised |
| AgentSession.Session.Recheck | bbone/bbslave/bbslave/session.py:680-702 | The report after a run: the assertion is the declarative test of the configuration just read |
| AgentSession.AssertionHolds | bbone/bbslave/bbslave/session.py:686-689 | For list-free specifications the final assertion cannot fail, and success is reported if the status can be sent |
| AgentSession.OneRunConverges | bbone/bbslave/bbslave/session.py:672-691 | One real run that does not raise brings about the names, services and configurations asked for, and the versions exactly where they were there or the package has them; the probe after it says so exactly if these are all versions and the configuration is list-free |
| HostSession.ReportsAreTruthful | bbone/bbslave/bbslave/session.py:658-702 | Every status that was sent: converging only while an attempt is left, retrying only after a run while one is left, failed exactly when none is left, each with the configuration on disk |
| HostSession.BundleIffExhausted | bbone/bbslave/bbslave/session.py:665-670 | The automatic bundle has been requested exactly if the attempts are used up; before that every attempt has made its run |
| IniLine.KeyMatchIsLongest | lib/configutils/configutils/configutils.py:181 | KEYPAT matches whenever the line splits into blanks, key, equals sign and value in any way, and takes the longest key |
| IniLine.KeyMatchSplits | lib/configutils/configutils/configutils.py:181 | What KEYPAT yields is such a split |
| IniLine.SectionMatchIsLongest | lib/configutils/configutils/configutils.py:180 | The same for SECPAT and section names |
| IniLine.SectionMatchSplits | lib/configutils/configutils/configutils.py:180 | What SECPAT yields is such a split |
| IniLine.PairReadsBack | lib/configutils/configutils/configutils.py:249 | A pair that is written is read back as itself |
| IniLine.HeaderReadsBack | lib/configutils/configutils/configutils.py:241 | A header that is written is read back as itself, whatever brackets its name holds |
| IniFile.TextHasLines | lib/configutils/configutils/configutils.py:227-228 | The lines of a file make up the file; only the last can lack its newline, and it does exactly if the file does |
| IniFile.ReadBack | lib/configutils/configutils/configutils.py:227-228 | Lines that are written, the last one with or without newline, are read back as these lines |
| IniFile.RepeatsSnoc | lib/configutils/configutils/configutils.py:192-204 | When one more line makes a key repeat |
| ConfigFiles.Disk.MergeParams | lib/configutils/configutils/configutils.py:208-274 | For good parameters and any file: unless the last line is spoiled, every key then has the value of params if it is one of its keys and does not repeat, else the value it had, and all other lines are preserved; if it is, some key of params is lost, and the lines before it are preserved; a missing file is created; other files are untouched |
| IniTail.MergeSucceeds | lib/configutils/configutils/configutils.py:223-271 | The merge of a file that is not spoiled gives every key its value, with or without a newline at the end |
| IniTail.MergePreserves | lib/configutils/configutils/configutils.py:251-271 | Comments and pairs of other keys come out with the same text, order and section, and nothing of the kind is added; every copied line is there in its section; headers and keys keep their relative places; the headers are those of before and one for each new section with keys |
| IniTail.SpoiledPreserves | lib/configutils/configutils/configutils.py:251-271 | With a spoiled last line the same holds of all lines before it, and that line begins a longer one |
| IniTail.MergeFails | lib/configutils/configutils/configutils.py:252-271 | A last line without newline that is neither blank nor a header, is not replaced, and has a pair or a header appended to it, always costs a key of params its value |
| IniGlue.GluedPair | lib/configutils/configutils/configutils.py:181 | A pair written directly after anything that is not blank is not read back as that pair |
| IniGlue.GluedHeader | lib/configutils/configutils/configutils.py:180 | Nor is a header written after anything that is neither blank nor a header |
| ConfigFiles.OpenPairSpoils | lib/configutils/configutils/configutils.py:252-262 | A concrete file that ends in a pair without a newline: the key that is appended is lost |
| ConfigFiles.RewriteLines | lib/configutils/configutils/configutils.py:223-263 | The loop over the lines with the shrinking worklist: the meaning of what is written, the lines that are preserved, and that it is whole lines but for a copy of an open last line |
| ConfigFiles.RewriteLine | lib/configutils/configutils/configutils.py:229-254 | The loop body keeps the relations between lines read, lines written and worklist, and all lines but headers and replaced pairs |
| ConfigFiles.WriteSections | lib/configutils/configutils/configutils.py:264-271 | The sections that the file does not have |
| IniMerge.WritePairs | lib/configutils/configutils/configutils.py:233-238 | The leftover keys of a section, in any order |
| ConfigFiles.Disk.ExtractParams | lib/configutils/configutils/configutils.py:184-205 | Exactly the wanted keys that have a value, the last one counting |
| ConfigFiles.MergeSetsKey | lib/configutils/configutils/configutils.py:242-250 | After a merge that spoiled nothing, a key has its new value exactly if it did not repeat in the file or already had it |
| ConfigFiles.RepeatedKeyKeepsLast | lib/configutils/configutils/configutils.py:242-250 | A concrete file with a repeated key, whose last line keeps its old value |
| ConfigFiles.ExtractAfterMerge | lib/configutils/configutils/configutils.py:184-274 | For any file: extracting params after a merge gives params back, without its empty sections, exactly if the last line is not spoiled and every key of params does not repeat or already had its value |
| ConfigFiles.OtherKeysKept | lib/configutils/configutils/configutils.py:184-274 | Everything else extracts to what it was before, from any file whose last line is not spoiled |
| ConfigFiles.MergeAgain | lib/configutils/configutils/configutils.py:208-274 | Merging the same parameters once more spoils no line and changes the meaning of no key |
| IniJson.RoundTrip | lib/configutils/configutils/configutils.py:46-122 | To JSON and back keeps each effective value exactly if ConfigParser accepts its percent signs |
| IniJson.DoublingIsAccepted | lib/configutils/configutils/configutils.py:114-120 | The doubled value is always accepted, so the second set never raises |
| IniJson.DoublingReadsBack | lib/configutils/configutils/configutils.py:114-120 | A doubled value, once interpolated, is the value |
| IniJson.AcceptedForms | lib/configutils/configutils/configutils.py:114-120 | Plain text, escaped percent signs and references make no difference to whether a value is accepted; a percent sign that starts neither is refused |
| IniJson.MergeSetsExactly | lib/configutils/configutils/configutils.py:276-301 | On sections other than DEFAULT: given keys are set, removed keys fall back to the default, all others keep their effective value |
| IniJson.DefaultsSetExactly | lib/configutils/configutils/configutils.py:276-301 | The defaults after any merge: given ones set, removed ones gone, all others kept |
| IniJson.NewDefaultLeaks | lib/configutils/configutils/configutils.py:56-72 | Why DEFAULT is different: an own value equal to the old default is lost and follows a new default |
| IniJson.IniToJson | lib/configutils/configutils/configutils.py:46-74 | DEFAULT, and for each section the values that differ from the default |
| IniJson.JsonToIni | lib/configutils/configutils/configutils.py:89-122 | Every section with its values, refused ones doubled |
| IniJson.IniStore.MergeAndDeleteParams | lib/configutils/configutils/configutils.py:276-301 | A missing file is an error without effect; else exactly the merged contents are written |
| Certs.RestoreBringsBack | bbone/bbslave/bbslave/certs.py:115-232 | Without a clash, whatever was added in between: restoring raises nothing, gives every old file its content back, removes exactly the backups and touches nothing else |
| Certs.ClashBreaksRestore | bbone/bbslave/bbslave/certs.py:228-232 | With a clash restoring always raises |
| Certs.SafeInEveryOrder | bbone/bbslave/bbslave/certs.py:127-155 | No order of the certificates clashes if none has the first free backup name of another one that exists |
| Certs.UnsafeInSomeOrder | bbone/bbslave/bbslave/certs.py:127-155 | And they clash when the one that exists comes first |
| Certs.PlacingOverwritesNothing | bbone/bbslave/bbslave/certs.py:167-178 | New CAs overwrite nothing, and each is stored under an indexed name that was free |
| Certs.PlacingAddsOneEach | bbone/bbslave/bbslave/certs.py:167-178 | Every new CA makes exactly one more file, and nothing else is written |
| Certs.CertStore.FreeName | bbone/bbslave/bbslave/certs.py:140-149 | The search terminates with the first free indexed name |
| Certs.CertStore.BackupAndSaveCerts | bbone/bbslave/bbslave/certs.py:115-155 | Files and backups as the fold over the certificates says |
| Certs.CertStore.PlaceNewCAs | bbone/bbslave/bbslave/certs.py:157-178 | Files as the fold over the CAs says |
| Certs.CertStore.RestoreBackups | bbone/bbslave/bbslave/certs.py:228-232 | Raises exactly where the fold over the backups does, with the earlier ones restored; else leaves its files |
| Certs.IndexedInjective | bbone/bbslave/bbslave/certs.py:142 | An indexed name determines its path and its index |
| Certs.SaveAllSaves | bbone/bbslave/bbslave/certs.py:127-155 | After saving without a clash, every old file is backed up or untouched and every certificate is in place |
| ConsulRoles.AlwaysOneActive | resmgr/resmgr/dbutils.py:770-849 | From an empty table, after any sequence of saves, activations, Consul documents and parameters, every known role has exactly one active version (keys distinct) |
| RoleVersions.SaveKeepsOneActive | resmgr/resmgr/dbutils.py:803-846 | One save keeps that exactly if its key does not take over the active version of another role that has more versions |
| RoleVersions.CollidingKeys | resmgr/resmgr/dbutils.py:803-846 | Two saves for a_b and one for a, with keys that collide, leave a_b without an active version |
| RoleVersions.SaveActivates | resmgr/resmgr/dbutils.py:826-846 | The saved version is the one active version of its role, with the saved details |
| RoleVersions.SaveKeepsRows | resmgr/resmgr/dbutils.py:826-846 | No row is lost, and none but the saved one changes, except that other versions of the role become inactive |
| RoleVersions.MarkKeepsRows | resmgr/resmgr/dbutils.py:770-790 | Marking changes nothing but which versions are active |
| RoleVersions.MarkActivates | resmgr/resmgr/dbutils.py:770-790 | The marked version is the one active version, also where nothing is committed |
| RoleVersions.MarkKeepsOneActive | resmgr/resmgr/dbutils.py:770-790 | Marking keeps one active version for every role |
| RoleVersions.MarkLeavesOthers | resmgr/resmgr/dbutils.py:770-790 | Marking leaves other roles alone |
| RoleVersions.RoleDb.SaveRoleInDb | resmgr/resmgr/dbutils.py:792-849 | Refused without effect exactly if the specification does not validate |
| RoleVersions.RoleDb.MarkRoleActive | resmgr/resmgr/dbutils.py:770-790 | Refused exactly if there is no such version; else committed together with a change to another version only |
| RoleVersions.RoleDb.DeactivateOthers | resmgr/resmgr/dbutils.py:834-838 | All other versions of the role become inactive, nothing else changes |
| ConsulRoles.ActiveAfterConfig | resmgr/resmgr/consul_roles.py:96-131 | After any inputs that end in a document that validates, the version that Consul called active last is the active one exactly if it is the document's own or its own document validates; otherwise, and where none was named, it is the document's |
| ConsulRoles.RecordIsLastNamed | resmgr/resmgr/consul_roles.py:109-113 | What is recorded for a role is the latest document that Consul called its active version on arrival, and nothing if there was none |
| ConsulRoles.NamedVersionActivates | resmgr/resmgr/consul_roles.py:105-118 | A document that validates and that Consul names becomes the active version, whatever was recorded before |
| ConsulRoles.LastValueCounts | resmgr/resmgr/consul_roles.py:133-143 | A parameter has the value it was given last |
| ConsulRoles.RecordedVersionNotActive | resmgr/resmgr/consul_roles.py:96-131 | Two documents after which the version that Consul calls active is not the active one |
| ConsulRoles.ConfigLeavesOthers | resmgr/resmgr/consul_roles.py:115-131 | A document leaves other roles alone, and every role if it does not validate |
| ConsulRoles.DocumentKept | resmgr/resmgr/consul_roles.py:128-131 | A document is stored or stays pending; it becomes pending exactly if it, or the recorded active document that has to follow it, does not validate; no other one does, and earlier pending ones stay |
| ConsulRoles.Watcher.OnConfigChange | resmgr/resmgr/consul_roles.py:96-131 | The registry changes as the reference step says |
| ConsulRoles.Watcher.OnParamsChange | resmgr/resmgr/consul_roles.py:133-152 | Every pending document is tried again exactly once, after the parameter is set |
| HostSettings.LastNamedWins | resmgr/resmgr/dbutils.py:656-666 | A setting that a call named has the value of the last accepted call that named it |
| HostSettings.FirstDefaultStays | resmgr/resmgr/dbutils.py:621-628 | Otherwise the default of the first accepted call whose version defined it |
| HostSettings.UndefinedKeepsValue | resmgr/resmgr/dbutils.py:650-654 | Rejected calls and calls for other roles or hosts change nothing |
| HostSettings.CallTakesEffect | resmgr/resmgr/dbutils.py:641-666 | One call: no effect if a given setting is not defined by the version; else a given value before a stored one before a default, and nothing else changes |
| HostSettings.StoredBeatsDefaults | resmgr/resmgr/dbutils.py:621-628 | A stored setting that no call names keeps its value whatever the defaults |
| HostSettings.HostTable.InsertUpdateHost | resmgr/resmgr/dbutils.py:631-697 | Success exactly applies the call; failure leaves the table; unknown keys are refused untouched; for a new host the caller's dictionary gets the defaults too |
| HostSettings.HostTable.FillBody | resmgr/resmgr/dbutils.py:622-628 | Defaults are added where nothing is set |
| FirmwareApps.ServedReportSatisfies | bbone/bbmaster/bbmaster/pf9_firmware_apps.py:137-157 | A report satisfies what bbmaster stored exactly if the report as served satisfies what the resource manager expects and the firmware applications are as the site wants them |
| FirmwareApps.NamingFirmwareNeverSatisfied | bbone/bbmaster/bbmaster/pf9_firmware_apps.py:150-157 | An expected configuration that names a firmware application is never satisfied by what is served |
| FirmwareApps.NothingSentMeansSatisfied | bbone/bbmaster/bbmaster/bbone_provider_pf9_pika.py:386-406 | A settled host is sent nothing exactly if its report as served satisfies the expected configuration and its firmware is as wanted; likewise for one on its way |
| FirmwareApps.StripUndoesInsert | bbone/bbmaster/bbmaster/pf9_firmware_apps.py:137-157 | Removing undoes inserting exactly if the configuration names no firmware application |
| FirmwareApps.SuccessIsServed | bbone/bbslave/bbslave/session.py:686-702 | From push to poll: a success after a real run of the pushed configuration, as served, satisfies the expected one |
| FirmwareApps.FilteringKeepsSpec | resmgr/resmgr/resmgr_provider_pf9.py:522-532 | Leaving out du_config does not change what satisfies a specification |
| FirmwareApps.FirmwareInserted | bbone/bbmaster/bbmaster/pf9_muster.py:24-33 | pf9-comms is inserted on every site, pf9-muster on all but DDU and ISV sites, and the rest is kept |
| FirmwareApps.FirmwareHidden | bbone/bbmaster/bbmaster/pf9_firmware_apps.py:150-157 | pf9-comms is hidden on every site, pf9-muster on all but DDU sites |
| FirmwareApps.Provider.InsertFwAppsConfig | bbone/bbmaster/bbmaster/pf9_muster.py:24-33 | Each firmware application is set, pf9-muster not on an ISV site, and the rest kept |
| FirmwareApps.Provider.RemoveFwAppsConfig | bbone/bbmaster/bbmaster/pf9_firmware_apps.py:150-157 | All firmware applications go from both dictionaries of a report |
| FirmwareApps.Provider.GetHosts | bbone/bbmaster/bbmaster/bbone_provider_pf9_pika.py:84-93 | What is served is a stripped copy of the selected reports; the stored table is not changed |
| FirmwareApps.Provider.SetHostApps | bbone/bbmaster/bbmaster/bbone_provider_pf9_pika.py:95-113 | The configuration is stored with firmware, an unknown host entered as missing, and set_config queued exactly if the host is settled on, or on its way to, something else; a channel that is down raises, with all this stored |

## Left out

- HTTP, AMQP, the Consul client, RabbitMQ management, subprocesses and package managers: each is a step that succeeds or fails arbitrarily.
- SQLAlchemy is a table with atomic transactions; ConfigParser is a default map and section maps.
- Whether the pushed configuration is current: the poller works from the snapshot of its poll, so an edit made after it can be pushed with old details. No theorem claims more.
- That a role in applied has had on_auth_converged: false by design, because a failed on_deauth goes to applied from auth-error and deauth-error too.
- Host deletion racing with a concurrent add_role after the last role is removed, and the in-memory dictionaries of unauthorized hosts.
- Rollback of settings and version when add_role is rejected: the code writes both before the conflict check and keeps them.
- ResourceManager.RoleManager.SweepRoles: the method has no other thread between its actions; interleavings are the subject of the protocol theorems.
- The libcgroup-tools installation inside process_apps, which does not touch the application table, and process_agent_update.
- Application specifications that are not dictionaries of dictionaries; messages without opcode or data, which change nothing.
- ResourceManager.RoleManager.PushConfiguration: the contents of what is pushed, and which keys are filtered out of it, are not part of this contract; FirmwareApps.FilteringKeepsSpec has the filter.
- MockApps.App.SetDesiredServiceStates: the second mock class assigns before a later check of the same call can raise; the model takes all or nothing.
- HostSession.RunsApplyThePersistedConfig: disk errors while the desired configuration is read or written are not modelled.
- Whether a status that was sent, or a support bundle, reaches the broker.
- The default list that an application's configuration shares with other instances, and the services dictionary that the second mock class shares with the specification.
- Text encodings and the temporary file of merge_params; carriage returns, which are translated when a file is read; byte-level idempotence, which does not hold, because each merge adds empty lines.
- ConfigFiles.Disk.MergeParams: nothing is said of names with blanks, empty values or values with line breaks, which the patterns do not read back, nor of values that are not strings.
- IniJson.IniStore.MergeAndDeleteParams: keys are taken in the lower-case form in which ConfigParser stores them, and values are strings.
- Ownership, directories and write errors of certificate files; only whether a path is a file counts.
- Rendering of role specifications: whether one validates is a function of the parameters and the specification.
- ConsulRoles.Watcher.OnParamsChange: database errors, which lose the remaining pending documents, and malformed JSON are not modelled.
- HostSettings.HostTable.InsertUpdateHost: another process that inserts the host between two attempts is not modelled; defaults are an input.
- Deletion of hosts, host details other than role settings, encryption, migrations, redaction, support bundles, extensions, metrics and notifications.
- Aliasing between a host's stored report and the applications inside it; a report is replaced as a whole.
