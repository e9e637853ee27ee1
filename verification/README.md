# parentald, modelled and proved in Dafny

parentald decides when the users of a Linux machine may be logged in, writes the users who may not
into a deny file, and counts which apps they use. This project models the parts that decide, store,
enforce, count and report, and proves what they promise. `dafny verify dfyconfig.toml` checks all of it.

- `Schedules.dfy`: instants, times of day, weekly schedules, the next start and the active end. An
  instant is a number of nanoseconds of local time in a zone of one fixed offset; day 0 is Thursday
  1970-01-01.
- `Configs.dfy`: the configuration as a value. The access decision, the administrator's operations
  and the clean-up of expired fields are functions; their properties are lemmas over any run of requests.
- `Slices.dfy`, `ConfigStore.dfy`: the configuration store as a mutable object. Schedule lists are
  slices of shared backing arrays, edited in place; the file is saved step by step and may fail or
  crash at any step. Its methods are proved to do what the functions of `Configs.dfy` say.
- `DenyList.dfy`, `Enforcement.dfy`: the deny file as text, and the enforcement ticks.
- `ProcessForest.dfy`, `Cgroup.dfy`: the process forest and the names of application scopes.
- `Tracker.dfy`, `ActivityStore.dfy`, `Ledger.dfy`: counting on the daemon, the server's tables, and
  the reporting protocol between them, in which a send is acknowledged, or never recorded, or recorded
  although the daemon hears of a failure, and in which the daemon may exit after any round and be started
  again.
- `Fleets.dfy`: any number of daemons that report to one server, their rounds interleaved in any way.
- `DayView.dfy`, `ScheduleBars.dfy`: a day of activity over all hosts, rankings, and the bars drawn for
  a weekday.
- `Wrappers.dfy`, `Text.dfy`, `Sorting.dfy`, `Totals.dfy`: result types, string operations, an in-place
  sort, sums over tables.

Clocks, failures, crashes, the network, the contents of `/proc` and the session states are parameters.
The iteration over a Go map is a choice of any key next. Each update of the store and of the tracker
holds a lock in the original, so a run is a sequence of whole operations.

What is false of the code is stated with an instance, and with the exact condition for it to hold:

- the end that `ScheduleEndTime` reports is where access stops, for all instants of a day, exactly if no
  window spans the end of one that is somewhere the first listed (`OverlapEndsEarly`, `WindowEndsExact`);
- the locks of a user without a bonus all end in allowed time exactly if there are no schedules at all
  (access is then allowed at the sentinel too), or some schedule has a recognised day and a start that
  parses, and every such start lies inside some window (`BackwardsWindowLock`, `NeverOpenLock`,
  `LockEndsInSchedule`, `LocksEndAllowedExactly`);
- eager clean-up goes unnoticed exactly if no request reads its clock more than a nanosecond before an
  earlier request's clean-up, for requests that each take less than 292 years, the longest time that a
  duration can hold (`StaleClockSeesCleanup`, `CleanupInvisibleExactly`);
- a bonus lasts the minutes granted exactly up to 153 722 867 of them, where a 64-bit duration overflows;
  beyond, it is too short, and it ends before its base exactly if the nanoseconds modulo 2^64 have the
  sign bit set (`OverlongBonusIsLost`, `GrantExact`);
- the deny file reads back as written, and exactly the newly denied are terminated, exactly if every
  denied name is non-empty, without newline and without surrounding space (`SpacedNameIsLost`,
  `SpacedNameHidesAnother`, `ParsePrint`, `TerminationExact`);
- an application id (not empty, without `/` and newline) survives the scope name exactly if the launcher
  has no hyphen and the id does not itself contain `\x2d` (`ParseHyphenLauncher`: from launcher
  `gnome-shell` the id `steam` comes back as `shell-steam`; `EscapedHyphenIsLost`, `ScopeRoundTrip`);
- app time stays within screen time exactly until a send of app time fails and the daemon goes on, because
  screen time is not merged back; the server's rows then stay within it over every further run without a
  failed send exactly if the tracker is within it too (`UndeliveredOutruns`, `UndeliveredReachesRows`,
  `BoundExact`, `RowsStayBoundedExactly`);
- the bar of a schedule shows its access exactly if, where it opens, the day is written in lower case, and,
  where it does not, no bar is to be seen; the bars of all lists of some schedules show their access exactly
  if each schedule's bar does (`LooseTimeIsDrawn`, `CapitalDayIsNotDrawn`, `BarExact`, `BarsExact`).

Where the code and its documentation differ the model follows the code: the comment on
`NextScheduleStart` says that it returns nil if there are no schedules, but it also does so if none of
them has a recognised day and a start that parses; and the repository's README says that activity is
stored in one JSON file per day, while the code keeps it in tables.

## Model

| member | source | states |
|---|---|---|
| Schedules.ParseTimeReadsClock | internal/config/schedule.go:156-163 | exactly the readings of a 24-hour clock parse, with or without a leading zero, and to their minute of the day |
| Schedules.ContainsDay | internal/config/schedule.go:147-154 | found exactly when some listed day equals the weekday's name in lower case |
| Schedules.IsInSchedule | internal/config/schedule.go:49-73 | true exactly when some schedule of that weekday has parseable times around the minute |
| Schedules.WeekdayExact | internal/config/schedule.go:9-17 | a schedule for "mon", written in any case, is in force exactly on the days 4, 11, … after 1970-01-01 between its times, and starts exactly then; likewise each other weekday |
| Schedules.EightDaysSuffice | internal/config/schedule.go:85-108 | any start after now, however far, is matched or beaten by one the eight-day search considers |
| Schedules.SearchDay | internal/config/schedule.go:87-111 | after one day of the search the candidate is a later start, and no later than any start of that day |
| Schedules.NextScheduleStart | internal/config/schedule.go:77-115 | the earliest start strictly after now over the whole future; none exactly when no schedule is usable |
| Schedules.ScheduleEndTime | internal/config/schedule.go:119-145 | an end exactly inside a window, and every instant from now to it is in schedule |
| Schedules.WindowEndExact | internal/config/schedule.go:119-145 | the end reported for an instant is the first one out of schedule exactly when no window of the day spans the end of the first listed schedule that is open then |
| Schedules.WindowEndsExact | internal/config/schedule.go:119-145 | all ends reported on a day are right exactly when no window spans the end of a schedule that is the first open one at some minute |
| Schedules.WindowEndIsFirstOut | internal/config/schedule.go:119-145 | with windows that neither overlap nor touch, the end is the first instant out of schedule |
| Schedules.OverlapEndsEarly | internal/config/schedule.go:119-145 | two overlapping windows for which the reported end is still in schedule |
| Schedules.NothingCrossesMidnight | internal/config/schedule.go:49-73 | a stretch that is in schedule throughout lies within one day |
| Configs.OthersUntouched | internal/server/handlers.go:208-361 | no operation adds, removes or changes a user other than the one it names |
| Configs.DeleteUndoesAdd | internal/server/handlers.go:250-278 | deleting the schedule just added gives back the configuration |
| Configs.CleanupInvisible | internal/config/store.go:104-130 | over any run in which no request's clock is more than a nanosecond before an earlier clean-up, no access decision now or later shows whether expired fields were cleaned up |
| Configs.StaleClockSeesCleanup | internal/config/store.go:104-130 | a family of two-request runs with clocks out of order in which clean-up changes access at an instant after both clean-ups |
| Configs.CleanupInvisibleExactly | internal/config/store.go:104-130 | for any list of clock readings: at no time during a run at them do any configuration, requests and user show the clean-up, exactly when the readings are in order |
| Configs.LockHolds | internal/server/handlers.go:287-302 | after a lock every instant before its end is denied, whatever bonus is stored and whatever is done but lifting or renewing the lock or deleting the user |
| Configs.RenewedLockHolds | internal/server/handlers.go:287-302 | locking again before the end changes nothing: through any renewals and requests for others the end stays and every instant before it is denied |
| Configs.LockEndMeaning | internal/server/handlers.go:293-300 | the lock runs to the earliest start after now, or without a usable start to the year-9999 sentinel |
| Configs.LockWithoutStart | internal/server/handlers.go:293-300 | a lock of a user without a usable start runs to the first instant of the year 9999, counted by the leap-year rule, and denies until then through any requests but those that end it |
| Configs.SentinelIsNewYear | internal/server/handlers.go:297-299 | the sentinel is the first instant of the year 9999 |
| Configs.UnlockLifts | internal/server/handlers.go:311-325 | after an unlock and any requests but a lock the user has no lock, and is allowed exactly if a bonus runs, there are no schedules, or one is in force |
| Configs.UnlockKeepsRest | internal/server/handlers.go:311-325 | an unlock changes neither the schedules nor a running bonus |
| Configs.DeleteRemoves | internal/server/handlers.go:221-233 | a deleted user is gone, and unrestricted, through any requests for others |
| Configs.AddedUserIsFree | internal/server/handlers.go:200-219 | a new user has no schedules and is allowed at any time |
| Configs.AddedScheduleAllows | internal/server/handlers.go:235-261 | an accepted schedule comes last, and without lock and bonus access is then given exactly by it and the ones before |
| Configs.DeletedScheduleIsGone | internal/server/handlers.go:263-285 | deleting by position takes out that schedule and keeps the order of the others, and a position outside the list takes out none |
| Configs.RefusedChangesNothing | internal/server/handlers.go:200-336 | an empty name, an incomplete schedule and an amount that is not a positive 64-bit number change nothing |
| Configs.LockEndsInSchedule | internal/server/handlers.go:287-302 | locks taken at all instants end in schedule exactly when some schedule is usable and every start lies inside some window |
| Configs.LocksEndAllowedExactly | internal/server/handlers.go:287-302 | for a user without a bonus access is allowed at the end of every lock exactly when there are no schedules, or some schedule is usable and every start lies inside some window |
| Configs.NeverOpenLock | internal/server/handlers.go:293-300 | with a schedule that never opens every lock runs to the sentinel, where access is denied |
| Configs.LockEndIsFirstAllowed | internal/server/handlers.go:287-302 | with well-formed schedules the lock's end is the first allowed instant |
| Configs.BackwardsWindowLock | internal/server/handlers.go:287-302 | with a window that closes before it opens, the lock ends when access is denied |
| Configs.GrantExact | internal/server/handlers.go:327-362 | whatever amount is accepted, the stored end is its base plus the minutes exactly up to the largest amount that fits, and earlier beyond; it is before its base exactly if the wrapped duration is negative |
| Configs.OverlongBonusIsLost | internal/server/handlers.go:338-362 | one minute too many, and a bonus outside the schedule has ended before it is granted; twice as many, and it lasts less than half a minute |
| Configs.BonusesStack | internal/server/handlers.go:341-362 | bonuses granted one before the other's end add up to the first base plus all minutes, through any other requests but a lock or deletion, and are time of access until then |
| Slices.Append | internal/server/handlers.go:252 | appends within spare capacity in the same array, or else in a new one |
| Slices.Remove | internal/server/handlers.go:275 | shifts the tail down in the same array, leaving the list without the item |
| Slices.Allocate | internal/config/store.go:84-101 | a table with the given contents in arrays all its own |
| ConfigFile.Disk.Save | internal/config/store.go:50-77 | whatever step an error or crash stops at, the stored file is the old one or the new one, the new one exactly if the rename took place, and no other file changes but the temporary one |
| ConfigFile.DiskIsLastRename | internal/config/store.go:50-77 | after any run the disk holds the memory of the last request that completed a rename |
| ConfigFile.NothingCommitted | internal/config/store.go:50-77 | a run without a completed rename leaves the disk as it was |
| ConfigFile.FaultFreeRun | internal/config/store.go:104-111 | without faults memory and disk are both the result of the requests |
| ConfigStore.Store.Load | internal/config/store.go:24-46 | a missing file gives the empty configuration, a readable one its contents, an unreadable or malformed one an error and no change |
| ConfigStore.Store.Get | internal/config/store.go:80-101 | a copy with the same contents in arrays all its own |
| ConfigStore.Store.Update | internal/config/store.go:104-111 | memory follows the request and its clean-up; the disk follows exactly if the rename took place |
| ConfigStore.Store.Apply | internal/server/handlers.go:208-361 | the in-place closures do to the contents what the value operations say, and keep all live arrays apart |
| ConfigStore.Store.LockUser | internal/server/handlers.go:291-302 | only the named user changes, locked to the next start or the sentinel |
| ConfigStore.Store.AddBonus | internal/server/handlers.go:341-362 | only the named user changes: no lock, and a bonus on top of a running one, else of the active window's end, else of now |
| ConfigStore.Store.CleanupExpired | internal/config/store.go:115-130 | exactly the fields strictly in the past are cleared, of every user |
| ConfigStore.RunStore | internal/config/store.go:24-130 | any run of requests, errors, crashes and restarts does to memory and disk what the run of values does, in the same store or a new one and without taking over any array that existed |
| ConfigStore.SnapshotIsolated | internal/config/store.go:80-101 | a snapshot keeps its schedule lists through any later run on the live store, and shares no array with it afterwards |
| DenyList.ParsePrint | internal/denylist/denylist.go:12-67 | reading what was printed gives the same names exactly when all of them are clean |
| DenyList.PrintedLines | internal/denylist/denylist.go:12-67 | whatever the names, reading gives the lines of each in turn, trimmed and without the blank ones |
| DenyList.ReadBackExact | internal/denylist/denylist.go:22-28 | a set of names reads back as itself exactly when all are clean; what is read is clean, and a clean name is read whatever else is listed |
| DenyList.SpacedNameIsLost | internal/denylist/denylist.go:22-28 | a clean name with a space, a tab or a carriage return in front or behind reads back without it |
| DenyList.PrintableIsClean | internal/denylist/denylist.go:22-28 | a name of printable ASCII characters reads back as it is |
| DenyList.PrintEndsLines | internal/denylist/denylist.go:46-49 | the text is the names in order, each with a newline behind it |
| DenyList.ParseIsClean | internal/denylist/denylist.go:22-28 | every name read is non-empty, trimmed and without newline |
| DenyList.FilterCounts | internal/denylist/denylist.go:77-86 | the newly denied names are those not listed before, each as often as it was denied |
| DenyList.DenyFile.Read | internal/denylist/denylist.go:12-30 | the names of the text's lines, none for a missing file, an error if it cannot be read |
| DenyList.DenyFile.Write | internal/denylist/denylist.go:32-68 | the given names sorted in place, and the file replaced by their text or left as it was |
| DenyList.DenyFile.Sync | internal/denylist/denylist.go:71-89 | the names not listed before, and the file in line with the denied names unless an operation fails |
| Sorting.SortInPlace | internal/denylist/denylist.go:33 | the array sorted, a permutation of what it was |
| Sorting.SmallerCharacterFirst | internal/denylist/denylist.go:33 | of two names the one with the smaller character at the first difference comes first |
| Sorting.ShorterFirst | internal/denylist/denylist.go:33 | a name comes before the ones it starts |
| Enforcement.Enforce | cmd/daemon/main.go:190-217 | the file lists exactly the denied users, sorted; those it did not list before are terminated; after a failure nobody is and the file stays |
| Enforcement.ListsDenied | cmd/daemon/main.go:190-204 | after a successful tick the file reads as the sorted denied names exactly when those are clean |
| Enforcement.ListsLines | cmd/daemon/main.go:190-204 | whatever the denied names, the file reads as their lines |
| Enforcement.TerminationHistory | cmd/daemon/main.go:190-217 | over any run a tick terminates exactly those denied now whose name is not a line of those denied at the last successful tick, however many failed between; one that fails terminates nobody |
| Enforcement.TerminationExact | cmd/daemon/main.go:190-217 | every later successful tick terminates exactly those denied now and not then, exactly when all names denied then are clean |
| Enforcement.SpacedNameHidesAnother | cmd/daemon/main.go:190-217 | a denied name with space around it reads back as another user's, who is then not terminated when newly denied |
| Enforcement.FirstTermination | cmd/daemon/main.go:190-217 | until a tick succeeds, each compares with the file the daemon found |
| Enforcement.UncleanEndsAgain | cmd/daemon/main.go:200-212 | a denied name that is not clean is terminated at every successful tick |
| Enforcement.LockReachesFile | cmd/daemon/main.go:190-217 | through any requests that leave the lock in place, each successful tick before the lock's end lists the locked user, exactly if the user's name is clean |
| Enforcement.BonusReachesFile | cmd/daemon/main.go:190-217 | a user with a running bonus is never terminated, and is listed only if the name is a line of an unclean denied one |
| Enforcement.RunEnforcement | cmd/daemon/main.go:78-95 | the file after any run of ticks, and empty after the shutdown's write |
| ProcessForest.BuildProcessTree | internal/activity/proc.go:91-96 | each process's list holds exactly its children, once each, in any order |
| ProcessForest.LevelBound | internal/activity/proc.go:144-161 | a process below a root is fewer levels down than there are processes, so the recursion ends |
| ProcessForest.VisitedUnlessCircular | internal/activity/proc.go:104-122 | a process is below a root exactly when its parent is in the snapshot and its ancestors do not run into a circle |
| ProcessForest.FindAppIDInSubtree | internal/activity/proc.go:184-194 | an id of the subtree with no other id on the way up from it, so the process's own if it has one, and none only if the subtree has none |
| ProcessForest.ResolveAppName | internal/activity/proc.go:176-181 | an id from the subtree, or else the executable |
| ProcessForest.Scan.CollectSubtreeExes | internal/activity/proc.go:144-161 | visits every process of the subtree exactly once and notes exactly their labels |
| ProcessForest.Scan.FindTopLevelApps | internal/activity/proc.go:104-129 | for any snapshot: visits exactly the processes below session roots, once each, and returns exactly their labels and one resolved name per child of a root |
| ProcessForest.ScanUserProcesses | internal/activity/proc.go:28-40 | for any snapshot, circles included: building the tree and scanning it visits exactly the processes below session roots, once each, and gives exactly their names: under Wine the command's, otherwise the executable's, for a reaper also the id it starts, and one resolved name per child of a root |
| ProcessForest.ReaperIsNoted | internal/activity/proc.go:151-172 | a reaper whose command line has the word AppId=N, and none such before it, gives appid:N |
| Cgroup.ParseAppIDFromCgroupData | internal/activity/proc.go:246-296 | the id of the first line that gives one, else none |
| Cgroup.ParseScope | internal/activity/proc.go:249-293 | a scope path of any prefix, hyphen-free launcher, body and number gives the unescaped body |
| Cgroup.ParseHyphenLauncher | internal/activity/proc.go:262-284 | what stands behind the launcher's first hyphen counts as part of the id, unescaped |
| Cgroup.ParseUnnumbered | internal/activity/proc.go:269-275 | without a number at its end the whole rest behind the launcher is the id |
| Cgroup.ParseSingle | internal/activity/proc.go:269-281 | a single word behind the launcher is the id, even if it is a number, and an empty one gives none |
| Cgroup.ParseNoLauncher | internal/activity/proc.go:262-266 | a scope without a hyphen gives none |
| Cgroup.ParseNoScope | internal/activity/proc.go:249-252 | a line without an application's scope gives none |
| Cgroup.UnescapeKeeps | internal/activity/proc.go:284 | unescaping keeps a text exactly when it contains no escaped hyphen |
| Cgroup.UnescapeEscape | internal/activity/proc.go:283-284 | unescaping gives the same with or without escaping first |
| Cgroup.ScopeRoundTrip | internal/activity/proc.go:246-296 | parsing gives back the id escaped into the scope name of the first matching line, exactly if the launcher has no hyphen and the id contains no escaped one |
| Cgroup.ScopeLineRoundTrip | internal/activity/proc.go:249-293 | the same for one line, which always gives some id |
| Cgroup.PlainIDComesBack | internal/activity/proc.go:246-296 | from a hyphen-free launcher an id without a backslash always comes back from its scope name |
| Cgroup.EscapedHyphenIsLost | internal/activity/proc.go:283-284 | an id such as `a\x2db` comes back as `a-b` |
| Tracking.Tracker.Tick | internal/activity/tracker.go:42-110 | the interval is added once to each active user and once to each distinct name their processes resolve to, and each is marked online or idle; entries keep their category and icon, and new ones have those of a process found |
| Tracking.MarkExact | internal/activity/tracker.go:48-53 | after a tick its users are online or idle as their sessions are active or not, and other marks stay |
| Tracking.ResolveExact | internal/activity/tracker.go:70-96 | a process stands for the game of a known application id, else for none if it is an id, else for what the lookups know, else for itself with the icon found |
| Tracking.Tracker.CountApps | internal/activity/tracker.go:68-108 | the seconds of exactly the apps that some process stands for grow by one interval, however many do; entries keep their category and icon, and a new one has those of such a process |
| Tracking.Tracker.Flush | internal/activity/tracker.go:113-143 | the report lists every entry with its category, icon and seconds, the screen time and the session states, and nothing is left; no report only if there was nothing |
| Tracking.Tracker.Merge | internal/activity/tracker.go:146-167 | the report's app seconds are added back, user by user, screen time is not; entries keep their category and icon, and new ones have those of the report |
| Tracking.MergeRestores | internal/activity/tracker.go:113-167 | merging a report back into an empty tracker restores each user's entries, categories and icons included |
| ActivityStores.ActivityStore.Record | internal/activity/store.go:105-180 | all of a report is added to the rows of one date and host, with the last category given for each app, an icon given for it, and the session states, or nothing changes |
| ActivityStores.LastCategoryExact | internal/activity/store.go:116-121 | a row has the category that its app's last entry with one gives, or keeps its own |
| Ledger.TickAdds | internal/activity/tracker.go:42-110 | per user and app, a tick adds the seconds counted from its users and their processes alone |
| Ledger.OneProcessCounts | internal/activity/tracker.go:65-108 | a tick of one process adds the interval to exactly the app that it stands for, in each of the five ways to find it |
| Ledger.ProcessOrderIrrelevant | internal/activity/tracker.go:65-108 | order and repetition in the process list do not change the names that are counted |
| Ledger.AppLedger | cmd/daemon/main.go:226-238 | over any run of rounds and restarts, server seconds, pending ones and those held at exits are the ticked ones plus those of reports whose acknowledgement was lost |
| Ledger.ScreenLedger | cmd/daemon/main.go:226-238 | over any run of rounds and restarts, server, pending and undelivered screen seconds and those held at exits are the ticked ones |
| Ledger.BoundExact | internal/activity/tracker.go:146-167 | a round keeps app time within screen time everywhere exactly unless it is a failed send of app time that the daemon survives |
| Ledger.UndeliveredOutruns | internal/activity/tracker.go:146-167 | a run of one tick and one undelivered report after which an app has ten seconds and its user no screen time |
| Ledger.UndeliveredReachesRows | internal/activity/tracker.go:146-167 | with one more, acknowledged round the server's row has twenty seconds of the app in ten of screen time |
| Ledger.RunKeepsBound | cmd/daemon/main.go:78-90 | over any run without a failed send, app time stays within screen time in the tracker and in every row |
| Ledger.RowsStayBoundedExactly | cmd/daemon/main.go:78-90 | bounded rows stay so over every further run without a failed send exactly when the tracker is bounded too |
| Ledger.DayBounded | internal/activity/store.go:204-262 | then also in the sums of a day over all hosts |
| Ledger.RecordingRaisesDay | internal/activity/store.go:105-209 | a recorded report raises the app sums over hosts of its own date by its seconds, and no other date's |
| Ledger.RecordingRaisesDayScreen | internal/activity/store.go:105-230 | and the screen time of its own date likewise |
| Ledger.TrackAndReport | cmd/daemon/main.go:226-238 | tick, flush, send and merge do to tracker and tables what the round does before the daemon goes on or exits |
| Ledger.RunDaemon | cmd/daemon/main.go:67-95 | any run of the loop, with exits and new starts, does to tracker and tables what the run of values does |
| Fleets.RunsAlone | cmd/daemon/main.go:226-238 | however the rounds of several hosts interleave, what a host holds and what the server has from it is what its own rounds alone make it |
| Fleets.FleetLedger | cmd/daemon/main.go:226-238 | the app and screen ledgers of each host hold over any interleaving |
| Fleets.FleetKeepsBound | internal/activity/store.go:105-161 | over any interleaving without a failed send app time stays within screen time in every tracker and row |
| Fleets.RunFleet | cmd/daemon/main.go:67-95 | the interleaved loops, with exits and new starts, do to all trackers and the tables what the run of values does |
| Fleets.ShowDay | internal/activity/store.go:200-285 | after any interleaving without a failed send, on any day no app shows more than its user's screen time over all hosts |
| DayView.QueryApps | internal/activity/store.go:204-209 | one group for each user and app of the date, with the sum over hosts and a category of one of its rows |
| DayView.GetDay | internal/activity/store.go:200-285 | exactly the users of the date, with sums over all hosts, a category and the icon of each app; each app is once in the list of its category, or in "Other" without one, and in no other; the lists go down in seconds, and each total is the sum over its category's apps |
| DayView.DayWithinScreenTime | internal/activity/store.go:200-285 | on bounded tables no app of the day exceeds the screen time |
| Rankings.BuildCategories | internal/activity/store.go:265-282 | each app is once in the list of its category, or in "Other" without one, and in no other; the lists go down in seconds; each total is the sum over its category's apps, and all add up to the sum of all apps |
| Rankings.InExactlyOneList | internal/activity/store.go:269-276 | an app is once in its category's list and in no other |
| Rankings.SortedApps | internal/server/templates.go:218-232 | exactly the apps with a category, more seconds first and at a tie by name |
| Rankings.RankingUnique | internal/server/templates.go:218-232 | there is one such list, whatever order the map yields |
| Rankings.TopFourCut | internal/server/handlers.go:75-80 | a kept app has at least the seconds of every app with a category that is cut off, and at a tie the earlier name |
| ScheduleBars.LenientAgrees | internal/server/templates.go:174-180 | whatever the strict time parser reads, the lenient one reads as the same minute |
| ScheduleBars.ScanReads | internal/server/templates.go:174-180 | a number is read behind blanks, with or without a sign, up to the first character that is no digit |
| ScheduleBars.DrawBars | internal/server/templates.go:148-172 | a bar for each schedule that lists the day literally and ends after it starts, in order |
| ScheduleBars.LabelShowsTimes | internal/server/templates.go:166-170 | a bar's label shows both times as they are written |
| ScheduleBars.BarsShowSchedule | internal/server/templates.go:148-172 | the bars of a weekday cover exactly its minutes in schedule if each schedule's bar shows that schedule |
| ScheduleBars.TidyBarsShowSchedule | internal/server/templates.go:148-172 | so they do with days in lower case and times that parse |
| ScheduleBars.BarsExact | internal/server/templates.go:148-172 | the bars of all lists of given schedules show their access exactly when each schedule's bar does |
| ScheduleBars.BarExact | internal/server/templates.go:148-172 | for one schedule of any texts, when bar and access agree on a whole day |
| ScheduleBars.LooseTimeIsDrawn | internal/server/templates.go:174-180 | a bar is drawn from `8:5`, which grants no access |
| ScheduleBars.CapitalDayIsNotDrawn | internal/server/templates.go:152-160 | no bar is drawn for `MON`, on which access is granted |

## Left out

- HTTP routing, cookies, pages, translations, charts, the installer and the self-updater: plumbing around the parts modelled.
- Signatures, keys and the configuration cache: the configuration of a tick and whether it is trusted are parameters.
- Time-zone databases and daylight saving: one fixed offset, in which adding a day adds 24 hours.
- The days of a schedule are a sequence, not a slice of their own: nothing in the original ever writes an element of one, so that the live list and a snapshot share it cannot be noticed.
- JSON: encoding and decoding are parameters assumed to be inverse on configurations; a torn file is any prefix of the data.
- ConfigFile.Disk.Save: temporary file names are numbered, so that an unused one never equals the configuration's own name.
- DenyList.DenyFile.Write: its file steps are one step that succeeds or fails, as none but the rename touches the deny file.
- The SQL engine: tables are maps by primary key, a transaction commits as a whole or not at all, and a grouped column outside the grouping has the value of any row of its group.
- Reading /proc, control-group files and loginctl, and the lookups by .desktop files: process snapshots, ids, session states and lookups are parameters; exact lookup heuristics would add easy members.
- Configs.CleanupInvisibleExactly: no request's clean-up comes 292 years after its own clock reading, as no grant need outlast it then; that clocks in order never show has no such bound (Configs.CleanupInvisible).
- Schedules.IsInSchedule: lower-casing covers A to Z and the two other characters whose lower case is ASCII, which is all that a comparison with a weekday's name can see.
- Sorting.SortInPlace: an insertion sort stands for the library's sort; only its result matters here.
- Tracking.Tracker.Tick: the interval is a whole number of seconds, as the original truncates it.
- Chart queries, the two-minute offline cutoff, user states on the pages and the migration from JSON: each is settled by reading a branch.
