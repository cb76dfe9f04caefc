# ship-grip-fim: a verified model

ship-grip-fim is a file integrity monitor. It walks a directory tree and hashes every file, saves
the result as a report, compares reports, and offers all of this through an agent that answers
commands over a connection, runs scheduled scans and publishes metrics. This project models the
parts of it that are easy to get subtly wrong and proves what they promise, for all inputs, all
orders of map iteration and all interleavings.

| file | what it models |
|---|---|
| `Text.dfy`, `Order.dfy` | strings as Go's `strings` and `bufio` treat them; ordered listings, ranks, counting |
| `Compare.dfy`, `CompareLaws.dfy` | the comparison of two scans and its laws |
| `Walk.dfy`, `Pipeline.dfy` | the directory walk and the worker pool that hashes files |
| `Reports.dfy`, `Strip.dfy`, `ReportCompare.dfy` | report files, removal of base paths, comparing saved reports |
| `Names.dfy`, `ReportListing.dfy` | time stamps in file names, the last two reports, state after a restart |
| `Scheduler.dfy`, `AddRace.dfy` | jobs, bounded history, calls that add jobs at once |
| `Operations.dfy`, `RunRecords.dfy` | the state machine of flags, cron jobs and connections; what a run leaves in the history, told from its actions |
| `Users.dfy`, `KnownAgents.dfy` | the users file and the pinned fingerprints |
| `CompareTexts.dfy`, `UserTexts.dfy`, `Replies.dfy` | what commands answer, word for word, and what they change |
| `Protocol.dfy`, `ScheduleCommand.dfy` | the command loop, background operations, the payload of `schedule add` |
| `Client.dfy`, `Remote.dfy` | the client, and whole commands end to end: fetching, comparing, listing users, adding jobs, the exporter |
| `Observed.dfy` | what a reader finds in the answers, told from scans, jobs and users |
| `Matcher.dfy`, `Tables.dfy` | greedy and lazy matching of the two table patterns; tables printed and read back |
| `Metrics.dfy` | the metrics payload printed and read back |

The code that changes things in place is written in place: maps, lists and files are fields that
methods reassign, `range` over a map takes an arbitrary remaining key, and each method is tied to a
specification about which the laws are proved. The agent's goroutines are steps of a state machine,
and a run is any sequence of enabled steps.

## What does not hold

Several expectations fail for some inputs. Each is stated as an exact condition, with the failing
side included.

- Two history entries can be shown as running at once, because a job clears its flag before it
  updates its entry: exactly when two jobs whose entries are among the last 100 have recorded and not
  finished them (`Operations.SeveralRunning`, `Operations.TwoRunning`).
- Removing a base path confuses files when the base occurs again further down: `/a/b/a/c` and
  `/a/b/c` both become `/b/c` for the base `/a` (`Strip.StripExactly`), and the order of map iteration
  decides which hash stays (`Strip.OrderMatters`, `Strip.StripCollision`).
- Two connections that add a job of one name at the same moment can both succeed
  (`AddRace.UniqueExactly`, `AddRace.BothInserted`).
- A fingerprint appended to a file of known agents whose last line has no newline is lost, and may
  change what that line binds (`KnownAgents.RememberedExactly`, `KnownAgents.BindsExactly`), and an
  address starting with `#` is never found again (`KnownAgents.PinEffect`).
- A job whose name starts with `#` is saved as a comment and lost (`Scheduler.ScheduleRoundTrip`).
- Jobs with blanks in their names, and a job called `NAME`, are missing from the table the GUI reads
  (`Tables.JobsReadBack`); a history entry with an empty, padded or broken status is misread
  (`Tables.HistoryReadBack`).
- A job name with `=` or a newline, and a last status with a newline or white space at its end, spoil
  the record at the exporter (`Metrics.JobsReadExactly`), and jobs that share a name share one record
  (`Metrics.OneRecordPerJob`).
- Runs of white space in a job's name or cron expression shrink to one blank on their way to the agent,
  and bars move the boundaries (`Remote.AddReceived`).
- A path with a newline, or a carriage return at its end, does not survive a report file
  (`Reports.DiskRoundTrip`); a header with a comma in name, time or host does not survive either
  (`Reports.HeaderRoundTrip`).
- A report name with an empty part between underscores is not recognised in its own file name
  (`Names.NameRoundTrip`, `ReportListing.SavedScanMatches`, `ReportListing.ScanSurvivesRestart`).
- A reply with a line that trims to the sentinel ends early at the client (`Client.ClientGetsPayload`).

## Model

| member | source | states |
|---|---|---|
| `Compare.BuildCompareReport` | logic.go:185-233 | whatever order the maps are visited in, the report holds exactly the unignored new and missing paths that have no partner, each change once, and the moves in ascending order of old path, where the i-th smallest missing path of a hash is paired with the i-th smallest new path |
| `Compare.ClassifyOld` | logic.go:185-194 | the destructive loop over the old report leaves exactly the paths only the new report has, and finds each missing path and each change once |
| `Compare.GroupByHash` | logic.go:207-210 | each queue holds exactly the new paths with its hash, once |
| `Compare.SortGroups` | logic.go:211-213 | sorting leaves each queue the ascending listing of the new paths with its hash |
| `Compare.PairMoves` | logic.go:219-233 | popping the queues in order of the missing paths pairs equal ranks, skips empty files, and takes exactly the paired paths out of both maps |
| `Compare.PairedOnce` | logic.go:219-233 | pairing by rank is one-to-one |
| `Compare.PartnerOf` | logic.go:219-233 | a missing path has a partner exactly when its rank is below the number of new paths with its hash |
| `Compare.MovePaths` | logic.go:219-233 | the paths of the reported moves are exactly the paths that have a partner, on both sides |
| `CompareLaws.ReportUnique` | logic.go:157-249 | two comparisons of the same scans give the same maps, the same multiset of changes and the same sequence of moves |
| `CompareLaws.ReportInverse` | logic.go:157-249 | comparing the other way round exchanges NEW and MISSING and reverses every change and every move, and nothing else |
| `CompareLaws.MovesOneToOne` | logic.go:207-233 | moves keep the content, lead from a missing to a new path, never concern empty files, and share no path |
| `CompareLaws.MovesPerHash` | logic.go:207-233 | for each hash of a non-empty file there are min(#missing, #new) moves |
| `CompareLaws.NoMoveMissed` | logic.go:207-233 | no hash is left both missing and new, except that of empty files |
| `CompareLaws.MovesMaximum` | logic.go:207-233 | no valid pairing of missing with new paths is larger than the reported one |
| `CompareLaws.SmallestMoved` | logic.go:207-233 | a missing path that is not moved comes after every moved path with its hash: it continues it, or has the greater character where they first differ |
| `CompareLaws.SmallestTaken` | logic.go:207-233 | the same of new paths that nothing is moved to |
| `CompareLaws.MovesInOrder` | logic.go:216-233 | moves stand in the order of their old paths, and those with one hash in the order of their new paths too, character by character |
| `CompareLaws.PatchCorrect` | logic.go:185-233 | applying the report to the old scan gives the new scan on all unignored paths |
| `CompareLaws.OneCategory` | logic.go:185-233 | each differing unignored path is in exactly one category, and no other path in any |
| `CompareLaws.CountEquations` | logic.go:185-233 | unchanged, changed, moved and missing files add up to the old scan, and with new ones to the new scan |
| `CompareLaws.EmptyReport` | logic.go:185-233 | the report is empty exactly when the scans agree on unignored paths |
| `Order.SortStrings` | logic.go:211-218 | sorting gives the ascending listing of the elements |
| `Order.LessExactly` | logic.go:211-218 | one string comes before another exactly if it ends where the other goes on, or has the smaller character at their first difference |
| `Order.LessAtDifference` | logic.go:211-218 | behind a common beginning the first differing characters decide |
| `Order.ListingByCharacters` | logic.go:211-218 | of two elements of a listing the later one goes on where the other ends or has the greater character at the first difference |
| `Order.ListingUnique` | logic.go:211-218 | a set has one ascending listing only |
| `Walk.WalkFiles` | logic.go:55-76 | the recursive walk appends the files of the tree in order |
| `Walk.WalkedExactly` | logic.go:55-76 | a path is collected exactly when it leads to a regular file with no excluded directory above it |
| `Walk.WalkedOnce` | logic.go:55-76 | each such file is collected exactly once and nothing else is |
| `Walk.WalkedDistinct` | logic.go:55-76 | no path is collected twice |
| `Pipeline.StepInv` | logic.go:83-135 | every step of walker, channel and workers keeps the invariant that map and counter are those of the sequential scan of the files handed out, less what workers still hold |
| `Pipeline.StepDecreases` | logic.go:83-135 | every step lowers a measure, so no run is infinite |
| `Pipeline.NoDeadlock` | logic.go:83-135 | short of the end some goroutine can take a step |
| `Pipeline.FinalResult` | logic.go:83-135 | at the end map, unreadable count and checked count are those of a sequential loop |
| `Pipeline.SeqMapAt` | logic.go:83-135 | the sequential result has the hash of every listed file that can be read, and otherwise what was there before |
| `Pipeline.EveryRun` | logic.go:83-135 | for every number of workers and every interleaving: stuck means finished, finished means the sequential result, and the length is bounded |
| `Pipeline.ParallelFileCheck` | logic.go:83-135 | run by an arbitrary scheduler the scan gives the sequential result |
| `Pipeline.FoundIsCheckedOrUnreadable` | logic.go:123-134 | started on an empty map, files found are files checked plus files unreadable |
| `Pipeline.ScanCounts` | logic.go:55-134 | the same for the files of any tree |
| `Reports.SaveToDBFile` | data_file.go:38-61 | one file is written, named by report and time, with the header line and one row per file in some order; other files stay |
| `Reports.LoadReportFile` | data_file.go:134-152 | loading adds the rows after the header to the map, later rows winning |
| `Text.RawLinesWithTail` | data_file.go:140-145 | a file read line by line gives its lines, and what follows the last newline as one more if anything does |
| `Reports.LastRowCounts` | data_file.go:134-152 | the last row of a path gives its hash |
| `Reports.NoRowNoFile` | data_file.go:134-152 | a path without a row is not loaded |
| `Reports.DiskRoundTrip` | data_file.go:38-61 | loading a saved scan gives it back if and only if no path has a newline or ends in a carriage return; commas in paths are harmless |
| `Reports.HeaderRoundTrip` | data_file.go:110-131 | the header is read back if and only if its fields fit one line with three commas before the path |
| `Strip.StripBasePath` | data_file.go:155-165 | the in-place rewriting strips the keys one by one in some order of the keys |
| `Strip.StripsToRest` | data_file.go:155-165 | base plus remainder is stripped to the remainder if and only if the base does not occur in the remainder |
| `Strip.StripExactly` | data_file.go:155-165 | for any map of paths that start with the base and any order of visiting them, stripping leaves each path its remainder and its hash if and only if the base occurs in no remainder |
| `Strip.OrderMatters` | data_file.go:155-165 | all orders of visiting the keys give one map if and only if no path moves onto the place of another that moves, and paths that move to one place carry one hash |
| `Strip.OrdersDiffer` | data_file.go:155-165 | where that fails, two orders that give different maps |
| `Strip.StripAnyOrder` | data_file.go:155-165 | below the base, the result is the same for every order of visiting the keys |
| `Strip.StripInjective` | data_file.go:155-165 | below the base, no two paths are confused and every hash is kept |
| `Strip.StripKeepsCount` | data_file.go:155-165 | below the base, as many paths come out as went in |
| `Strip.StripNothing` | data_file.go:155-165 | an empty base changes nothing |
| `Strip.StripCollision` | data_file.go:155-165 | the failing side of both on two paths below one base: the path visited last decides which hash stays |
| `Strip.RelocateStripped` | data_file.go:155-165 | stripping a tree placed below a base gives the tree back |
| `ReportCompare.CompareReportFiles` | logic.go:157-183 | comparing files fails exactly when a header cannot be read, the old one first, and otherwise compares the loaded maps |
| `ReportCompare.SavedScanPrepared` | data_file.go:168-184 | a saved scan is loaded as it was, or without its base path |
| `ReportCompare.ComparingFilesComparesScans` | data_file.go:168-184 | comparing two saved scans is comparing the scans in memory |
| `ReportCompare.SameTreeTwoBases` | logic.go:177-199 | one tree scanned under two base paths compares as empty with base paths removed |
| `ReportCompare.SaveCompareFile` | data_file.go:186-227 | a comparison file holds both headers and one line per entry of each category; other files stay |
| `ReportCompare.CountReportLines` | agent_metrics.go:233-248 | the count is the number of non-empty lines after the header |
| `ReportCompare.NonEmptyCounts` | agent_metrics.go:233-248 | that number is the number of places of the lines that are not empty |
| `ReportCompare.FileCountRestored` | agent_metrics.go:233-248 | that count of a saved scan is the number of its files |
| `ReportCompare.ParseCompareFileStats` | agent_metrics.go:252-273 | the four counters are the numbers of lines with the four prefixes |
| `ReportCompare.StatsCount` | agent_metrics.go:252-273 | the four numbers are the numbers of places of the lines that begin with CHANGED, NEW, MISSING and MOVED |
| `ReportCompare.CompareCountsRestored` | agent_metrics.go:252-273 | the counters read from a comparison file are the counts of the comparison |
| `Names.ParseReportTimestamp` | agent_metrics.go:193-213 | the last two tokens, joined by a blank, are read as one date and time in the current and then the legacy layout, with the blanks, one-digit hours and fractions the layouts tolerate |
| `Names.LayoutParts` | agent_metrics.go:193-213 | blanks at the end of the date and before the time of day make no difference to the time read |
| `Names.ShortHourRead` | agent_metrics.go:193-213 | a one-digit hour is read as itself, and a fraction of up to nine digits as the number it writes |
| `Names.ExtractReportName` | agent_metrics.go:217-230 | the name is made of the tokens before the time |
| `Names.TimestampRoundTrip` | agent_metrics.go:193-213 | the time in a file name is read back from both layouts, whatever name comes before it |
| `Names.InstantOrder` | quickcompare.go:44-45 | real times are ordered by year, month, day, hour, minute, second and fraction, in this order, and no two are the same instant |
| `Names.LeapDays` | agent_metrics.go:193-213 | February has 29 days exactly in the years that are leap years by the count of fours, hundreds and four hundreds |
| `Names.WrittenOrder` | data_file.go:38-61 | the times in file names sort as strings in the order of the times |
| `Names.NameRoundTrip` | agent_metrics.go:217-230 | the report name is read back if and only if it has no empty token between underscores |
| `ReportListing.FindLastTwoReports` | quickcompare.go:14-48 | an error exactly with fewer than two matches, otherwise two of the matches such that no other match has a greater instant than the first |
| `ReportListing.ChosenAreLatest` | quickcompare.go:14-48 | the two are different matches, the first no later than the second, and no other match has a later date and time than the first |
| `ReportListing.LastTwoAreLatest` | quickcompare.go:14-48 | every other saved scan of that name has no later date and time than the older of the two |
| `ReportListing.SavedScanMatches` | quickcompare.go:14-48 | a saved scan matches its report name if and only if the name is plain |
| `ReportListing.SavedScanValid` | data.go:26-34 | a saved scan can be fetched and compared if and only if its report name has no slash, backslash, zero or blank |
| `ReportListing.ValidIDStays` | data.go:26-34 | a valid ID is the last part of the path it makes with the report directory, and no dot entry |
| `CompareTexts.SavedComparisonKnown` | agent_metrics.go:15-40 | a saved comparison is known as one, with its time, and is never taken for a scan |
| `ReportListing.SortByTime` | quickcompare.go:44-45 | sorting by time permutes the matches into ascending order |
| `ReportListing.InitAgentState` | agent_metrics.go:15-76 | after a start the statistics are those of a scan and a comparison such that no other of the kind has a later date and time, or none where no file of the kind has a time |
| `ReportListing.ScanSurvivesRestart` | agent_metrics.go:15-76 | if a saved scan is later than every other scan in the directory, a restarted agent reports the name, time and number of files it was saved with, if and only if its report name is plain |
| `ReportListing.CompareSurvivesRestart` | agent_metrics.go:15-76 | if a saved comparison is later than every other in the directory, a restarted agent reports the time it was saved under and its four counts |
| `CompareTexts.ListReports` | data_file.go:63-76 | one line for each entry of the report directory that is no directory, in order, or one line that says why it cannot be read |
| `CompareTexts.CompareText` | logic.go:277-293 | both headers, a blank line, and one line for each entry of the comparison, those from maps in some order |
| `CompareTexts.CompareReportsString` | logic.go:267-294 | a comparison of two reports in the directory, or why one cannot be read, is answered; the comparison that is answered is the one that is saved, and other files stay |
| `CompareTexts.QuickCompareString` | quickcompare.go:62-70 | the two last reports of the name and the answer for them, or why there are no two |
| `CompareTexts.ComparedOneLines` | logic.go:157-183 | every path and hash in a comparison of report files is a single line, whatever the files hold |
| `CompareTexts.AnswerLines` | logic.go:277-293 | the answer has three head lines and as many further lines as the comparison has entries, and every line but the blank one holds a character the sentinel does not |
| `Scheduler.AgentScheduler.LoadFromFile` | scheduler.go:67-93 | comments, malformed lines and schedules cron refuses are skipped, the rest is added in order |
| `Scheduler.AgentScheduler.Save` | scheduler.go:96-119 | the file is the head and one line per job |
| `Scheduler.AgentScheduler.AddJob` | scheduler.go:141-166 | added exactly for the scan command, a valid schedule and an unused name; names stay unique and refusals change nothing; for calls one after another |
| `AddRace.Undisturbed` | scheduler.go:122-166 | check and insertion with nothing in between are one added or refused job |
| `AddRace.UniqueExactly` | scheduler.go:122-191 | however the critical sections of calls interleave, job names stay unique all along if and only if no insertion finds its name taken since the check |
| `AddRace.NoOverlapNoClash` | scheduler.go:122-191 | if no check of a name comes while another call for that name waits for its insertion, names are unique at the end of every run |
| `AddRace.BothInserted` | scheduler.go:122-166 | two calls for one new name whose checks both come first leave two jobs of that name |
| `Scheduler.AgentScheduler.RemoveJob` | scheduler.go:169-191 | takes out the first job of that name and no other |
| `Scheduler.AgentScheduler.RecordRun` | scheduler.go:233-245 | appends an entry and keeps the last 100 |
| `Scheduler.AgentScheduler.UpdateLastRun` | scheduler.go:249-260 | rewrites the most recent running entry of that name and start time, if it is still there |
| `Scheduler.RecordLast` | scheduler.go:233-245 | recording in the bounded history is recording in an unbounded log and keeping its end |
| `Scheduler.UpdateLastIsOwn` | scheduler.go:249-260 | updating the bounded history updates the run's own entry of the unbounded log, even after it was evicted |
| `Scheduler.ScheduleRoundTrip` | scheduler.go:67-119 | the saved schedule loads back if and only if no job name starts with the comment sign |
| `Scheduler.ReachableTrimmed` | scheduler.go:67-191 | every job list that commands make of any schedule file holds only trimmed single-line fields and schedules cron accepts |
| `Scheduler.ReachableSchedule` | scheduler.go:67-191 | every such job list loads back from its own file if and only if no name starts with the comment sign |
| `ScheduleCommand.PayloadReceived` | agent_server.go:376-402 | after its words are split and joined, a payload gives back name, cron expression and command if and only if none has white space other than single inner blanks and the first two have no bar |
| `Operations.StepInv` | agent_server.go:133-343 | every step of read loops, background operations, cron jobs and web scans keeps the invariant of the whole agent |
| `Operations.ReachableInv` | agent_server.go:133-343 | the invariant holds in every reachable state |
| `Operations.OneOperation` | agent_server.go:193-226 | at most one operation is in flight, and each flag is set exactly while an operation of its kind is in flight |
| `Operations.ReleasedOnce` | agent_server.go:204-225 | every operation sets a flag at most once and clears it exactly once, panics and errors included |
| `Operations.EndsAlone` | agent_server.go:193-226 | in every reachable state every operation can end by at most six steps of its own, whatever the others do, and then holds no flag |
| `Operations.SentinelCount` | agent_server.go:162-343 | sentinels sent are non-blank commands received less background operations in flight less the command being processed |
| `Operations.AllAnswered` | agent_server.go:162-343 | a connection that waits for a command, and has no background operation left, has one sentinel for every non-blank command |
| `RunRecords.OneSentinelEach` | agent_server.go:162-343 | such a connection has had one sentinel for each command it sent in the run, blank lines not counted |
| `Operations.HistoryIsLog` | scheduler.go:195-260 | the history is the last 100 entries of the unbounded log, and shows no running entry when no job is in flight |
| `Operations.RunningIsOwned` | scheduler.go:195-260 | in every reachable state a log entry is running if and only if it belongs to a job in flight that has recorded it and not finished |
| `Operations.RunningEntries` | scheduler.go:195-260 | the running entries in the history are as many as such jobs whose entry is among the last 100, and all of those but one have cleared their flag |
| `Operations.SeveralRunning` | scheduler.go:195-260 | two entries are shown as running if and only if there are two such jobs |
| `Operations.TwoRunning` | scheduler.go:224-228 | the failing side: a reachable state with two running entries |
| `RunRecords.FinishedRun` | scheduler.go:195-260 | a firing that has finished has one entry with its job's name, the two times at which it read the clock, and the status its scan ended with, and the history shows it while it is among the last 100 |
| `RunRecords.SkippedRun` | scheduler.go:195-204 | a firing while a flag was set leaves one entry with its job's name, its two readings and "skipped", and never changes it |
| `RunRecords.RunningRun` | scheduler.go:206-211 | a firing with both flags clear is shown with its job's name, its first reading and "running" until it finishes |
| `RunRecords.OneEntryEach` | scheduler.go:195-260 | every firing that has recorded has an entry of its own, and there are no other entries |
| `RunRecords.TimesAre` | scheduler.go:206-226 | the readings of a firing are those of its own steps, each later than every reading before it |
| `Protocol.AgentState.TryStart` | agent_server.go:193-201 | sets one flag exactly if both are clear |
| `Protocol.HandleCommand` | agent_server.go:162-343 | a command is answered with its texts and one sentinel, or sets one flag and writes only its opening line; users, jobs and the schedule file change as the command says, and the report directory only by a quick comparison |
| `Protocol.HandleScheduleCmd` | agent_server.go:347-415 | every schedule command writes its texts and one sentinel, adds or removes the job it names, and leaves the history; changed jobs are saved |
| `Protocol.ListReportDataString` | data_file.go:95-108 | a readable report as it is stored if it ends in a newline and with one added if not, and one error line for an invalid or unreadable one; the result is always empty or ends in a newline |
| `Protocol.RunInBackground` | agent_server.go:204-224 | however the operation ends, its texts and one sentinel are written and its own flag is clear |
| `Protocol.CompareInBackground` | agent_server.go:262-294 | a background comparison writes an answer for its two reports, the closing line and one sentinel, and clears its flag |
| `Replies.StartsExactly` | agent_server.go:185-226 | an operation starts exactly for a scan by rw or admin, or a compare with two reports by any role, with both flags clear |
| `Replies.WhoMay` | auth.go:35-78 | any role looks, compares and sets passwords, rw and admin also scan and change jobs, and only admin manages users |
| `Replies.OnlyItsOwn` | agent_server.go:162-343 | users change only by a user command of admin, or by a user who sets their own password; jobs only by schedule add and schedule remove of rw and admin |
| `Protocol.CommandIsAction` | agent_server.go:162-343 | each command is one action of the state machine, with the same flags and the same number of sentinels |
| `Protocol.EndingIsActions` | agent_server.go:204-224 | the end of a background operation is three actions of the state machine, with the same flags and one sentinel |
| `Protocol.StatusTells` | agent_server.go:295-308 | in every reachable state the answer to status is idle exactly when no operation is in flight, and otherwise names the kind of the one that is |
| `Replies.RepliesTerminated` | agent_server.go:162-343 | every reply, those of list, compare, quickcompare and user included, is empty or ends in a newline |
| `Client.RunRemoteCommandToString` | agent_client.go:63-85 | the loop reads lines up to the sentinel or the end of the stream |
| `Client.ClientStops` | agent_client.go:73-84 | the client returns the lines before the first one that trims to the sentinel |
| `Client.ClientGetsPayload` | agent_client.go:73-84 | the client returns exactly the payload if and only if no line of it trims to the sentinel |
| `Client.ClientWithoutSentinel` | agent_client.go:73-84 | if the agent goes away before any sentinel the client returns all it has received |
| `Client.CommandReceived` | agent_client.go:70-72 | the agent sees the client's arguments if and only if each is a word |
| `Client.AuthReceived` | agent_server.go:146-151 | the agent reads the client's credentials if and only if the user has no blank and the password is non-empty and does not end in white space |
| `Client.Authenticate` | agent_server.go:142-160 | a session starts exactly for credentials that check out; otherwise one error line and no sentinel |
| `Client.SessionOpens` | agent_client.go:20-34 | the client takes exactly the greeting off the stream |
| `Client.OpensExactly` | agent_client.go:20-34 | a session opens exactly if a whole first line begins with OK, and the client reads on behind that line |
| `Client.SessionRefused` | agent_client.go:20-34 | an answer that refuses the credentials opens no session |
| `Client.OneCommandClient` | agent_client.go:63-85 | the agent sees the client's arguments if and only if each is a word; for whatever it sees it sends one sentinel, and the client returns exactly the texts of that command if and only if no line of them trims to the sentinel |
| `Remote.FetchReturnsReport` | data_file.go:95-108 | fetching a saved scan with one-line paths gives the client exactly the stored file |
| `Remote.RemoteCompare` | logic.go:267-294 | a remote comparison of two readable reports returns exactly the opening line, both headers, a blank line, one line for each entry of the comparison, and the closing line |
| `Observed.ComparisonSays` | logic.go:267-294 | the answer to a comparison says of every unignored path whose hashes differ CHANGED with the old hash first, of every path only in the new scan NEW or MOVED from a path of the old scan with its hash, and of every path only in the old scan MISSING or MOVED to such a path, below the two headers |
| `Observed.FileSays` | data_file.go:186-227 | the file of a comparison has both headers, and one line for every entry with its paths and hashes in their places |
| `Remote.RemoteUserList` | auth.go:318-403 | an administrator who lists the users gets one row for each user, in ascending order, with name and role |
| `Remote.AddReceived` | gui.go:1016-1019 | a job sent as one payload reaches the agent as the same name, cron expression and command if and only if none has white space other than single inner blanks and the first two have no bar |
| `Observed.RemoteAdd` | agent_server.go:369-395 | a job added over a connection is appended exactly if its command is scan, cron accepts its expression and its name is unused; otherwise nothing changes and the answer is an error |
| `Observed.RemoteRemove` | agent_server.go:396-410 | a job removed over a connection: the first job of the name goes and the others stay, or nothing changes and the answer is an error |
| `Remote.ExporterSees` | exporter.go:194-208 | over a connection the exporter finds the host up and reads 1 for the flag that is set and 0 for the other, the number of jobs on the board, for each job its next run and the start and status of its last finished run, and the agent's other numbers, where the jobs are readable |
| `Remote.ExporterTells` | exporter.go:194-208 | in every reachable state the exporter reads 1 for the kind of the operation in flight, and 0 otherwise |
| `Remote.DownOnErrors` | exporter.go:194-208 | an error, or an answer of white space only, means that the host is down |
| `Users.LoadUsers` | auth.go:103-127 | loading gives the map the lines stand for, later lines winning, lines without a role being administrators |
| `Users.LastLineCounts` | auth.go:103-127 | the last line of a name gives its role and hash |
| `Users.NoLineNoUser` | auth.go:103-127 | a name without a line is not loaded |
| `Users.LinesRead` | auth.go:103-127 | a line of two fields is an administrator with that hash, a line of three has its role in the middle |
| `Users.ValidNameExactly` | auth.go:80-80 | user names are one to thirty-two letters, digits, underscores, dots and dashes |
| `Users.LoadedStorable` | auth.go:103-127 | whatever a file holds, its users can be saved without loss |
| `Users.LoadAfterSave` | auth.go:130-160 | loading what was saved gives the map back if and only if its names, roles and hashes are storable |
| `Users.ReachableRoundTrip` | auth.go:103-160 | every map reachable by commands from any file survives saving and loading |
| `Users.UserDB.AdminCount` | auth.go:257-265 | the loop counts the administrators |
| `Users.UserDB.Add` | auth.go:191-209 | adds exactly one entry, or refuses and changes nothing |
| `Users.UserDB.SetPassword` | auth.go:212-226 | changes exactly one hash, or refuses and changes nothing |
| `Users.UserDB.SetRole` | auth.go:229-242 | changes exactly one role, or refuses and changes nothing |
| `Users.UserDB.Remove` | auth.go:245-255 | removes exactly one entry, or refuses and changes nothing |
| `Users.UserDB.Names` | auth.go:162-169 | the names in ascending order |
| `Users.UserDB.Save` | auth.go:130-160 | a head line and one line per user in ascending order |
| `Users.UserCommand` | auth.go:318-391 | a command succeeds exactly under its conditions; then only the named entry changes: add gives it the role asked for or ro and the new hash, passwd the new hash, role the new role, remove takes it out; a refusal gives the first condition that fails, and anything but a success leaves the file untouched |
| `Users.CommandEffect` | auth.go:191-255 | the same of the map of users, for every command and from its words alone |
| `Users.UserCommandAs` | auth.go:395-403 | a command that is not permitted leaves the file untouched |
| `Users.PermittedExactly` | auth.go:395-403 | an administrator may give any user command, and every user one for the own password |
| `UserTexts.PrintUsers` | auth.go:326-340 | one row for each name in order, or one line if there is none |
| `UserTexts.UserCommandString` | auth.go:318-403 | the words for the reply of the command, with the same effect on the file |
| `UserTexts.ListTextRows` | auth.go:326-340 | a listing has exactly one line for each user, in ascending order, name first and role last |
| `UserTexts.UserTextTerminated` | auth.go:318-403 | every answer to a user command is empty or ends in a newline |
| `Users.AdminKept` | auth.go:229-255 | no command takes away the last administrator |
| `Users.AdminAlways` | auth.go:318-403 | once there is an administrator every sequence of commands keeps one |
| `Users.OnlyOwnHash` | auth.go:395-403 | an actor who is no administrator changes nothing but their own hash |
| `Users.OnlyOwnHashes` | auth.go:395-403 | the same over whole sequences of commands |
| `KnownAgents.LookupKnownAgent` | tlsutil.go:130-148 | the fingerprint on the first line for the address |
| `KnownAgents.LookupFirst` | tlsutil.go:130-148 | a fingerprint is found if and only if it is the second field of the first line that pins the address |
| `KnownAgents.KnownAgentsFile.RememberAgent` | tlsutil.go:150-158 | the line is appended as it is |
| `KnownAgents.KnownAgentsFile.PinKnownAgent` | deploy.go:216-238 | lines for the address and blank lines go, the new line comes last |
| `KnownAgents.KnownAgentsFile.VerifyPeer` | tlsutil.go:175-200 | a pinned address must present its fingerprint, an unknown one is remembered if new agents are trusted |
| `KnownAgents.RememberEffect` | tlsutil.go:150-158 | after a line end, remembering binds a new address and changes no other lookup |
| `KnownAgents.RememberedExactly` | tlsutil.go:150-158 | the appended fingerprint is found if and only if the file did not end in the middle of a line |
| `KnownAgents.PinEffect` | deploy.go:216-238 | exactly one line is left for the address, it is found unless it starts with the comment sign, and no other lookup changes |
| `KnownAgents.ReplayBinds` | tlsutil.go:175-200 | after any history of dials and pins each address is bound to what was first remembered or last pinned, if the first change of the file is a pin or finds nothing after the last newline |
| `KnownAgents.BindsExactly` | tlsutil.go:175-200 | for any start file, the bindings are those of the history all along if and only if that condition holds |
| `KnownAgents.BindsAfterFirst` | tlsutil.go:175-200 | for any start file, from the first change on the bindings are those the history makes of the changed file |
| `KnownAgents.AcceptedPresentsBound` | tlsutil.go:175-200 | a connection is accepted exactly if it presents the bound fingerprint, or the address is unbound and new agents are trusted; then it is bound |
| `Matcher.MatchSound` | gui.go:1224-1228 | a match cuts the line into pieces that fit the parts of the pattern |
| `Matcher.GreedyTakes` | gui.go:1224-1228 | a greedy part takes all it can if the rest then matches |
| `Matcher.LazyTakes` | gui.go:1224-1228 | a lazy part takes no more than the rest needs to match |
| `Matcher.StampByPlaces` | gui.go:1224-1228 | a time in the tables is digits with the signs between them at their places |
| `Tables.ListJobs` | scheduler.go:265-283 | the table of the job rows, or a message |
| `Tables.ListHistory` | scheduler.go:286-309 | the table of the history, newest first, or a message |
| `Tables.ParseScheduleList` | gui.go:1231-1241 | the rows of the lines that match, header excluded |
| `Tables.ParseHistoryList` | gui.go:1244-1254 | the rows of the lines that match |
| `Tables.ScheduleTableRoundTrip` | gui.go:1231-1241 | the rows come back if and only if each name and command is a word and no name is the header's |
| `Tables.HistoryTableRoundTrip` | gui.go:1244-1254 | the rows come back if and only if each name is a word and each status trimmed and not empty |
| `Tables.JobsReadBack` | scheduler.go:265-283 | for jobs as the scheduler keeps them, reading the printed table gives exactly the job rows, spaces in cron expressions and times included, if and only if names and commands are words and no name is the header's |
| `Tables.ReachableJobsReadBack` | scheduler.go:265-283 | the same for every job list that commands make of any schedule file |
| `Tables.HistoryReadBack` | scheduler.go:286-309 | reading the printed history gives the history reversed if and only if names are words and statuses are trimmed, non-empty single lines |
| `Observed.ScheduleListed` | agent_server.go:361-364 | from the answer to schedule list the GUI reads every job of the board in order, with its own expression, command and next run |
| `Observed.HistoryListed` | agent_server.go:365-368 | from the answer to schedule history the GUI reads every run newest first, with its own times and status |
| `Observed.JobsRepeats` | agent_server.go:326-343 | jobs repeats the answers to status, schedule list and schedule history under their headings |
| `Observed.ListSays` | agent_server.go:228-231 | list names every file of the report directory on its own line, and nothing else |
| `Observed.QuickSays` | quickcompare.go:62-70 | quickcompare names two reports of the agent's name, such that no other has a later date and time than the first, and answers with their comparison, the older first |
| `Observed.CompareRefused` | logic.go:267-271 | a comparison that cannot be made is answered with what is wrong with the first report, or else with the second |
| `Observed.SameAnswers` | agent_server.go:233-252 | data and fetch answer the same |
| `Observed.WhoamiSays` | agent_server.go:322-324 | whoami answers with user and role |
| `Observed.UnknownSays` | agent_server.go:335-341 | any word that is no command is answered with an error that names it |
| `Observed.DeniedSays` | agent_server.go:183-190 | a command the role does not allow is answered with an error that names it, and changes neither users nor jobs |
| `Observed.UserSays` | auth.go:318-391 | a user command of an administrator that succeeds is confirmed with its own words and changes the users as it says; any other is answered with an error and changes nothing |
| `Observed.UserRefused` | auth.go:191-255 | which error a refused user command is answered with, condition by condition |
| `Observed.UserUsage` | auth.go:348-389 | a user command short of its words is answered with how that command is written, and an unknown one is named |
| `Observed.LocalTimeFound` | gui.go:1224-1228 | times as the scheduler writes them are the times the GUI's patterns look for |
| `Metrics.AgentMetricsString` | agent_metrics.go:79-159 | the payload is the printed fields in order and three lines per job |
| `Metrics.FindLatest` | agent_metrics.go:142-152 | the backward loop finds the latest finished run |
| `Metrics.LatestRunIsLast` | agent_metrics.go:142-152 | none exactly if no entry of the job is finished, otherwise one with no later finished entry of the job |
| `Metrics.ParseMetricsResponse` | exporter.go:211-287 | the fields set, and one record for each job name met |
| `Metrics.FirstFieldMet` | exporter.go:257-307 | a job of which one field is met has zero times and no status besides, and a time that no layout reads counts as zero |
| `Metrics.KeyRecognised` | exporter.go:225-256 | every printed key is recognised as its field |
| `Metrics.JobKeyRecognised` | exporter.go:257-271 | a job key is split at its last dot, so dots in names are harmless |
| `Metrics.FieldApplied` | exporter.go:225-256 | a printed line sets its own field to its number and no other |
| `Metrics.PayloadRead` | exporter.go:211-287 | where job names have no equals sign and names and last statuses fit their lines, reading the payload gives exactly the agent's numbers and job records |
| `Metrics.JobsReadExactly` | exporter.go:211-287 | the job records are right if and only if no job name contains an equals sign or a newline and every last status is a single line that does not end in white space |
| `Metrics.OneRecordPerJob` | exporter.go:211-287 | what the exporter returns is one record for each job, the right one, if and only if the jobs are readable in that sense and their names distinct |

## Left out

- The TLS handshake, certificates, bcrypt, MD5, cron and the Go regexp engine are parameters or predicates; only the two table patterns have a matcher of their own.
- Disk errors, the scanner's line limits, failing writes and time-outs are not modelled: writes succeed and lines fit.
- Time zones, the calendar of dates in file names beyond their digits, and number formats are parameters that reading inverts; file-name times are modelled digit by digit.
- Strings are sequences of characters, not of bytes.
- Console output is left out; what Go, bcrypt and cron put into error messages, and quoted strings, are parameters.
- What `os.ReadDir` says of the report directory is a parameter of the replies, not derived from the files in it.
- Scheduler.AgentScheduler.AddJob: the check for a used name and the insertion happen under separate locks in the source; this contract is that of calls made one after another, and `AddRace` is about calls at once.
- Protocol.HandleCommand: one pass of the loop at a time; how passes of several connections interleave is in `Operations` for flags and sentinels and in `AddRace` for jobs; user commands hold one lock throughout.
- When several connections change jobs at once, which of them saves the schedule file last is not modelled.
- Web compares, `quickcompare` and the command line take no operation flag, so they are outside `Operations.OneOperation`.
- The cached statistics of the last scan and comparison are modelled where they are restored and printed, not where a running operation updates them.
- Deployment over SSH, host fan-out, report synchronisation, the GUI and web pages, cookies, and configuration parsing are left out; they would add only easy members.
