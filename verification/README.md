# dpkg verified

A Dafny model of the parts of dpkg in which correctness is least obvious, and
proofs of what they promise.  `dafny verify dfyconfig.toml` checks everything.

| component | files | main results |
|---|---|---|
| status database journal | Journal, StatusDatabase | crash recovery over any run, the backup at every point, exact condition for harmless checkpoints, numbering |
| dselect's resolver | Resolver, Suggesting, Sublist | termination within a bound on passes, monotone selections, exactly what is recorded, selected and deselected |
| update-alternatives | Alternatives, AltManager, AltEffects, AltDb, AltDbFile, AltAdmin | convergence (exact condition), a second run changes nothing, commit safety, auto mode picks the best, database round trip, ownership (exact condition) |
| infodb upgrade | InfoDb, InfoDatabase | conservation and convergence over any run, exact conditions for losing nothing and for a readable rollback |
| getopt | Getopt, CommandLine | permutation in place is the stable partition of a reference reading; what is written is what is read |
| obstack | Obstack | invariant over any sequence of operations |
| fields | PkgVersion, DepField, DepParser, Conffiles, ConffileParser | round trips in both directions |
| start-stop-daemon | Schedule, StopPoll | faithful compilation of schedules, bound on polls |

`Text` holds what they share: C string order, numerals, character searches.

Where the source changes things step by step, a class or a method with loops
does the same, and is proved against a specification function; the properties
are then proved of that function.  File system operations are recorded one by
one, so that a process may stop after any of them.

## Findings

Seven things the code does that a reader might not expect; each has a lemma at an
actual input, and one that says exactly when it happens.

- A master link moved by --install onto a slave link of the same group passes
  the argument check and makes the group's file unreadable
  (`AltAdmin.MasterOntoSlave`); `AltAdmin.Ownership` says that this is the only
  way.
- While --install moves links, a real file where one lands is replaced without
  --force (`AltEffects.RealFileReplaced`), against man/update-alternatives.pod:270-271;
  `AltEffects.NonLinkReplacedIff` says exactly where that is.
- Two infodb files of one Multi-Arch: same package whose names differ only in
  the case of the package name are converted to the same name, and one is lost
  (`InfoDb.CaseClashLoses`).  dpkg itself writes lower-case names only;
  `InfoDb.NothingLostIff` says exactly when something is lost.
- A crash while the infodb upgrade unlinks old names, followed by an abort while
  the next run links, leaves format 0 with arch-qualified names only
  (`InfoDb.RollBackUnreadable`); no file is lost and a further run repairs it.
- A schedule with a trailing slash ends in an internal error instead of a usage
  error (`Schedule.TrailingSlash`); `Schedule.ListAccepted` says exactly when.
- A conffile whose hash is a flag keyword or empty is misread
  (`Conffiles.KeywordHashRefused`), in exactly the cases of
  `Conffiles.EntryRoundTripIff`.
- With neither a request nor a current choice, `alternative_update` leaves a
  group that fails its own check (`AltEffects.LeftBroken`); `AltManager.Manager.Update`
  says that this is the only way.  --remove of another choice gets there when the
  link in altdir is missing.

The comment in `deselect_one_of` (dselect/pkgdepcon.cc:223) speaks of not keeping
packages that need reinstallation; the code keeps them and deselects the other
one, and the model follows the code.

## Model

| member | source | states |
|---|---|---|
| `Journal.CrashRecovery` | lib/dpkg/dbmodify.c:88-139 | After any run of opens, notes, checkpoints and shutdowns, with the process stopping after any file system operation of any of them, opening the database loads for every package the stanza last renamed into the journal. |
| `Journal.Backup` | lib/dpkg/atomic-file.c:92-124 | After every prefix of every call: a call that rewrites the status file leaves the informative stanzas there and the status file from before as the backup; stopped on the way, the old status file is still there, its backup the old one, missing or the same file, or all is as at the end. Other calls touch neither. |
| `Journal.RefusedIff` | lib/dpkg/dbmodify.c:64-117 | Which disks are refused: exactly those with a torn status file, a partly written numbered file, or numbers longer than 10 digits or of different lengths. |
| `Journal.JournalNumbering` | lib/dpkg/dbmodify.c:402-430 | In every reachable writable state between calls the journal is exactly 0..next-1 with next at most 250; name order is write order, all names have four digits, and no operation of the next call can fail. |
| `Journal.CheckpointHarmlessIff` | lib/dpkg/dbmodify.c:412-425 | A stop anywhere in the unlink loop loses nothing if and only if every package with a pending update still has in core the stanza last written for it. |
| `Journal.ScanShape` | lib/dpkg/dbmodify.c:64-86 | Listing the update directory gives exactly the numbered files, in write order, whatever else is in it. |
| `Journal.WriteDbSafe` | lib/dpkg/dump.c:557-580 | Replacing the status file: after every prefix of its operations the disk still recovers to the recorded state, and at the end the new file is in place. |
| `Journal.UnlinkSafe` | lib/dpkg/dbmodify.c:412-425 | Each update file unlinked leaves a suffix of the journal whose replay over the new status changes nothing. |
| `Journal.CheckpointSafe` | lib/dpkg/dbmodify.c:402-430 | A whole checkpoint is safe at every crash point and leaves an empty journal. |
| `Journal.NoteSafe` | lib/dpkg/dbmodify.c:459-505 | Noting a package is safe at every crash point; the rename is the moment the stanza becomes recorded. |
| `Journal.OpenSafe` | lib/dpkg/dbmodify.c:88-139 | Opening for writing on any disk a stopped process may leave is safe at every crash point and reaches an empty journal. |
| `Journal.ShutdownSafe` | lib/dpkg/dbmodify.c:432-457 | Shutting down is safe at every crash point. |
| `Journal.StepKeeps` | lib/dpkg/dbmodify.c:321-394 | One call, completed or cut short anywhere, keeps the invariant of the world. |
| `Journal.SafeEnabled` | lib/dpkg/dbmodify.c:402-430 | In a safe sequence of operations no operation fails. |
| `StatusDatabase.StatusDb.Load` | lib/dpkg/dbmodify.c:88-117 | The reading half of cleanupdates: status, then each update in name order, gives what recovery specifies, including its errors. |
| `StatusDatabase.StatusDb.WriteDb` | lib/dpkg/atomic-file.c:53-124 | The atomic replacement carries out exactly open, write, unlink and link of the backup, rename, in that order; afterwards the status file holds exactly the informative stanzas, and the backup is the status file from before. |
| `StatusDatabase.StatusDb.UnlinkUpdates` | lib/dpkg/dbmodify.c:412-425 | Unlinks the listed files one by one, in order. |
| `StatusDatabase.StatusDb.Checkpoint` | lib/dpkg/dbmodify.c:402-430 | Carries out exactly the checkpoint's operations and resets the number; the status file from before has become the backup. |
| `StatusDatabase.StatusDb.NoteCore` | lib/dpkg/dbmodify.c:459-505 | Writes and renames the update file, checkpoints past 250 updates, and prepares the next scratch file. |
| `StatusDatabase.StatusDb.Note` | lib/dpkg/dbmodify.c:514-557 | A noted package is the one recorded, the others are not touched, and the journal's invariant is kept. |
| `StatusDatabase.StatusDb.Incorporate` | lib/dpkg/dbmodify.c:119-139 | Writes the status file, with its backup, only if there were updates, then unlinks them. |
| `StatusDatabase.StatusDb.Open` | lib/dpkg/dbmodify.c:321-394 | A disk that recovery refuses is an error that changes nothing; otherwise it loads exactly what recovery specifies and carries out the operations of an opening; any disk a stopped process may have left is accepted, and ready for writing afterwards. |
| `StatusDatabase.StatusDb.OpenReadOnly` | lib/dpkg/dbmodify.c:321-394 | Reading changes no file; a failed read leaves the database closed. |
| `StatusDatabase.StatusDb.Shutdown` | lib/dpkg/dbmodify.c:432-457 | Checkpoints, removes the scratch file and leaves a disk that recovers to the recorded state, the status file from before as its backup and no scratch file. |
| `Sublist.PackageList.ResolveSuggest` | dselect/pkgdepcon.cc:94-146 | It stops on every package graph, after at most 1 + dependencies + 4 * packages passes, all but the last of which made an advance. Its effect is exactly that of passes that answer something and a last one that answers nothing (RunMade); the result is the largest answer. A listed package's selection has changed only with a strict rise of its priority, and a run that changes nothing leaves everything attended to. |
| `Resolver.MeasureFalls` | dselect/pkgdepcon.cc:94-146 | Every advance (a dependency newly recorded, or a priority strictly higher) lowers the measure, which is bounded by the numbers of dependencies and packages. |
| `Resolver.DeselectedForGood` | dselect/pkgdepcon.cc:385-402 | Once deselected by the resolver, a package is not selected again. |
| `Resolver.SelectionOnlyRises` | dselect/pkgdepcon.cc:87-91 | A selection that changed is now install or a removal, its priority has risen to the one of that kind, and a change to install was from below that. |
| `Resolver.OnceEachWay` | dselect/pkgdepcon.cc:87-91 | Over any run, however finely its states are looked at, a listed package changes to install at most once and to a removal at most once, and not at all to what its priority already passed. |
| `Sublist.PackageList.Pass` | dselect/pkgdepcon.cc:101-137 | A pass over the growing list ends, and its effect and answer are exactly those of the packages in turn, each with its dependencies, dependers and the dependers of what it provides (PassMade); it reports a change only if it made an advance, and if it changed nothing the whole list is settled. |
| `Sublist.PackageList.Visit` | dselect/pkgdepcon.cc:103-129 | If visiting a package changes nothing, its dependencies, its dependers and the dependers of what it provides are all attended to. |
| `Sublist.PackageList.CheckDependers` | dselect/pkgdepcon.cc:62-85 | If it changes nothing, everything in force that depends on the package set is attended to; a higher answer is backed by an advance. |
| `Sublist.PackageList.ResolveDepCon` | dselect/pkgdepcon.cc:260-456 | Which dependencies ask for something, and exactly what is done about each kind and answered (Resolves); every positive answer is backed by an advance, and no change at all means the dependency is recorded, idle, satisfied or not violated. |
| `Sublist.PackageList.ResolvePositive` | dselect/pkgdepcon.cc:294-402 | Something happens exactly if its package is wanted and no alternative is satisfied. Then the dependency is recorded; unless it only may be of interest, the depending package is deselected if no upgrade would help and a candidate was deselected, or else the best candidate is selected, each unless its priority is that high; the answer is 0 if it was recorded before, 2 if a selection was due, and 1 otherwise (Acts). |
| `Sublist.PackageList.ResolveNegative` | dselect/pkgdepcon.cc:404-448 | Something happens exactly if its package is wanted and the conflict is satisfied, by the rules of satisfaction. Then its rivals are gone through in turn, up to the first with which one of two wanted packages has to give way (Contests). |
| `Sublist.PackageList.Repair` | dselect/pkgdepcon.cc:328-402 | If a candidate was deselected the depending package is deselected, otherwise the chosen package is selected, with the exceptions for recommendations and for priorities already that high; nothing else changes. |
| `Sublist.PackageList.FindBest` | dselect/pkgdepcon.cc:334-363 | The choice is the first of the best candidates, by availability, then priority of selection, then importance; it stops exactly if a candidate was deselected. |
| `Resolver.ConsiderStep` | dselect/pkgdepcon.cc:148-198 | Updating the best choice with one more package keeps it the first of the best seen. |
| `Sublist.PackageList.DeselectOneOf` | dselect/pkgdepcon.cc:200-257 | If both packages are wanted the dependency is recorded, and exactly one of them is deselected, the one VictimIs describes, unless it was already; otherwise nothing happens. |
| `Resolver.VictimIs` | dselect/pkgdepcon.cc:221-241 | A package that needs reinstallation gives way only to another one; then the less firmly chosen, then the less important, then the second one. |
| `Resolver.SatisfiedIff` | dselect/pkgdepcon.cc:462-549 | When an alternative is satisfied: if its package is to be there, by whether the version that will be installed is right; otherwise exactly if some provider is to be there, through its available or its installed version as will be in force. |
| `Resolver.UpgradeForIs` | dselect/pkgdepcon.cc:483-545 | Which upgrade is noted: of a package that is to be there, if it is held, right and much newer when available; otherwise of the first provider to be there that is not fully installed or much newer when available. |
| `Sublist.PackageList.DepPosSatisfied` | dselect/pkgdepcon.cc:462-549 | An alternative counts as satisfied exactly if its package is wanted and has the version, or else some provider in use does; of an unsatisfied one it notes exactly the held package, or the first provider, that an upgrade would make do. |
| `Sublist.PackageList.AnySatisfied` | dselect/pkgdepcon.cc:303-312 | Finds a satisfied alternative if and only if there is one; otherwise notes the first upgrade that any of them offers. |
| `Sublist.PackageList.Add` | dselect/pkgsublist.cc:35-58 | A package enters the list at most once, with the selection it has in the enclosing list. |
| `Sublist.PackageList.AddDependency` | dselect/pkgsublist.cc:138-204 | Says true exactly the first time. Then exactly it and the dependencies by which its alternatives are provided are recorded, exactly the packages they name enter the list, and exactly these and the providers are raised to its importance; nobody's selection changes (Recording). |
| `Sublist.TableFits` | dselect/pkgsublist.cc:35-58 | The list never outgrows the table allocated for all packages. |
| `Alternatives.GetBest` | utils/update-alternatives.c:1803-1823 | The best choice has maximal priority; the current one wins ties, otherwise the first one listed. |
| `Alternatives.BestUnique` | utils/update-alternatives.c:1803-1823 | There is only one best choice in that sense. |
| `Alternatives.CurrentIs` | utils/update-alternatives.c:1785-1801 | What is current: nothing if there is no entry in altdir, the target if that is a link, and an error otherwise. |
| `Alternatives.CommitSafety` | utils/update-alternatives.c:2115-2198 | Preparing leaves every managed path alone; after every prefix of the commit each managed path has its old or its final value, so a link there before and after is never missing in between. |
| `Alternatives.PrepareOnlyTemporary` | utils/update-alternatives.c:2115-2198 | Preparing an installation changes temporary link paths only. |
| `Alternatives.CommitReaches` | utils/update-alternatives.c:2029-2051 | After k operations of the commit every path has the outcome of the first k entries, and exactly the later temporary links are left. |
| `Alternatives.InstallConverges` | utils/update-alternatives.c:2155-2198 | After preparing and committing a choice, the master and every installable slave resolve link, altdir entry, file; every other slave has neither link. |
| `Alternatives.InstalledNeedsNothing` | utils/update-alternatives.c:2310-2349 | A group installed in that sense passes the self-check. |
| `Alternatives.InstalledIs` | utils/update-alternatives.c:2155-2198 | What installed means, path by path: link, altdir entry and file for the master and every slave for which the choice has a non-empty file that exists; neither link for any other slave. |
| `Alternatives.InstallTwice` | utils/update-alternatives.c:2115-2198 | Preparing and committing the same choice again changes no path at all, whatever stands at the links, also for a group that has lost slaves since. |
| `Alternatives.FewerPaths` | utils/update-alternatives.c:1684-1718 | The paths of a group stay pairwise distinct when saving drops slaves. |
| `Alternatives.Paths` | utils/update-alternatives.c:2131-2146 | Where the entry of a name is, and the temporary of a path. |
| `AltManager.Manager.PrepareInstall` | utils/update-alternatives.c:2155-2198 | Makes the temporary links and queues the operations of the plan for a registered choice, and nothing for an unknown one. |
| `AltManager.Manager.PrepareSingle` | utils/update-alternatives.c:2115-2153 | Two links at most: the altdir entry always, the link only if it does not lead there already. |
| `AltManager.Manager.PrepareSlave` | utils/update-alternatives.c:2171-2197 | An installable slave is prepared like the master; any other is queued for removal. |
| `AltManager.Manager.Commit` | utils/update-alternatives.c:2029-2051 | Carries out the queued operations in order and empties the queue. |
| `AltManager.Manager.Check` | utils/update-alternatives.c:2310-2349 | Says broken, changed or fine by the master link, the current choice and every slave. |
| `AltManager.Manager.Save` | utils/update-alternatives.c:1676-1774 | Replaces the file by the text of the group as saved, or refuses if a line would contain a newline. |
| `AltManager.Manager.Settle` | utils/update-alternatives.c:2655-2694 | Which choice gets prepared: a new request; else, if the check fails, the current one, or the best one if that is unknown, which makes the group automatic and modified. |
| `AltManager.Manager.Update` | utils/update-alternatives.c:2642-2705 | With choices left and no non-link in the way, the group passes a fresh self-check afterwards if and only if a choice was requested or something was current; a request, or else the current choice, or else the best one is installed; a group that checked out keeps every link; without --force nothing but links is replaced or removed at the links of the group; the mode, the group and the file left are exactly those specified, and fit for a next command; without choices every link and the file go; an error leaves every link alone. |
| `AltManager.UpdateConverges` | utils/update-alternatives.c:2642-2705 | The convergence on the state of the links, for any decision that was settled, and for the group as it is saved. |
| `AltManager.SecondRun` | utils/update-alternatives.c:2642-2705 | Two updates in a row, the second without a new request: the second one changes no path, whatever the first one found and did, and whatever stands in the way of the links. |
| `AltManager.Manager.UpdateAgain` | utils/update-alternatives.c:2642-2705 | The same of the code: updating a group that was just updated succeeds if the group can be written, and leaves the file system as it is. |
| `AltManager.RecordedKeeps` | utils/update-alternatives.c:1684-1722 | A group as it is written keeps its names, its link and its choices, loses at most unused slaves, and is fit for a next command. |
| `AltManager.Manager.SetAuto` | utils/update-alternatives.c:2477-2490 | --auto leaves a best choice installed; the group is automatic, and otherwise as it was or as it is saved; the file is rewritten exactly if something was modified; something other than a link in altdir is an error that changes nothing. |
| `AltManager.Manager.SetManual` | utils/update-alternatives.c:2462-2475 | --set installs a registered choice and refuses any other; the group is manual, and otherwise as it was or as it is saved; the file is rewritten exactly if something was modified. |
| `AltManager.Manager.RemovePath` | utils/update-alternatives.c:2224-2253 | Removing the current choice installs the best of the others in auto mode; removing another one amounts to an update without a request; removing the last one removes every link; the group, mode and file left are exactly those specified. |
| `AltManager.Manager.RemoveFiles` | utils/update-alternatives.c:2200-2222 | Removes the group's links and their temporaries, nothing else; without --force whatever stands at a link of the group and is not a link stays. |
| `AltManager.InstallingKeepsNonLinks` | utils/update-alternatives.c:2066-2112 | Without --force, at every point of an installation whatever stands at a link of the group and is not a link is still there. |
| `AltManager.Manager.SelectMode` | utils/update-alternatives.c:2517-2542 | The mode follows from the current choice: absent or dangling gives auto, unregistered but existing gives manual; the group is modified exactly if the mode changes. |
| `AltManager.ModeForIs` | utils/update-alternatives.c:2517-2542 | Which mode that is, for a registered choice, a missing or dangling one, and any other. |
| `AltManager.ModeAfterIs` | utils/update-alternatives.c:2642-2694 | When an update changes the mode: exactly for an unknown current choice, without another request, that the master link does not lead to; it is automatic then. |
| `AltManager.Manager.EvolveSlave` | utils/update-alternatives.c:2544-2588 | A slave link that changes place is renamed if it leads somewhere and removed otherwise; only links of the group change. |
| `AltManager.Manager.Evolve` | utils/update-alternatives.c:2590-2611 | The master link moves, slaves are replaced or added by name; only links of the two groups change and nothing but links appears. |
| `AltManager.Manager.Create` | utils/update-alternatives.c:2625-2640 | --install for a group that does not exist: it is created automatic with its one choice, saved, and the choice installed. |
| `AltManager.Manager.Install` | utils/update-alternatives.c:2613-2640 | --install on an existing group writes the group extended by the installation, in exactly the mode specified; in auto mode a best choice is installed, otherwise the current one stays installed. |
| `AltEffects.LinksFollow` | utils/update-alternatives.c:2544-2611 | Links that change place take their targets along and leave their old place, a slave link if the file it is to lead to exists; no other path changes; for installations that do not move the master link onto a slave link. |
| `AltEffects.NonLinkReplacedIff` | utils/update-alternatives.c:2574-2602 | While links change place, a real file stays if and only if no moving link lands there. |
| `AltEffects.RealFileReplaced` | utils/update-alternatives.c:2596-2602 | An --install without --force that replaces a real file by the master link, which man/update-alternatives.pod says is kept. |
| `AltEffects.InstallWrites` | utils/update-alternatives.c:2613-2705 | What --install leaves in the file of an existing group is the step of the directory that ownership is about. |
| `AltEffects.CreateWrites` | utils/update-alternatives.c:2625-2640 | The same for a new group. |
| `AltEffects.RemovalWrites` | utils/update-alternatives.c:2224-2253 | The same for --remove, also when the file goes. |
| `AltEffects.ModeWrites` | utils/update-alternatives.c:2462-2490 | The same for --auto and --set. |
| `AltEffects.LeftBroken` | utils/update-alternatives.c:2693-2694 | A group with one choice, no link in altdir, no request: the update leaves it as it is, failing its own check. |
| `AltDb.SaveLoadRoundTrip` | utils/update-alternatives.c:1676-1774 | Loading a saved group gives it back with unused slaves dropped, slaves and choices sorted, choices with missing files gone, and absent slave files empty. |
| `AltDb.PrintRoundTrip` | utils/update-alternatives.c:1599-1674 | Loading printed text restores status, link, slaves and choices. |
| `AltDb.SavedIs` | utils/update-alternatives.c:1685-1722 | What saving does to the group: exactly the used slaves, in order of name; the same choices, in order of file. |
| `AltDb.AcceptedGroup` | utils/update-alternatives.c:1495-1674 | Whatever is loaded has a mode, slaves with distinct names and links other than its own, and distinct existing choices whose priorities fit an int. |
| `AltDb.WrittenFile` | utils/update-alternatives.c:1690-1774 | The order of the lines of a file: mode, link, slaves with their links, an empty line, choices with their priorities and slave files, an empty line. |
| `AltDb.IntRoundTrip` | utils/update-alternatives.c:1568-1590 | Printed priorities are read back, over the whole range of int. |
| `AltDb.RangeRefused` | utils/update-alternatives.c:1568-1582 | A priority outside the range of int is refused. |
| `AltDb.GetLineLine` | utils/update-alternatives.c:1431-1470 | A line of up to 1022 characters is read back without its newline. |
| `AltDb.GetLineRefused` | utils/update-alternatives.c:1431-1470 | A line without its newline is refused, and so is one that does not fit the first read. |
| `AltDbFile.Save` | utils/update-alternatives.c:1676-1774 | The loops write exactly the text specified, and fail exactly if some line would contain a newline. |
| `AltDbFile.DropUnused` | utils/update-alternatives.c:1684-1718 | Keeps exactly the slaves that some choice has, in order. |
| `AltDbFile.LoadGroup` | utils/update-alternatives.c:1599-1674 | The loops read what the parser specifies, with the same errors. |
| `AltDbFile.ReadSlaves` | utils/update-alternatives.c:1495-1534 | Slaves until an empty line; duplicate names, duplicate links and the master link are refused. |
| `AltDbFile.ReadChoices` | utils/update-alternatives.c:1536-1596 | Choices until an empty line; duplicates are refused and missing files passed over. |
| `AltDbFile.SaveThenLoad` | utils/update-alternatives.c:1599-1774 | Saving and loading, as code. |
| `AltAdmin.Ownership` | utils/update-alternatives.c:2883-2970 | Over any run of commands every name and every link belongs to at most one group after every command, if and only if no command moves a master link onto a slave of its group that stays. |
| `AltAdmin.CommandKeeps` | utils/update-alternatives.c:2613-2705 | One command: groups never come to share a name or link; all files stay readable exactly unless the master link moves onto a slave that stays. |
| `AltAdmin.CheckInstallArgs` | utils/update-alternatives.c:2890-2970 | The searches accept exactly the well-formed arguments whose names and links are first found, if at all, in the group installed into; for groups in order these are exactly the ones that keep the groups apart. |
| `AltAdmin.ExtendedIs` | utils/update-alternatives.c:2590-2640 | What an installation owns afterwards, and exactly when its file stays readable. |
| `AltAdmin.MergeIs` | utils/update-alternatives.c:1249-1287 | Merging slaves: new ones replace those of the same name, the others stay, names and links stay distinct. |
| `AltAdmin.MasterOntoSlave` | utils/update-alternatives.c:2912-2920 | A command that passes the check and makes its group's file unreadable. |
| `InfoDb.Conservation` | lib/dpkg/db-ctrl-upgrade.c:72-224 | Under any number of upgrades, crashes, link-phase aborts and re-runs every file keeps its old or its new name with its own contents, files that are not to be converted keep theirs, and a reader never sees a format above 1 (no two files being due to get the same name). |
| `InfoDb.Convergence` | lib/dpkg/db-ctrl-upgrade.c:201-224 | However earlier runs ended, a completed one leaves exactly the arch-qualified names, all other files untouched, format 1 and no format-new; a further run changes nothing. |
| `InfoDb.NothingLostIff` | lib/dpkg/db-ctrl-upgrade.c:72-150 | A completed run on a legacy directory loses no file's contents if and only if files that are due to get the same name are already the same file. |
| `InfoDb.CaseClashLoses` | lib/dpkg/db-ctrl-upgrade.c:72-150 | A concrete directory, with two names that differ only in case, where a file is lost. |
| `InfoDb.RollBackReadableIff` | lib/dpkg/db-ctrl-upgrade.c:151-172 | After a rolled-back link phase the format is 0, and a reader finds all old names if and only if none had gone missing in an earlier run. |
| `InfoDb.RollBackUnreadable` | lib/dpkg/db-ctrl-upgrade.c:151-172 | A concrete run where it does not: a crash in the unlink phase, then an abort in the link phase of the re-run. |
| `InfoDb.TargetIsFinal` | lib/dpkg/db-ctrl-upgrade.c:86-122 | A converted name is not converted again. |
| `InfoDb.TargetIff` | lib/dpkg/db-ctrl-upgrade.c:86-139 | Which files are converted: exactly pkg.type of an installed Multi-Arch: same package pkg, split at the last full stop and without a colon or a leading full stop, becomes pkg:arch.type. |
| `InfoDb.CompletedRenames` | lib/dpkg/db-ctrl-upgrade.c:72-224 | Convergence by name: a completed upgrade leaves pkg:arch.type with the contents of pkg.type for every such file, however earlier runs ended, and touches no other file. |
| `InfoDb.RollBackRestores` | lib/dpkg/db-ctrl-upgrade.c:151-172 | On a directory of which nothing had been converted, a rolled back upgrade leaves everything as it was. |
| `InfoDb.SeenUnderWay` | lib/dpkg/db-ctrl-upgrade.c:174-243 | From its first operation to its last but one, an upgrade is visible to readers as format 1, and to the next run as interrupted. |
| `InfoDb.UpgradeSafe` | lib/dpkg/db-ctrl-upgrade.c:201-224 | Every prefix of an upgrade's operations keeps the invariant. |
| `InfoDb.AbortSafe` | lib/dpkg/db-ctrl-upgrade.c:151-172 | Every prefix of the abort handler's operations keeps the invariant. |
| `InfoDb.StepKeeps` | lib/dpkg/db-ctrl-upgrade.c:233-243 | One process, completed, crashed or aborted, keeps the invariant. |
| `InfoDatabase.Upgrader.LinkFiles` | lib/dpkg/db-ctrl-upgrade.c:72-150 | Links exactly the files to be converted, as listed, and remembers them. |
| `InfoDatabase.Upgrader.UnlinkFiles` | lib/dpkg/db-ctrl-upgrade.c:187-198 | Unlinks the old name of each remembered file. |
| `InfoDatabase.Upgrader.Abort` | lib/dpkg/db-ctrl-upgrade.c:151-172 | Unlinks the new names that this process made, and the new format file. |
| `InfoDatabase.Upgrader.UpgradeToMultiarch` | lib/dpkg/db-ctrl-upgrade.c:201-231 | The upgrade performs exactly the operations reasoned about, with the abort handler covering the link phase and the writing of the new format; it fails exactly if one of these does. |
| `InfoDatabase.Upgrader.Upgrade` | lib/dpkg/db-ctrl-upgrade.c:233-243 | Upgrades if the format is below 1 or an upgrade was interrupted, and does nothing otherwise; completed or rolled back, it is a step of the runs reasoned about. |
| `Getopt.ScanAll` | lib/compat/getopt.c:266-746 | A whole scan: argv ends up as the options with their arguments and any "--" in original order, then the operands in original order, a permutation of the original; optind is at the first operand, and the codes are those of the reference reading. |
| `Getopt.ReadIsStablePartition` | lib/compat/getopt.c:295-372 | The reference reading splits the command line into options and operands, both in original order, losing nothing. |
| `Getopt.ShuffleMultiset` | lib/compat/getopt.c:118-173 | Such a split is a permutation. |
| `Getopt.Exchange` | lib/compat/getopt.c:118-173 | Block swaps turn the adjacent blocks A B into B A and touch nothing else. |
| `Getopt.RotatedParts` | lib/compat/getopt.c:118-173 | What exchanging two adjacent blocks means. |
| `Getopt.LookupLong` | lib/compat/getopt.c:389-433 | An exact name wins; otherwise the first abbreviated one, ambiguous if a later one disagrees with it. |
| `CommandLine.WrittenIsRead` | lib/compat/getopt.c:374-746 | Any mixture of flag clusters, options with attached, following, optional or no arguments, long options in full or abbreviated, undeclared letters, unknown, ambiguous or wrongly used long options, and operands, followed by nothing or by "--" and operands, is read as exactly those options with their arguments, '?' for each wrong one, and those operands. |
| `CommandLine.MissingIsRead` | lib/compat/getopt.c:482-746 | An option that needs an argument, at the end of such a command line: ':' or '?', by the first character of the option string. |
| `CommandLine.ScanWritten` | lib/compat/getopt.c:266-746 | Scanning such a command line returns the codes written, and leaves the operands from optind on. |
| `CommandLine.ReadShort` | lib/compat/getopt.c:527-746 | A cluster ending in an option with an argument, attached or following; every letter that is not declared, and ':', reads as '?'. |
| `CommandLine.ReadLetters` | lib/compat/getopt.c:543-567 | A cluster of letters: itself for a flag, '?' for a letter not declared. |
| `CommandLine.ReadBare` | lib/compat/getopt.c:700-713 | An optional argument is never taken from the next element. |
| `CommandLine.DashAsLetter` | lib/compat/getopt.c:367-372 | Without long options the second of two dashes is read as a letter. |
| `CommandLine.ReadLong` | lib/compat/getopt.c:389-520 | A long option, in full or by an unambiguous abbreviation, with no, an attached or a following argument; '?' for an unknown or ambiguous name, or an argument given to an option that has none. |
| `CommandLine.OneDashInFull` | lib/compat/getopt.c:374-433 | For getopt_long_only: an option named in full behind one dash is found. |
| `CommandLine.OneDashLetter` | lib/compat/getopt.c:374-386 | A single declared letter is that letter, even if it abbreviates long names. |
| `CommandLine.OneDashUnknown` | lib/compat/getopt.c:511-541 | What abbreviates no name is read as letters if its first one is declared, and is otherwise wrong as a whole. |
| `Getopt.Scanner.Initialize` | lib/compat/getopt.c:177-208 | The first call starts at the first argument. |
| `Getopt.Scanner.Regroup` | lib/compat/getopt.c:306-315 | Options just passed go in front of operands skipped before. |
| `Getopt.Scanner.Skip` | lib/compat/getopt.c:317-323 | Skips operands up to the next option. |
| `Getopt.Scanner.Dashes` | lib/compat/getopt.c:325-343 | "--" goes with the options; all that follows are operands. |
| `Getopt.Scanner.Take` | lib/compat/getopt.c:386-746 | One option is decoded, and the scan moves on. |
| `Getopt.Scanner.Next` | lib/compat/getopt.c:266-746 | One call: what has been passed, what is skipped and what is ahead always make up the reading of the original command line. |
| `DepField.FieldRoundTrip` | lib/dpkg/dump.c:317-388 | Reading the field written for one kind restores its dependencies in order and in every detail, after those already there. |
| `DepField.Reread` | lib/dpkg/fields.c:449-700 | Any field that is accepted is written back to a text with the same reading. |
| `DepField.PossiRoundTrip` | lib/dpkg/dump.c:317-359 | One alternative: name, architecture, relation and version are restored. |
| `DepField.RestrictionRoundTrip` | lib/dpkg/fields.c:580-672 | A parenthesised relation and version is restored. |
| `DepField.RelationTexts` | lib/dpkg/fields.c:590-625 | How each relation is read, the deprecated single < and > included, and which pairs are refused. |
| `DepField.RelationsWritten` | lib/dpkg/dump.c:332-352 | How each relation is written. |
| `DepField.WrittenField` | lib/dpkg/dump.c:361-388 | Alternatives are separated by bars and dependencies of the kind by commas, others passed over. |
| `DepField.WrittenPossi` | lib/dpkg/dump.c:317-359 | How an alternative is written: an explicit architecture, and relation and version in parentheses. |
| `DepField.PossiValid` | lib/dpkg/fields.c:486-674 | Whatever is accepted is a valid name with a valid architecture, relation and version for its kind of field. |
| `DepParser.ReadField` | lib/dpkg/fields.c:449-700 | The cursor and its loops accept and refuse exactly what the grammar does, with the same errors, adding to the end of what is there. |
| `DepParser.ReadList` | lib/dpkg/fields.c:486-691 | Alternatives up to a comma or the end; refused where the field allows none. |
| `DepParser.ReadRestriction` | lib/dpkg/fields.c:580-672 | The part in parentheses. |
| `DepParser.WriteField` | lib/dpkg/dump.c:361-388 | Writes exactly the dependencies of its kind, separated by commas. |
| `DepParser.WriteList` | lib/dpkg/dump.c:317-359 | Writes the alternatives separated by bars. |
| `DepParser.WriteThenRead` | lib/dpkg/fields.c:449-700 | Writing and reading back, as code. |
| `PkgVersion.VersionRoundTrip` | lib/dpkg/parsehelp.c:162-192 | A valid version is restored from its text, with or without the epoch written. |
| `PkgVersion.ParsedIsValid` | lib/dpkg/parsehelp.c:242-329 | Whatever is accepted is valid, so writing and reading it again gives the same. |
| `PkgVersion.TrimIff` | lib/dpkg/parsehelp.c:250-267 | What is read as a version: exactly what is left between any spaces and tabs around it, if there are none inside. |
| `Text.StrToLIff` | lib/dpkg/parsehelp.c:268-285 | What is read as a number: digits after any space and at most one sign. |
| `PkgVersion.FaultsRefused` | lib/dpkg/parsehelp.c:242-329 | An empty version, one that does not start with a digit, or one with any other character is never accepted. |
| `PkgVersion.WrittenVersions` | lib/dpkg/parsehelp.c:162-192 | How versions are written: the epoch left out when 0, unless there is a colon. |
| `Conffiles.ValueRoundTrip` | lib/dpkg/dump.c:390-416 | Every list of conffiles with readable hashes is restored: names (spaces and all), hashes and both flags. |
| `Conffiles.EntryRoundTripIff` | lib/dpkg/fields.c:348-446 | A line is restored if and only if its hash cannot be taken for a flag and is not empty at the end of the line. |
| `Conffiles.KeywordHashRefused` | lib/dpkg/fields.c:404-430 | A conffile whose hash is the word obsolete is written as a line that is refused. |
| `Conffiles.Reread` | lib/dpkg/fields.c:379-446 | Any value that is accepted is written back to a text with the same reading. |
| `Conffiles.WrittenLine` | lib/dpkg/dump.c:390-416 | How a line is written, with neither, either or both of the flags. |
| `Conffiles.WrittenLines` | lib/dpkg/dump.c:390-416 | Lines are separated, not ended, by newlines, and each starts with a space. |
| `Conffiles.SkippedIs` | lib/dpkg/path.c:115-122 | What is skipped in front of a name. |
| `ConffileParser.ReadValue` | lib/dpkg/fields.c:379-446 | The loops accept and refuse exactly what the grammar does. |
| `ConffileParser.ReadEntry` | lib/dpkg/fields.c:404-444 | One line, read backwards. |
| `ConffileParser.FindLastWord` | lib/dpkg/fields.c:352-377 | The backward search stops within the line, thanks to the space before it, and finds the last word. |
| `ConffileParser.WriteValue` | lib/dpkg/dump.c:390-416 | Writes the lines. |
| `ConffileParser.WriteThenRead` | lib/dpkg/fields.c:379-446 | Writing and reading back, as code. |
| `Schedule.ParseSchedule` | utils/start-stop-daemon.c:1361-1426 | The array has room for every item; the result is what --retry means, and it is a program with no forever, at most one goto, at the end and strictly backwards. |
| `Schedule.ParseList` | utils/start-stop-daemon.c:1388-1425 | The loop over a list of items, with the usage errors and the internal error. |
| `Schedule.ListAccepted` | utils/start-stop-daemon.c:1388-1425 | A list is accepted if and only if all its pieces are items of less than 20 characters and forever occurs at most once and not last; the internal error is exactly a trailing slash after such a list. |
| `Schedule.TrailingSlash` | utils/start-stop-daemon.c:1388-1425 | The list 5/5/ ends in the internal error. |
| `Schedule.RetryFaithful` | utils/start-stop-daemon.c:3065-3097 | The items executed are exactly those written; after forever, what follows is repeated endlessly; a single timeout means signal, timeout, KILL, timeout. |
| `Schedule.ScheduleRoundTrip` | utils/start-stop-daemon.c:1341-1426 | Any list of at least two items, with forever at most once and not last, is accepted as written and executed as it says. |
| `Schedule.ItemRoundTrip` | utils/start-stop-daemon.c:1341-1359 | Timeouts, signal numbers and forever are read back from how they are written. |
| `Schedule.NamedSignal` | utils/start-stop-daemon.c:1341-1359 | A signal's name is read as its signal, with or without a hyphen. |
| `Schedule.SignalNumbers` | utils/start-stop-daemon.c:1166-1187 | The numbers of the signals. |
| `Schedule.MoreSignalNumbers` | utils/start-stop-daemon.c:1166-1187 | The numbers of the others. |
| `Schedule.TooLarge` | utils/start-stop-daemon.c:1341-1359 | A number that an int does not hold is refused. |
| `Schedule.CommonSchedule` | utils/start-stop-daemon.c:1361-1426 | TERM/30/KILL/5 means signal 15, half a minute, signal 9, five seconds. |
| `Schedule.Faithful` | utils/start-stop-daemon.c:1402-1421 | Executing a compiled list performs exactly the actions of the source list. |
| `Schedule.CompiledShape` | utils/start-stop-daemon.c:1402-1425 | The shape of the compiled program. |
| `Schedule.RunStop` | utils/start-stop-daemon.c:3026-3103 | Every finite part of a run: items are executed in the program's order until a count of zero; exit status 2 only at the program's end; status 0 exactly if a signal was sent before. |
| `Schedule.ForeverNeverRefuses` | utils/start-stop-daemon.c:3065-3103 | With forever, exit status 2 is out of reach. |
| `StopPoll.StopTimeout` | utils/start-stop-daemon.c:2964-3010 | For any course of events the pauses are as specified, there are at most 50 polls per second of timeout and one more, and a negative answer comes only when the time is over. |
| `StopPoll.PauseIs` | utils/start-stop-daemon.c:2986-3004 | A pause is the time of the poll times the ratio, at most what is left, at least 20 ms; timespecs stay normalised, and it ends by the end of the timeout or 20 ms after the poll. |
| `StopPoll.RoundsApart` | utils/start-stop-daemon.c:2999-3006 | Polls are at least 20 ms apart. |
| `StopPoll.Multiplying` | utils/start-stop-daemon.c:481-490 | timespec_mul is exact and normalised, and within 64 bits for times below a tenth of the range. |
| `StopPoll.Subtracting` | utils/start-stop-daemon.c:469-479 | timespec_sub is exact and normalised. |
| `StopPoll.Comparing` | utils/start-stop-daemon.c:464-467 | timespec_cmp compares times. |
| `Obstack.Stack.NewChunk` | lib/compat/obstack.c:248-293 | There is room for the requested length, the partial object keeps its bytes, finished objects stay, and the old chunk is released only if no object is in it. |
| `Obstack.Stack.Obtain` | lib/compat/obstack.c:251-268 | The new chunk holds the partial object, what is to be added and the alignment, and is at least of the preferred size. |
| `Obstack.Stack.Remaining` | lib/compat/obstack.c:277-287 | The old chunk leaves the chain exactly if the partial object starts it and it holds no empty object; then no object is in it. |
| `Obstack.Stack.constructor` | lib/compat/obstack.c:147-192 | A new stack is empty, its object base aligned inside its only chunk. |
| `Obstack.Stack.Grow` | lib/compat/obstack.h:292-300 | The object grows by exactly the given bytes. |
| `Obstack.Stack.Grow0` | lib/compat/obstack.h:302-311 | The same with a zero byte. |
| `Obstack.Stack.Blank` | lib/compat/obstack.h:353-360 | The object grows, keeping its bytes. |
| `Obstack.Stack.Finish` | lib/compat/obstack.h:382-395 | The object is finished where it was built, with its bytes; it is aligned unless empty. |
| `Obstack.Stack.Free` | lib/compat/obstack.c:328-357 | Freeing an object keeps exactly the older ones, and the chunks up to its own. |
| `Obstack.Stack.FreeAll` | lib/compat/obstack.c:328-357 | Freeing a null pointer releases every chunk. |
| `Obstack.Stack.Alloc` | lib/dpkg/nfmalloc.c:55-62 | A new object, of the given size and what was being grown before it; all others stay. |
| `Obstack.Stack.Copy0` | lib/dpkg/nfmalloc.c:64-80 | A new object holding what was being grown, the string and a zero byte; all others stay. |
| `Obstack.ObjectsApart` | lib/compat/obstack.h:114-131 | Non-empty finished objects are aligned, inside live chunks, and pairwise disjoint. |
| `Obstack.PassesBy` | lib/compat/obstack.c:335-357 | The search for an object's chunk frees exactly the younger chunks, even where an empty object's address is shared with the next chunk. |
| `Obstack.OnlyPartial` | lib/compat/obstack.c:277-287 | The test before releasing a chunk holds only if no finished object is in it. |

## Left out

Status database: triggers, locking, fsync of files and directories (operations
take effect in program order), the available file, a missing updates directory.
A stanza is an opaque value with a flag saying whether it is informative.  In-core
stanzas change only when noted; `Journal.CheckpointHarmlessIff` says exactly what
that is needed for.

- Resolver: lists shown to the user (headings, relations, texts, which packages are
  mentioned as unavailable), the non-recursive list; version comparisons are data
  of the graph.  It is not claimed that the final state is a fixed point: a
  dependency recorded before may change a selection and still be answered with 0.
  What holds at the end is stated for a run that changed nothing.
- update-alternatives: timestamps of new links, logging, interactive choice,
  --set-selections; which files exist does not change during a command.  Managed
  paths are taken to be pairwise distinct.  A directory in the place of a link or of
  an entry in altdir, over which a rename or an unlink fails, counts as any other
  non-link, which is replaced or removed where the source says so.
- AltDbFile.LoadGroup: a line that does not fit the first read of 1024 bytes is an error here, because what the source does with the rest of a longer one is left out.
- AltDb.GetLineLine: for lines that fit the first read of 1024 bytes.
- InfoDb.Conservation: for directories in which no two files are due to get the same name, because otherwise a file is lost in exactly the cases of `InfoDb.NothingLostIff`.
- InfoDb.Convergence: for the same directories.
- InfoDb.CompletedRenames: for the same directories.
- InfoDb.RollBackRestores: for the same directories.
- infodb: the packages known stay the same over a run of upgrades; a package of
  the set Multi-Arch: same always has an architecture (lib/dpkg/parse.c refuses
  others).
- Getopt.ScanAll: only for option strings and environments that ask for permutation, because the other two orderings do not move arguments; not for option strings with "W;", which makes -W a prefix of long options; error messages are not modelled.
- Getopt.Scanner.Next: the same.
- CommandLine.WrittenIsRead: for getopt_long_only, of the options only long ones behind two dashes, because there a cluster of flags may be taken for a long option; not for "W;".
- AltDb.GetLineRefused: what the source does with a line that does not fit the first read of 1024 bytes is left out.
- CommandLine.ScanWritten: for the same option strings, and for permutation.
- CommandLine.ReadLetters: not for getopt_long_only.
- CommandLine.ReadBare: not for getopt_long_only.
- CommandLine.ReadLong: not for "W;".
- CommandLine.MissingIsRead: for the same arguments as CommandLine.WrittenIsRead.
- CommandLine.ReadShort: not for getopt_long_only and "W;" either.
- Obstack: size arithmetic that wraps around, the failure of an allocation, and
  what users write into their objects; alignment is rounding up to a multiple,
  which for the powers of two required (lib/compat/obstack.h:114-119) is what the
  mask does.
- Obstack.Stack.constructor: demands a chunk size that holds the header and one aligned object, because the source computes with a negative room otherwise.
- Fields: the lax parsing modes, in which errors become warnings, and the text of
  warnings; parsing of whole stanzas.
- start-stop-daemon: everything but schedules and poll timing; a clock that does
  not go back and sleeps that are not interrupted.
- The rest of dpkg: archives, compression, unpacking, triggers, diversions,
  statoverrides, architectures, version comparison, dselect's user interface.
