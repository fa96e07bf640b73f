# python-tools in Dafny

A model of the decision and command-building logic of a small set of
system-administration scripts. The model covers five scripts:

- **rsyncbackup.py.** A snapshot backup. For each configured server
  directory, rsync copies it into `<backup_location>/<server>/<date>/<dir>`
  and hard-links against the newest earlier snapshot. A second run on the
  same day skips objects it has already copied. Once there are more than
  `number_of_versions` snapshots, the script is meant to prune the oldest.
  As written, `os.remove` on that snapshot directory raises
  IsADirectoryError. That ends the backup before the umount and the lock
  (see Findings). The run model uses the intended removal, and the run as
  written is modelled beside it.
- **support_methods.py.** Size strings such as `500G`, the binary unit
  table, the free-space query and a plain fstab lookup.
- **mount_manager.py.** The command `MountManager.mount` / `umount` issue:
  from fstab, from a device, sshfs, nfs or cifs.
- **download_updates.py.** A package-mirror downloader:
  - it flattens the distribution / version / location configuration into
    (protocol, source URL, destination) records, carrying override
    variables from entry to entry;
  - it downloads them with rsync or curl;
  - it hands the mirror to the web server with chown;
  - it restarts apache2;
  - it buffers its log lines for one mail.
- **check_services.py.** A service checker. It logs into each configured
  host over SSH and asks systemd for the status of its services, in one of
  three modes.

The model replaces every outside effect with an input or a record:

- **Processes.** A process the scripts would start becomes an argv
  (`seq<string>`) in the model's event or command log.
- **File system.** The file system of the backup location is a set of
  directory paths (`SnapshotStore.Tree`).
- **Other effects** become parameters:
  - the mounted state and the lines of `/etc/fstab`;
  - the host name, today's formatted date and the date-format test;
  - rsync's effect on the tree;
  - the exit status of chown;
  - whether an SSH connection succeeds;
  - the status a host reports.

Modules:

| module | file | models |
|---|---|---|
| `PyBase` | pybase.dfy | Python values the scripts rely on: `None`, truthiness, exceptions, `str.join`, `str.split(c)`, `str(n)`, `in` on strings |
| `SupportMethods` | support.dfy | support_methods.py |
| `Mounts` | mounts.dfy | mount_manager.py |
| `SnapshotStore` | store.dfy | pathlib paths, the directory tree, `__get_old_backup` |
| `BackupRun` | backup.dfy | the `RsyncBackup` constructor, `__rsync`, `backup` |
| `SnapshotRetention` | retention.dfy | retention, link-dest and same-day properties of the run |
| `Mirror` | mirror.dfy | download_updates.py |
| `ServiceCheck` | services.dfy | check_services.py |

## Model

| member | source | states |
|---|---|---|
| SupportMethods.ParseSizeUnit | support_methods.py:12-20 | An empty string raises IndexError, which the `except ValueError` does not catch. Otherwise the result is Ok exactly when the prefix reads as an integer under `int()`, and the unit is the last character. Every other failure is the ValueError carrying the example-format message. |
| SupportMethods.ParseSizeUnitExample | support_methods.py:15-20 | "500G" parses to (500, "G"), and 500 G is 536870912000 bytes. |
| SupportMethods.ParseSizeUnitRejectsNoDigits | support_methods.py:15-20 | A string without a digit never parses: "" raises IndexError, and "G" or "abcG" raise the format ValueError. |
| SupportMethods.ParseSizeUnitStripsNoBreakSpace | support_methods.py:17 | `int()` strips every character `str.isspace` accepts, so "\u00a0500G" parses to (500, "G"). |
| SupportMethods.ParseIntOfDigits | support_methods.py:17 | A non-empty string of plain digits reads back as its decimal value, and with a leading minus as the negated value. |
| SupportMethods.ParseIntOfNatToString | support_methods.py:17 | The decimal rendering of a natural number reads back as that number, and with a leading minus as its negation. |
| SupportMethods.ParseIntOfIntToString | support_methods.py:17 | `int(str(n)) == n` for every integer, negative ones included. |
| SupportMethods.ParseThenConvert | support_methods.py:15-25 | Round trip: parsing `str(n) + u` gives back (n, u); for a unit in the table, the byte count is n times its factor. |
| SupportMethods.UnitTable | support_methods.py:23 | The table has exactly the keys K, M, G and T. K is 1024 and each later factor is 1024 times the previous one. |
| SupportMethods.ConvertSizeToBytesSpec | support_methods.py:22-27 | Conversion succeeds iff the unit is K, M, G or T; the result is size × 1024, 1024², 1024³ or 1024⁴. Any other unit, lower-case ones included, raises `ValueError("Invalid unit: …")`. |
| SupportMethods.ValidUnitAgreesWithConvert | support_methods.py:29-33 | valid_unit accepts exactly the units the conversion converts. It answers True for them and raises a ValueError for the rest. |
| SupportMethods.GetAvailableSpaceSpec | support_methods.py:39-57 | A failed disk-usage query becomes a ValueError. No unit, an empty unit or an unknown unit gives the free bytes unchanged. A known unit gives free × factor. |
| SupportMethods.AvailableSpaceMultipliesInsteadOfDividing | support_methods.py:48-51 | As written, a known unit makes any non-zero free space grow (2048 bytes become 2097152 "K"). The corrected conversion makes it shrink (2 K). |
| SupportMethods.AvailableSpaceIn | support_methods.py:47-51 | Corrected conversion: the whole number of units r that fit, r × factor ≤ free < (r+1) × factor. Without a known unit it is the byte count. |
| SupportMethods.IsInFstab | support_methods.py:35-37 | True iff some line contains the mount point as a substring. |
| SupportMethods.IsInFstabAnyMention | support_methods.py:35-37 | Any mention counts, in a comment or in the device column too. |
| Mounts.InFstab | mount_manager.py:94-103 | True iff /etc/fstab could be read and some line splits into at least two fields, separated by whitespace as `str.split()` sees it, whose second field is the mount point. An unreadable file counts as absent. |
| Mounts.NoBreakSpaceSeparatesColumns | mount_manager.py:99 | Columns separated by a no-break space count as separate fields, as they do for `str.split()`. |
| Mounts.Mount | mount_manager.py:22-78 | A no-op exactly when already mounted. Every command ends with the mount point and starts with mount, sshfs or mount.cifs. Every exception is a ValueError and needs a mount type. "Not in fstab" happens only without device and type and with no fstab entry. |
| Mounts.Umount | mount_manager.py:80-89 | A no-op exactly when not mounted; otherwise `umount -f <mount point>`. |
| Mounts.MountFromFstab | mount_manager.py:28-34 | Without device and type: `mount <mp>` iff fstab has an entry for mp, otherwise only a log line. It never raises. |
| Mounts.MountDevice | mount_manager.py:36-39 | A device without a type gives `mount <device> <mp>`, whatever fstab holds. |
| Mounts.MountSshfs | mount_manager.py:41-50 | Raises iff the server or the user is missing. Otherwise `sshfs`, then `-p <port>` only when a port is set, then `user@server:remote_path`, then the mount point. |
| Mounts.MountNfs | mount_manager.py:52-55 | `mount server:remote_path <mp>`. |
| Mounts.MountCifs | mount_manager.py:57-72 | Raises iff there is neither a credential file nor a user with a password. A credential file wins over user and password, `,seal` is added iff secure, and the share is `//server` followed by remote_path. |
| Mounts.MountUnsupported | mount_manager.py:74-75 | Any other mount type raises `ValueError("Unsupported mount type: …")`. |
| Mounts.FstabEntryImpliesMention | mount_manager.py:99 | Every mount point the column test finds, the substring test of support_methods.py finds too. |
| Mounts.MentionDoesNotImplyEntry | mount_manager.py:99 | The converse fails: in `device mp+x` the substring test finds mp and the column test does not. |
| SnapshotStore.RelativeToRoot | rsyncbackup.py:187-191 | `get_object_name(False)` succeeds iff the path is absolute, and then keeps the same parts without the root. |
| SnapshotStore.Ancestors | rsyncbackup.py:110 | The path and every directory above it. |
| SnapshotStore.MakeDirs | rsyncbackup.py:110 | `mkdir(parents=True)` adds the directory and only directories on its way. Nothing existing disappears. |
| SnapshotStore.RemoveEntry | rsyncbackup.py:149 | Removing an entry removes exactly it and what lies below it. |
| SnapshotStore.ChildNames | rsyncbackup.py:73 | The listing of a directory is exactly the names whose child path exists. |
| SnapshotStore.ChildNamesAfterRemoval | rsyncbackup.py:149 | Removing `dir/name` takes exactly that name out of the listing of `dir`. |
| SnapshotStore.Candidates | rsyncbackup.py:71-75 | The candidates are exactly the listed names that pass the date test and differ from today's date; they are duplicate-free when the listing is. |
| SnapshotStore.MaxLex | rsyncbackup.py:91 | `sorted(dirs)[-1]`: a member of the list that no member exceeds in Python string order. |
| SnapshotStore.MinLex | rsyncbackup.py:91 | `sorted(dirs)[0]`: a member of the list that no member precedes. |
| SnapshotStore.GetOldBackup | rsyncbackup.py:64-91 | A missing target gives None. An answer is a listed, dated name other than today. "latest" answers iff a candidate exists, with the greatest one. "oldest" answers iff there are candidates and more than number_of_versions of them, with the least one. Any other version gives None. |
| SnapshotStore.GetOldBackupIgnoresListingOrder | rsyncbackup.py:71-91 | Two duplicate-free listings of the same names give the same answer. |
| SnapshotStore.SortedEnds | rsyncbackup.py:91 | Any ascending arrangement of the candidates ends with MaxLex and starts with MinLex. |
| SnapshotStore.CandidateCount | rsyncbackup.py:86 | The count compared with number_of_versions is the number of dated names other than today. |
| BackupRun.SettingsFor | rsyncbackup.py:29-51 | The defaults: remote_user root, date format %Y%m%d, need_mount_fs True, 180 versions, no encryption. cryptfs is used iff the `encryptfs` section exists and encrypt_storage is True. The backup date and the date test use the chosen format. |
| BackupRun.ServerObjectsInOrder | rsyncbackup.py:42-45 | One object per directory entry of a server, in entry order. A missing directory is '' and a missing exclude list is empty. |
| BackupRun.ObjectsAppend | rsyncbackup.py:41-45 | Servers contribute their objects in configuration order. |
| BackupRun.AddServer | rsyncbackup.py:42-45 | The inner loop appends one object per directory entry of the server, in entry order, after the objects already collected. |
| BackupRun.Load | rsyncbackup.py:20-51 | The constructor raises KeyError iff backup_location is missing. Otherwise it holds the settings and the object list built by the two nested loops, and has logged nothing. |
| BackupRun.ObjectTarget | rsyncbackup.py:106-112 | The dated target exists iff the object name is absolute; a relative one raises ValueError. |
| BackupRun.ExcludeArgs | rsyncbackup.py:134-136 | One `--exclude pattern` pair per pattern, in order. |
| BackupRun.LinkDest | rsyncbackup.py:139-141 | A `--link-dest` argument exists iff there is a previous snapshot. |
| BackupRun.RsyncArgvLayout | rsyncbackup.py:122-141 | The exact position of each piece. First `rsync -arv`/`-ar`, then `--dry-run` iff dry run, then source and target. Then the exclude pairs in order, and `--link-dest` last when present. |
| BackupRun.Transferred | rsyncbackup.py:144 | rsync only creates directories inside its target. |
| BackupRun.RunAllStopsAtError | rsyncbackup.py:103-150 | Once an object raises, the remaining objects are not looked at. |
| BackupRun.Opening | rsyncbackup.py:154-163 | First the start line, then the unlock iff encrypted, then the mount of the backup location iff need_mount_fs. |
| BackupRun.Closing | rsyncbackup.py:167-173 | The umount iff need_mount_fs, then the lock iff encrypted, then the closing line. |
| BackupRun.LocationMountNeverRaises | rsyncbackup.py:154-163 | The location is mounted without type or device, so the mount never raises, and it runs `mount <location>` when fstab lists it. |
| BackupRun.RsyncBackup.constructor | rsyncbackup.py:20-22 | The object starts with its settings, its objects, the current tree and an empty log. |
| BackupRun.RsyncBackup.ListDir | rsyncbackup.py:73 | `os.listdir`: each name of the directory exactly once, in an unspecified order. |
| BackupRun.RsyncBackup.OldBackup | rsyncbackup.py:64-91 | Agrees with GetOldBackup on the current listing, whatever order the listing comes in. |
| BackupRun.RsyncBackup.BuildRsyncCommand | rsyncbackup.py:122-141 | The list built by successive `extend` calls is the command line RsyncArgvLayout describes. |
| BackupRun.RsyncBackup.BackupObject | rsyncbackup.py:104-150 | With the intended removal of the oldest snapshot, one loop iteration changes the tree and appends to the log exactly as Step specifies. |
| BackupRun.RsyncBackup.Rsync | rsyncbackup.py:102-150 | With the intended removal, the loop leaves the tree, log and exception of RunAll over all objects. |
| BackupRun.BackupEvents | rsyncbackup.py:153-173 | The log of a backup starts with the opening steps and the run's log; when the run raised, nothing follows. |
| BackupRun.RsyncBackup.Backup | rsyncbackup.py:153-173 | With the intended removal, the log is Opening, then the run, then Closing, and Closing happens only when the run did not raise. |
| SnapshotRetention.OldestIsLeastDated | rsyncbackup.py:84-91 | "oldest" answers iff there are more dated names than number_of_versions (today excluded), and then with the least dated name. |
| SnapshotRetention.LatestIsGreatestDated | rsyncbackup.py:82-83 | "latest" answers iff a dated name other than today exists, and then with the greatest one. |
| SnapshotRetention.DatedAfterRemoval | rsyncbackup.py:149 | Removing a snapshot takes exactly its name out of the dated names. |
| SnapshotRetention.PruneRetention | rsyncbackup.py:146-150 | After rsync, at most one snapshot goes: the oldest dated one, and only over the limit. The dated count then drops by one, nothing else disappears, and the removal is logged after the rsync command. |
| SnapshotRetention.PruneRunsRsyncFirst | rsyncbackup.py:143-150 | With the intended removal, an iteration that reaches rsync logs the rsync command first and raises nothing after it. |
| SnapshotRetention.LinkDestIsNewestDated | rsyncbackup.py:138-141 | rsync links against the greatest dated name of the server root. Whether that snapshot holds this object is not checked; without a dated name there is no `--link-dest`. |
| SnapshotRetention.OsRemove | rsyncbackup.py:149 | `os.remove` on a directory raises IsADirectoryError; on anything else the directories are unchanged. |
| SnapshotRetention.PruneAsWrittenRaises | rsyncbackup.py:146-150 | As written, pruning raises IsADirectoryError exactly when the limit is exceeded, and no snapshot is ever removed. |
| SnapshotRetention.PruneAsWrittenAgrees | rsyncbackup.py:146-150 | The two prunes give the same outcome when no snapshot is due for removal. Otherwise the one as written logs only the rsync command and raises IsADirectoryError where the intended one removes the snapshot. |
| SnapshotRetention.StepAsWrittenAgrees | rsyncbackup.py:104-150 | The same for a whole iteration: an iteration that would remove a snapshot raises instead, right after its rsync. |
| SnapshotRetention.RunAllAsWrittenAgrees | rsyncbackup.py:102-150 | The loop as written gives the same outcome as the intended one when no iteration removes a snapshot. Otherwise it stops with IsADirectoryError, and its log is exactly the intended log up to the first removal. |
| SnapshotRetention.BackupAsWrittenSkipsClosing | rsyncbackup.py:153-173 | When any object would take a server past number_of_versions, backup as written raises IsADirectoryError. Its log is the opening steps and the run up to that removal, with no umount, no lock and no closing line. |
| SnapshotRetention.TargetShape | rsyncbackup.py:106-112 | With plain names (not empty, not `.`, no `/`), the target is location/server/date/object. |
| SnapshotRetention.StepOnCaptured | rsyncbackup.py:112-116 | An object whose dated target exists gets no mkdir, no rsync and no pruning, only the "already exists" line. |
| SnapshotRetention.RemovalSparesToday | rsyncbackup.py:149 | Removing another date's snapshot keeps every server root and every path below today's date. |
| SnapshotRetention.RunCaptures | rsyncbackup.py:103-150 | For server names and a backup date that are plain names (not empty, not `.`, no `/`), a run that does not raise leaves every object's server root and dated target on the tree. |
| SnapshotRetention.AllCapturedEach | rsyncbackup.py:103-116 | The object list is captured as a whole iff every object in it is captured. |
| SnapshotRetention.SkipsEach | rsyncbackup.py:112-116 | Over captured objects, the i-th skip event reports the i-th object's target as existing, and each such target is well formed. |
| SnapshotRetention.RunOnCaptured | rsyncbackup.py:103-116 | A run over captured objects leaves the tree as it was, raises nothing, and logs exactly the skip events, one per object in object order. |
| SnapshotRetention.SameDayRerunOnlySkips | rsyncbackup.py:112-116 | Idempotence, for server names and a backup date that are plain names (not empty, not `.`, no `/`): after a first run that does not raise, a second run on the same day changes no directory, raises nothing and only reports existing targets, one per object. |
| Mirror.PathJoin | download_updates.py:71 | `os.path.join`: an absolute part replaces what precedes it, and otherwise one `/` separates the parts. |
| Mirror.PathJoin3Plain | download_updates.py:71-79 | For plain parts the destination is root/dist/location, or root/dist/alt_destination. |
| Mirror.Override | download_updates.py:42-66 | The override block of a distribution or of a location entry. Without an override the carried values are kept. With one, source_path is reset to the block's own value, and source_location and protocol are replaced when the block sets them and kept otherwise. |
| Mirror.Apply | download_updates.py:39-82 | Once raised, nothing changes. A distribution raises AttributeError("items") iff `versions` is missing, and otherwise adds no record. An entry with an empty mapping raises IndexError; without destination_location it raises TypeError. Otherwise it appends exactly one record, built from the carried values, its distribution and its first value. The carried values are those Override computes. |
| Mirror.EntryWithOverride | download_updates.py:60-79 | With an override, the record uses the entry's own protocol and source location when set, and the carried ones otherwise. The source and destination distributions fall back to the entry's distribution. The source URL has the entry's source_path when it is truthy. The destination uses alt_destination when it is truthy. |
| Mirror.FoldRecords | download_updates.py:39-82 | The records only grow. Without an exception there is exactly one record per location entry, in distribution, version, entry order. |
| Mirror.OverrideLeaks | download_updates.py:23-66 | Without further overrides the carried source location, protocol and source path stay as the last override left them. Every later record uses that protocol. |
| Mirror.EntryWithoutOverride | download_updates.py:55-58 | An entry without an override gets its own distribution as source and destination distribution, and no alternative destination. |
| Mirror.SourceUrlParts | download_updates.py:70-75 | The source URL splits back on `/` into location, [source_path,] distribution and location string. |
| Mirror.Flatten | download_updates.py:34-82 | A missing `distributions` raises AttributeError before any record. |
| Mirror.FlattenEntry | download_updates.py:52-82 | The loop body with its local variables computes one Apply step. |
| Mirror.FlattenEntries | download_updates.py:52-82 | The innermost loop is the fold over that version's entries. |
| Mirror.FlattenVersions | download_updates.py:47-82 | The middle loop is the fold over the distribution's versions. |
| Mirror.FlattenDistribution | download_updates.py:39-82 | One pass of the outer loop, with its override block and the loops over the versions, is the fold over that distribution's steps. |
| Mirror.FlattenLocations | download_updates.py:39-82 | The three nested loops compute Flatten: the records, the carried overrides and the exception. |
| Mirror.MailSettingsFor | download_updates.py:87-102 | No mail iff the section is missing or empty. Local delivery iff local_delivery_user is truthy, and then to that user. Otherwise the server and to_address come from the config, from_address is the configured one and defaults to to_address, credentials are set iff user and password are both truthy, and the subject is "Download <file> on <date>". |
| Mirror.RsyncDownloadArgv | download_updates.py:197-210 | `rsync -arPv`, then `--dry-run` iff dry run, then `--delete`, then `rsync://url/` and `dest/`. |
| Mirror.DownloadCommands | download_updates.py:168-171 | One command iff the protocol is rsync or curl, run by that program; otherwise none. |
| Mirror.DownloadRunCreates | download_updates.py:159-171 | After the loop, exactly the old directories plus every destination exist, with at most one download per location. |
| Mirror.HandlerCorrected | download_updates.py:186-187 | The intended handler never raises and logs an error iff chown failed. |
| Mirror.HandlerAsWrittenRaises | download_updates.py:173-187 | The two handlers agree iff chown succeeded. After a failed chown, the handler as written raises AttributeError("log_error") where the intended one logs the error. |
| Mirror.RestartCommands | download_updates.py:183-184 | One restart command per service, in list order. |
| Mirror.TryCommands | download_updates.py:151-184 | The try block's commands: the downloads, then chown of the destination, then the apache2 restart as the last command only when chown succeeded. |
| Mirror.PackageDownloader.constructor | download_updates.py:13-36 | The downloader starts with its records, destination, flags and mail settings, and no commands. |
| Mirror.PackageDownloader.Download | download_updates.py:159-171 | One location: its destination directory exists afterwards and no other directory is added. At most one command is started: rsync or curl, as the protocol says. |
| Mirror.PackageDownloader.DownloadAll | download_updates.py:159-171 | The loop over the locations leaves the directories of DownloadRun and appends its commands, in location order. |
| Mirror.PackageDownloader.RestartServices | download_updates.py:183-184 | The restart loop starts exactly one command, the apache2 restart, and creates no directory. |
| Mirror.PackageDownloader.TryBlock | download_updates.py:151-184 | The try block leaves the directories of DownloadRun and starts TryCommands. It raises CalledProcessError with chown's status iff chown exits non-zero. |
| Mirror.PackageDownloader.DownloadUpdates | download_updates.py:151-187 | The directories are those of DownloadRun and the commands are TryCommands. With the intended handler, the run never raises and logs an error iff chown failed. |
| Mirror.PackageDownloader.DownloadUpdatesAsWritten | download_updates.py:151-187 | The directories and commands are the same as with the intended handler. The run raises AttributeError("log_error") iff chown failed, and completes otherwise. |
| Mirror.MailHandler.constructor | download_updates.py:257-268 | A handler keeps its settings and starts with empty buffer and outbox. |
| Mirror.MailHandler.Emit | download_updates.py:270-272 | One formatted record is appended to the buffer; nothing is sent. |
| Mirror.MailHandler.Flush | download_updates.py:274-302 | Local mode sends the newline-joined buffer to sendmail. SMTP mode sends it only when host, sender and recipients are all set. The buffer is always cleared, even when nothing was sent. |
| Mirror.CreateMailHandler | download_updates.py:134-149 | A local handler for a local user; otherwise an SMTP handler with the server, the sender, the one recipient, the subject and the credentials. |
| Mirror.FlushedMessageSplitsBack | download_updates.py:277 | The flushed message splits back on newlines into the emitted records. |
| Mirror.SmtpFallbackSender | download_updates.py:93 | With from_address missing, the handler sends from to_address, so the SMTP check passes iff a mail server is set. |
| ServiceCheck.UserFor | check_services.py:41 | The user is the argument, else the config user, else root. |
| ServiceCheck.SettingsFor | check_services.py:41-47 | The user is UserFor's; sudo iff that user is not root. lines defaults to 5, and the flags are copied. |
| ServiceCheck.HostsFor | check_services.py:49-59 | One host per configured host, in order. Its services are the generic services followed by its own, and custom defaults to []. |
| ServiceCheck.GenericServicesFirst | check_services.py:55 | Every host's service list starts with the generic services. |
| ServiceCheck.HostsToCheck | check_services.py:194-201 | Without a hostname filter every host is checked; the filter never adds hosts. |
| ServiceCheck.HostsToCheckSpec | check_services.py:196-201 | With a filter, the checked hosts are exactly the configured hosts of that name. |
| ServiceCheck.FilterKeepsOrder | check_services.py:196-201 | The filtered hosts keep their configured order. |
| ServiceCheck.CustomCmd | check_services.py:131-132 | With sudo, "sudo" is glued to the command with no separator; without it the command is unchanged. |
| ServiceCheck.CustomCmdGluesSudo | check_services.py:131-132 | With sudo, the first word of a custom command is "sudo" only when the command starts with a space: "ls" becomes "sudols". |
| ServiceCheck.StatusListCmdWords | check_services.py:110-114 | The status command splits on spaces into `sudo` (iff sudo), `/usr/bin/systemctl`, `status` and the service names in order. |
| ServiceCheck.ColoursAreEscapes | check_services.py:67-89 | Every colour of both tables is an ANSI escape ending in `m`. |
| ServiceCheck.UncolourColoured | check_services.py:78 | Stripping a colour code and the reset gives the text back. |
| ServiceCheck.FormattedStatusRoundTrip | check_services.py:80-89 | A formatted status is code + status + reset: uncolouring gives the status back. "failed" is bright red and an unknown status is bold. |
| ServiceCheck.FormattedHostnameRoundTrip | check_services.py:67-78 | A formatted hostname uncolours to the hostname. |
| ServiceCheck.ModeFor | check_services.py:220-225 | short, short_error or error outranks custom_only, which outranks the default mode. |
| ServiceCheck.CustomEvents | check_services.py:128-143 | One command per custom command, in order: the k-th event runs the k-th custom command, with "sudo" glued on when sudo is set. |
| ServiceCheck.ShortEventsCount | check_services.py:153-175 | One status query per service, plus one journal query per failed service iff error or short_error is set. |
| ServiceCheck.JournalCmdNames | check_services.py:166-173 | A journal command names its service, and it is never a status query. |
| ServiceCheck.JournalQueriedIffFailed | check_services.py:161-175 | A service's journal is fetched iff error or short_error is set and that service of the host reported "failed". |
| ServiceCheck.ShortWithoutErrorsOnlyQueries | check_services.py:153-175 | Without error and short_error, only the status queries run, one per service in order. |
| ServiceCheck.ModeRun | check_services.py:145-146 | The mode fails iff it is the short mode over no services, because `max` of nothing raises. Otherwise the session ends with close. |
| ServiceCheck.HostSession | check_services.py:203-229 | A dry run does nothing. Otherwise the session starts with a connect as the configured user, and a successful one ends with close. It fails iff the connection fails or the short mode has no services. |
| ServiceCheck.DefaultModeCustom | check_services.py:109-126 | In the default mode the session is: connect, the FQDN and distribution queries, one `systemctl status` over all services, the custom commands iff there are any and no_custom is not set, then close. |
| ServiceCheck.CheckAsWrittenStops | check_services.py:228-229 | As written, the first failing host ends the whole check with AttributeError(hostname). Hosts before it are checked as intended and hosts after it are not. |
| ServiceCheck.NoFailureAgrees | check_services.py:203-229 | Without a failing host, the as-written check and the intended one agree. |
| ServiceCheck.UnreachableHostStopsCheck | check_services.py:228-229 | An unreachable first host is enough: the second host is never contacted. |
| ServiceCheck.CheckServices.constructor | check_services.py:14-65 | The object holds SettingsFor and HostsFor of its configuration. |
| ServiceCheck.CheckServices.GetServiceStatus | check_services.py:177-191 | One `is-active` query, with "sudo " iff sudo; the answer is the host's reported status. |
| ServiceCheck.CheckServices.CheckCustom | check_services.py:128-143 | The loop issues CustomEvents, one command per custom command. |
| ServiceCheck.CheckServices.CheckShort | check_services.py:145-175 | Succeeds iff there are services, and then issues ShortEvents; with none it raises before any command. |
| ServiceCheck.CheckServices.CheckDefault | check_services.py:109-126 | One `systemctl status` command for all services, then the custom commands when they run. |
| ServiceCheck.CheckServices.RunMode | check_services.py:220-225 | The dispatch issues ModeRun's commands and fails when ModeRun does. |
| ServiceCheck.CheckServices.VisitHost | check_services.py:203-229 | One host's turn: its session, and the error line when it failed. |
| ServiceCheck.CheckServices.Check | check_services.py:193-229 | Every host that passes the filter gets its turn, in order. A failing host is reported and the check goes on. |

## Left out

- Processes are not run. rsync, curl, chown, systemctl, mount, umount, sshfs, mount.cifs, sendmail and the SSH commands appear only as the argv or command string the model records.
- rsync's effect on the tree is the parameter `transfer`. What a download writes, and the exit status of downloads and restarts, are not modelled.
- The file system is a set of directories. Regular files are not tracked, so `Path.exists` on a file path is not modelled.
- `datetime.now`, `datetime.strptime`, `time.time`, `socket.gethostname` and `sys.stdin.isatty` are inputs. `__is_valid_date_format` is an arbitrary predicate; strptime's leniency is not modelled.
- Logging is not modelled: log lines, their text and timing, `print` output, the logger classes, `configure_logging`, the journal and console handlers, and SMTP delivery. The log lines that mark an outcome are kept as events.
- cryptfs.py is not part of this model. Unlocking and locking are the events `UnlockFs` and `LockFs`.
- size_of_format is not modelled: it uses floating-point division and formatting.
- certificate_update.py, logger.py, every argparse `main()` and YAML parsing are not modelled. Configurations are typed values, and a key present with a null value is treated like a missing key.
- The SSH password is not modelled. The remote output (FQDN, distribution, journal text) is not modelled: those queries appear only as commands.
- `verbose` and `interactive` in download_updates.py only change what is logged, so they are not modelled.
- `os.makedirs` in download_updates.py is modelled as adding the destination only. Its parent directories are not modelled.
- SupportMethods.ParseSizeUnit: `int()` is modelled for ASCII digits only. Other Unicode decimal digits are not accepted. Whitespace follows `str.isspace`.
- BackupRun.RsyncBackup.BackupObject: models the intended removal of the oldest snapshot. The iteration as written raises IsADirectoryError instead; see SnapshotRetention.StepAsWrittenAgrees.
- BackupRun.RsyncBackup.Rsync: models the intended removal. The loop as written stops at the first removal; see SnapshotRetention.RunAllAsWrittenAgrees.
- BackupRun.RsyncBackup.Backup: models the intended removal. As written, a removal skips the umount, the lock and the closing line; see SnapshotRetention.BackupAsWrittenSkipsClosing.
- SnapshotRetention.RunCaptures: proved only for plain server names and a plain backup date. A server name with `/` can nest one server root inside another: with a server `a/20240101` followed by a server `a` whose oldest dated child is `20240101`, the prune for `a` removes the first server's target. A `date_format` producing `/` is accepted by the script but not covered.
- SnapshotRetention.SameDayRerunOnlySkips: proved under the same plain-name conditions as RunCaptures, for the same reasons.
- SnapshotRetention.PruneRunsRsyncFirst: is about the intended prune. The prune as written raises after rsync when a snapshot is due for removal; see SnapshotRetention.PruneAsWrittenAgrees.
- SnapshotStore.ParsePath: pathlib's special handling of a leading `//` is not modelled.
- An `exclude` given as null is treated as an empty list. Both are falsy in the source, so no `--exclude` is added either way.
- A name that `os.listdir` reports is treated as a single path part.
- The fidelity points the code imposes are kept as written:
  - link-dest does not check that the object exists in the latest snapshot;
  - pruning runs once per object, not once per server;
  - a dry run still creates directories and prunes;
  - the local-host test is an exact string comparison;
  - with sudo, "sudo" is glued to a custom command with no space.
- The `except subprocess.CalledProcessError` blocks of mount_manager.py are not modelled. `subprocess.run` there is called without `check=True`, so they are never entered.
- Mirror.Flatten: the first value of a location mapping is assumed to be a string. An empty mapping raises IndexError. A missing destination_location raises TypeError at the first entry.
- Mirror.PathJoin: the contract covers the absolute case and the case of a root without a trailing slash. Other roots follow the body only.
- Mirror.DownloadCommands: the contract names the program and a minimum length. The full argument lists are stated by RsyncDownloadArgv and CurlArgv.
- Mirror.PackageDownloader.DownloadUpdates: only the chown failure is modelled among the exceptions download_updates can raise. Downloads catch their own exceptions, and restart failures are caught inside the restart helper.
- Mirror.MailHandler.Flush: a failing sendmail or SMTP handler is not modelled. The source catches those failures itself.
- ServiceCheck.HostSession: a failing remote command is not modelled. Most of them are caught and printed where they run. The journal query of the short mode is not: its failure would reach the handler in `check`, fail the host and, as written, end the check with AttributeError. Only a connection failure or the empty short mode fails a host in the model.

## Findings

| source | as written | input that shows it | evidently intended | confidence | as-written member | corrected member |
|---|---|---|---|---|---|---|
| support_methods.py:48-51 | the free byte count is multiplied by the unit factor | 2048 free bytes with unit "K" give 2097152 | divide, giving 2 K | not executed | SupportMethods.AvailableSpaceMultipliesInsteadOfDividing | SupportMethods.AvailableSpaceIn |
| rsyncbackup.py:149 | `os.remove` is called on the oldest snapshot, which is a directory | any server root with more than number_of_versions dated snapshots | remove the snapshot directory, keeping the retention limit | not executed | SnapshotRetention.BackupAsWrittenSkipsClosing | SnapshotRetention.PruneRetention |
| check_services.py:229 | the handler reads `host.hostname`, but Hosts has only the mangled private attribute | a first host that refuses the SSH connection | report the failed host and check the next one | not executed | ServiceCheck.CheckAsWrittenStops | ServiceCheck.CheckServices.Check |
| download_updates.py:187 | the handler calls `log_error`, which a logging.Logger does not have | a non-zero exit status of chown | log the error and end normally | not executed | Mirror.HandlerAsWrittenRaises | Mirror.HandlerCorrected |
