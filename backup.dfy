/** rsyncbackup.py, the run: the configuration the constructor reads, the
    per-object work of RsyncBackup.__rsync (server root, dated target,
    rsync command line, pruning of the oldest snapshot) and the ordering of
    RsyncBackup.backup around it. */
module BackupRun {
  import opened PyBase
  import opened SnapshotStore
  import Mounts

  // ---- configuration ----

  /** One entry of a server's list under `source_location`. */
  datatype DirectoryConfig = DirectoryConfig(directory: Option<string>, exclude: Option<seq<string>>)

  /** The YAML configuration key by key; None for a missing key.
      `sourceLocation` keeps the mapping's insertion order. */
  datatype RawConfig = RawConfig(
    remoteUser: Option<string>,
    backupDateFormat: Option<string>,
    backupLocation: Option<string>,
    needMountFs: Option<bool>,
    numberOfVersions: Option<int>,
    encryptStorage: Option<bool>,
    hasEncryptfs: bool,
    sourceLocation: seq<(string, seq<DirectoryConfig>)>)

  /** What the constructor and the run read from outside the configuration
      file: whether stdin is a terminal, the --dryrun flag, the host name,
      `datetime.now().strftime(fmt)` and whether `datetime.strptime(name,
      fmt)` succeeds. */
  datatype Environment = Environment(
    interactive: bool,
    dryrun: bool,
    hostname: string,
    nowFormatted: string -> string,
    strptimeAccepts: (string, string) -> bool)

  /** The private attributes a constructed RsyncBackup holds. */
  datatype Settings = Settings(
    backupUser: string,
    dateFormat: string,
    backupDate: string,
    backupLocation: string,
    needMountFs: bool,
    numberOfVersions: int,
    cryptfs: bool,
    validDate: string -> bool,
    interactive: bool,
    dryrun: bool,
    hostname: string)

  /** RsyncObject: a server name, the directory as a Path, the exclude
      patterns. */
  datatype RsyncObject = RsyncObject(server: string, objectName: FsPath, exclude: seq<string>)

  /** The settings for a configuration that names its backup location. */
  function SettingsFor(raw: RawConfig, env: Environment, location: string): (s: Settings)
    ensures s.backupLocation == location
    ensures raw.remoteUser.None? ==> s.backupUser == "root"
    ensures raw.backupDateFormat.None? ==> s.dateFormat == "%Y%m%d"
    ensures raw.needMountFs.None? ==> s.needMountFs
    ensures raw.numberOfVersions.None? ==> s.numberOfVersions == 180
    ensures raw.encryptStorage.None? ==> !s.cryptfs
    ensures s.cryptfs <==> raw.hasEncryptfs && raw.encryptStorage == Some(true)
    ensures s.backupDate == env.nowFormatted(s.dateFormat)
    ensures forall name :: s.validDate(name) == env.strptimeAccepts(name, s.dateFormat)
  {
    var format := if raw.backupDateFormat.Some? then raw.backupDateFormat.value else "%Y%m%d";
    Settings(
      if raw.remoteUser.Some? then raw.remoteUser.value else "root",
      format,
      env.nowFormatted(format),
      location,
      if raw.needMountFs.Some? then raw.needMountFs.value else true,
      if raw.numberOfVersions.Some? then raw.numberOfVersions.value else 180,
      raw.hasEncryptfs && raw.encryptStorage == Some(true),
      name => env.strptimeAccepts(name, format),
      env.interactive,
      env.dryrun,
      env.hostname)
  }

  /** The object for one directory entry: a missing directory is '' and a
      missing exclude list is empty. */
  function ObjectFor(server: string, d: DirectoryConfig): RsyncObject
  {
    RsyncObject(server,
                ParsePath(if d.directory.Some? then d.directory.value else ""),
                if d.exclude.Some? then d.exclude.value else [])
  }

  /** The objects of the first `|dirs|` entries of one server. */
  function ServerObjects(server: string, dirs: seq<DirectoryConfig>): (r: seq<RsyncObject>)
    decreases |dirs|
  {
    if |dirs| == 0 then []
    else ServerObjects(server, dirs[..|dirs| - 1]) + [ObjectFor(server, dirs[|dirs| - 1])]
  }

  /** The constructor's object list: server by server, entry by entry. */
  function Objects(src: seq<(string, seq<DirectoryConfig>)>): (r: seq<RsyncObject>)
    decreases |src|
  {
    if |src| == 0 then []
    else Objects(src[..|src| - 1]) + ServerObjects(src[|src| - 1].0, src[|src| - 1].1)
  }

  /** Each server contributes one object per directory entry, in the
      entry order. */
  lemma {:induction false} ServerObjectsInOrder(server: string, dirs: seq<DirectoryConfig>)
    ensures |ServerObjects(server, dirs)| == |dirs|
    ensures forall i :: 0 <= i < |dirs| ==> ServerObjects(server, dirs)[i] == ObjectFor(server, dirs[i])
    decreases |dirs|
  {
    if |dirs| > 0 {
      ServerObjectsInOrder(server, dirs[..|dirs| - 1]);
    }
  }

  /** The object list of a configuration split in two is the two lists one
      after the other: servers keep their configuration order. */
  lemma {:induction false} ObjectsAppend(a: seq<(string, seq<DirectoryConfig>)>, b: seq<(string, seq<DirectoryConfig>)>)
    ensures Objects(a + b) == Objects(a) + Objects(b)
    decreases |b|
  {
    if |b| == 0 {
      assert a + b == a;
    } else {
      var init, last := b[..|b| - 1], b[|b| - 1];
      var tail := ServerObjects(last.0, last.1);
      assert Objects(a + b) == Objects(a + init) + tail by {
        assert (a + b)[..|a + b| - 1] == a + init;
        assert (a + b)[|a + b| - 1] == last;
      }
      ObjectsAppend(a, init);
    }
  }

  /** The constructor's inner loop: one object per directory entry of a
      server, appended in entry order. */
  method AddServer(objects: seq<RsyncObject>, server: string, dirs: seq<DirectoryConfig>)
    returns (r: seq<RsyncObject>)
    ensures r == objects + ServerObjects(server, dirs)
  {
    r := objects;
    var j := 0;
    while j < |dirs|
      invariant 0 <= j <= |dirs|
      invariant r == objects + ServerObjects(server, dirs[..j])
    {
      assert dirs[..j + 1][..j] == dirs[..j];
      r := r + [ObjectFor(server, dirs[j])];
      j := j + 1;
    }
    assert dirs[..j] == dirs;
  }

  /** The constructor: reads the configuration and builds the object list
      with the two nested loops; a missing backup_location raises
      KeyError. */
  method Load(raw: RawConfig, env: Environment, tree: Tree) returns (r: Result<RsyncBackup>)
    ensures raw.backupLocation.None? <==> r.Err?
    ensures r.Err? ==> r.error == KeyError("backup_location")
    ensures r.Ok? ==> fresh(r.value)
                      && r.value.settings == SettingsFor(raw, env, raw.backupLocation.value)
                      && r.value.objects == Objects(raw.sourceLocation)
                      && r.value.tree == tree && r.value.events == []
  {
    if raw.backupLocation.None? {
      return Err(KeyError("backup_location"));
    }
    var settings := SettingsFor(raw, env, raw.backupLocation.value);
    var src := raw.sourceLocation;
    var objects: seq<RsyncObject> := [];
    var i := 0;
    while i < |src|
      invariant 0 <= i <= |src|
      invariant objects == Objects(src[..i])
    {
      objects := AddServer(objects, src[i].0, src[i].1);
      assert objects == Objects(src[..i + 1]) by {
        assert src[..i + 1][..i] == src[..i];
      }
      i := i + 1;
    }
    assert src[..i] == src;
    var backup := new RsyncBackup(settings, objects, tree);
    return Ok(backup);
  }

  // ---- one object of __rsync ----

  /** `Path(backup_location) / servername`. */
  function ServerRoot(s: Settings, server: string): FsPath
  {
    Div(ParsePath(s.backupLocation), ParsePath(server))
  }

  /** `Path(target_location) / backup_date / object_name.relative_to('/')`;
      a relative object name raises ValueError. */
  function ObjectTarget(s: Settings, o: RsyncObject): (r: Result<FsPath>)
    ensures r.Ok? <==> o.objectName.absolute
  {
    match RelativeToRoot(o.objectName)
    case Err(e) => Err(e)
    case Ok(rel) => Ok(Div(Div(ServerRoot(s, o.server), ParsePath(s.backupDate)), rel))
  }

  /** The rsync source: `user@server:/dir/` unless the server is this
      host, then the directory itself. */
  function SourceArg(s: Settings, o: RsyncObject): string
  {
    if s.hostname != o.server then s.backupUser + "@" + o.server + ":" + Render(o.objectName) + "/"
    else Render(o.objectName)
  }

  /** `--exclude p` for each pattern, in order. */
  function ExcludeArgs(ex: seq<string>): (r: seq<string>)
    ensures |r| == 2 * |ex|
    ensures forall i :: 0 <= i < |ex| ==> r[2 * i] == "--exclude" && r[2 * i + 1] == ex[i]
    decreases |ex|
  {
    if |ex| == 0 then []
    else ExcludeArgs(ex[..|ex| - 1]) + ["--exclude", ex[|ex| - 1]]
  }

  /** The `--link-dest` argument when there is a previous snapshot: that
      snapshot's copy of the object, written as a string. */
  function LinkDest(root: FsPath, previous: Option<string>, o: RsyncObject): (r: Option<string>)
    ensures r.Some? <==> previous.Some?
  {
    if previous.Some? then Some(Render(root) + "/" + previous.value + Render(o.objectName)) else None
  }

  /** An rsync command line: options, source, target, the excludes in
      order, then the link destination if there is one. */
  function RsyncArgv(s: Settings, source: string, target: string, exclude: seq<string>, link: Option<string>): seq<string>
  {
    ["rsync", if s.interactive then "-arv" else "-ar"] + (if s.dryrun then ["--dry-run"] else [])
    + [source, target] + ExcludeArgs(exclude)
    + (if link.Some? then ["--link-dest", link.value] else [])
  }

  /** Where each piece of the rsync command line sits. */
  lemma RsyncArgvLayout(s: Settings, source: string, target: string, exclude: seq<string>, link: Option<string>)
    ensures var r := RsyncArgv(s, source, target, exclude, link);
            var b := if s.dryrun then 3 else 2;
            && |r| == b + 2 + 2 * |exclude| + (if link.Some? then 2 else 0)
            && r[0] == "rsync" && r[1] == (if s.interactive then "-arv" else "-ar")
            && (s.dryrun ==> r[2] == "--dry-run")
            && r[b] == source && r[b + 1] == target
            && (forall i :: 0 <= i < |exclude| ==> r[b + 2 + 2 * i] == "--exclude" && r[b + 3 + 2 * i] == exclude[i])
            && (link.Some? ==> r[|r| - 2] == "--link-dest" && r[|r| - 1] == link.value)
  {
    var r := RsyncArgv(s, source, target, exclude, link);
    var ex := ExcludeArgs(exclude);
    var b := if s.dryrun then 3 else 2;
    assert forall i :: 0 <= i < |exclude| ==> r[b + 2 + 2 * i] == "--exclude" && r[b + 3 + 2 * i] == exclude[i] by {
      forall i | 0 <= i < |exclude| ensures r[b + 2 + 2 * i] == "--exclude" && r[b + 3 + 2 * i] == exclude[i] {
        assert r[b + 2 + 2 * i] == ex[2 * i];
        assert r[b + 3 + 2 * i] == ex[2 * i + 1];
      }
    }
  }

  /** The command line __rsync builds for one object. */
  function ObjectArgv(s: Settings, o: RsyncObject, target: FsPath, root: FsPath, previous: Option<string>): seq<string>
  {
    RsyncArgv(s, SourceArg(s, o), Render(target), o.exclude, LinkDest(root, previous, o))
  }

  /** What the run reports or starts, in order. */
  datatype Event =
    | StartBackup
    | UnlockFs(mountPoint: string)
    | MountStep(mount: Mounts.MountOutcome)
    | AlreadyExists(target: FsPath)
    | RunRsync(argv: seq<string>)
    | RemovedBackup(server: string, date: string)
    | UmountStep(umount: Mounts.MountOutcome)
    | LockFs
    | FinishedAll

  /** The tree after a step or a run, what it reported, and the exception
      that ended it, if any. */
  datatype Outcome = Outcome(tree: Tree, events: seq<Event>, error: Option<PyError>)

  /** The directories one rsync run creates inside its target; `transfer`
      stands for the external rsync program. */
  function Transferred(created: set<FsPath>, target: FsPath): (r: set<FsPath>)
    ensures forall q :: q in r ==> Under(target, q)
  {
    set q | q in created && Under(target, q)
  }

  /** __get_old_backup on a server root of the tree. */
  ghost function OldBackupIn(s: Settings, tree: Tree, root: FsPath, version: string): Option<string>
  {
    GetOldBackup(Some(Enumerate(ChildNames(tree, root))), version, s.validDate, s.backupDate, s.numberOfVersions)
  }

  /** The end of one iteration, after rsync ran with `argv` and left the
      tree `staged`: the oldest dated snapshot goes when there are more
      than number_of_versions of them. */
  ghost function Prune(s: Settings, staged: Tree, root: FsPath, server: string, argv: seq<string>): Outcome
  {
    var oldest := OldBackupIn(s, staged, root, "oldest");
    if oldest.Some? then
      Outcome(RemoveEntry(staged, Child(root, oldest.value)), [RunRsync(argv), RemovedBackup(server, oldest.value)], None)
    else Outcome(staged, [RunRsync(argv)], None)
  }

  /** Where an iteration of the loop in __rsync stands before the prune:
      finished (a relative object name raised, or the target exists and is
      only reported), or rsync has run and left the tree `staged`. */
  datatype Staging =
    | Finished(out: Outcome)
    | Staged(staged: Tree, root: FsPath, argv: seq<string>)

  /** An iteration up to the prune: make the server root, check the
      target, make it, and run rsync against the newest snapshot. */
  ghost function Stage(s: Settings, transfer: seq<string> -> set<FsPath>, tree: Tree, o: RsyncObject): Staging
  {
    var root := ServerRoot(s, o.server);
    var t1 := MakeDirs(tree, root);
    match ObjectTarget(s, o)
    case Err(e) => Finished(Outcome(t1, [], Some(e)))
    case Ok(target) =>
      if target in t1 then Finished(Outcome(t1, [AlreadyExists(target)], None))
      else
        var t2 := MakeDirs(t1, target);
        var argv := ObjectArgv(s, o, target, root, OldBackupIn(s, t2, root, "latest"));
        Staged(t2 + Transferred(transfer(argv), target), root, argv)
  }

  /** One iteration of the loop in __rsync, on the tree as a whole. */
  ghost function Step(s: Settings, transfer: seq<string> -> set<FsPath>, tree: Tree, o: RsyncObject): Outcome
  {
    match Stage(s, transfer, tree, o)
    case Finished(out) => out
    case Staged(staged, root, argv) => Prune(s, staged, root, o.server, argv)
  }

  /** The loop of __rsync over the first objects; an exception ends it. */
  ghost function RunAll(s: Settings, transfer: seq<string> -> set<FsPath>, tree: Tree, objs: seq<RsyncObject>): Outcome
    decreases |objs|
  {
    if |objs| == 0 then Outcome(tree, [], None)
    else
      var prev := RunAll(s, transfer, tree, objs[..|objs| - 1]);
      if prev.error.Some? then prev
      else
        var step := Step(s, transfer, prev.tree, objs[|objs| - 1]);
        Outcome(step.tree, prev.events + step.events, step.error)
  }

  /** Once an object raises, the rest of the list is not looked at. */
  lemma {:induction false} RunAllStopsAtError(s: Settings, transfer: seq<string> -> set<FsPath>, tree: Tree,
                                             objs: seq<RsyncObject>, k: nat)
    requires k <= |objs|
    requires RunAll(s, transfer, tree, objs[..k]).error.Some?
    ensures RunAll(s, transfer, tree, objs) == RunAll(s, transfer, tree, objs[..k])
    decreases |objs| - k
  {
    if k < |objs| {
      assert objs[..k + 1][..k] == objs[..k];
      RunAllStopsAtError(s, transfer, tree, objs, k + 1);
    } else {
      assert objs[..k] == objs;
    }
  }

  /** The manager RsyncBackup.backup builds for the backup location. */
  function LocationMount(s: Settings): Mounts.MountManager
  {
    Mounts.ForMountPoint(s.backupLocation)
  }

  /** What RsyncBackup.backup does before the run: the start line, the
      unlock of the encrypted store, the mount. */
  function Opening(s: Settings, mountedBefore: bool, fstab: Option<seq<string>>): (r: seq<Event>)
    ensures |r| == 1 + (if s.cryptfs then 1 else 0) + (if s.needMountFs then 1 else 0)
    ensures r[0] == StartBackup
    ensures s.cryptfs ==> r[1] == UnlockFs(s.backupLocation)
    ensures s.needMountFs ==> r[|r| - 1] == MountStep(Mounts.Mount(LocationMount(s), mountedBefore, fstab))
  {
    [StartBackup]
    + (if s.cryptfs then [UnlockFs(s.backupLocation)] else [])
    + (if s.needMountFs then [MountStep(Mounts.Mount(LocationMount(s), mountedBefore, fstab))] else [])
  }

  /** What RsyncBackup.backup does after a run that did not raise: the
      umount, the lock, the closing line. */
  function Closing(s: Settings, mountedAfter: bool): (r: seq<Event>)
    ensures |r| == 1 + (if s.cryptfs then 1 else 0) + (if s.needMountFs then 1 else 0)
    ensures r[|r| - 1] == FinishedAll
    ensures s.needMountFs ==> r[0] == UmountStep(Mounts.Umount(LocationMount(s), mountedAfter))
    ensures s.cryptfs ==> r[|r| - 2] == LockFs
  {
    (if s.needMountFs then [UmountStep(Mounts.Umount(LocationMount(s), mountedAfter))] else [])
    + (if s.cryptfs then [LockFs] else [])
    + [FinishedAll]
  }

  /** The log of RsyncBackup.backup around a run that ended with `run`:
      the opening steps, the run, and the closing steps only when the run
      raised nothing. */
  function BackupEvents(s: Settings, run: Outcome, mountedBefore: bool, fstab: Option<seq<string>>, mountedAfter: bool)
    : (r: seq<Event>)
    ensures Opening(s, mountedBefore, fstab) + run.events <= r
    ensures run.error.Some? ==> r == Opening(s, mountedBefore, fstab) + run.events
  {
    Opening(s, mountedBefore, fstab) + run.events + (if run.error.None? then Closing(s, mountedAfter) else [])
  }

  /** Without a mount type or device, the mount of the backup location
      never raises: it runs `mount <location>` when fstab lists it and
      only logs otherwise. */
  lemma LocationMountNeverRaises(s: Settings, fstab: Option<seq<string>>)
    ensures !Mounts.Mount(LocationMount(s), false, fstab).Raised?
    ensures Mounts.InFstab(fstab, s.backupLocation) ==> Mounts.Mount(LocationMount(s), false, fstab) == Mounts.Run(["mount", s.backupLocation])
  {
    Mounts.MountFromFstab(LocationMount(s), fstab);
  }

  // ---- the object ----

  class RsyncBackup {
    const settings: Settings
    const objects: seq<RsyncObject>
    /** The directories under the file system, as far as the run sees them. */
    var tree: Tree
    /** The log lines and commands of the run so far. */
    var events: seq<Event>

    constructor (settings: Settings, objects: seq<RsyncObject>, tree: Tree)
      ensures this.settings == settings && this.objects == objects
      ensures this.tree == tree && this.events == []
    {
      this.settings := settings;
      this.objects := objects;
      this.tree := tree;
      this.events := [];
    }

    /** `os.listdir(dir)`: each name of the directory once, in an order the
        file system chooses. */
    method ListDir(dir: FsPath) returns (names: seq<string>)
      ensures Distinct(names)
      ensures forall n :: n in names <==> n in ChildNames(tree, dir)
    {
      var left := ChildNames(tree, dir);
      names := [];
      while left != {}
        invariant left <= ChildNames(tree, dir)
        invariant Distinct(names)
        invariant forall n :: n in names <==> n in ChildNames(tree, dir) && n !in left
        decreases |left|
      {
        var n :| n in left;
        names := names + [n];
        left := left - {n};
      }
    }

    /** RsyncBackup.__get_old_backup on a directory of the tree. */
    method OldBackup(dir: FsPath, version: string) returns (r: Option<string>)
      ensures r == OldBackupIn(settings, tree, dir, version)
    {
      var names := ListDir(dir);
      r := GetOldBackup(Some(names), version, settings.validDate, settings.backupDate, settings.numberOfVersions);
      GetOldBackupIgnoresListingOrder(names, Enumerate(ChildNames(tree, dir)), version, settings.validDate,
                                      settings.backupDate, settings.numberOfVersions);
    }

    /** The rsync command line, extended piece by piece. */
    method BuildRsyncCommand(source: string, target: string, exclude: seq<string>, link: Option<string>)
      returns (cmd: seq<string>)
      ensures cmd == RsyncArgv(settings, source, target, exclude, link)
    {
      cmd := ["rsync", if settings.interactive then "-arv" else "-ar"];
      if settings.dryrun {
        cmd := cmd + ["--dry-run"];
      }
      cmd := cmd + [source, target];
      ghost var head := cmd;
      var i := 0;
      while i < |exclude|
        invariant 0 <= i <= |exclude|
        invariant cmd == head + ExcludeArgs(exclude[..i])
      {
        assert exclude[..i + 1][..i] == exclude[..i];
        cmd := cmd + ["--exclude", exclude[i]];
        i := i + 1;
      }
      assert exclude[..i] == exclude;
      if link.Some? {
        cmd := cmd + ["--link-dest", link.value];
      }
    }

    /** One iteration of the loop in __rsync. */
    method BackupObject(o: RsyncObject, transfer: seq<string> -> set<FsPath>) returns (error: Option<PyError>)
      modifies this
      ensures var step := Step(settings, transfer, old(tree), o);
              tree == step.tree && events == old(events) + step.events && error == step.error
    {
      var root := ServerRoot(settings, o.server);
      tree := MakeDirs(tree, root);
      var target := ObjectTarget(settings, o);
      if target.Err? {
        assert events == old(events) + Step(settings, transfer, old(tree), o).events;
        return Some(target.error);
      }
      if target.value in tree {
        events := events + [AlreadyExists(target.value)];
        assert events == old(events) + Step(settings, transfer, old(tree), o).events;
        return None;
      }
      tree := MakeDirs(tree, target.value);
      var previous := OldBackup(root, "latest");
      var cmd := BuildRsyncCommand(SourceArg(settings, o), Render(target.value), o.exclude, LinkDest(root, previous, o));
      tree := tree + Transferred(transfer(cmd), target.value);
      ghost var staged := tree;
      assert Step(settings, transfer, old(tree), o) == Prune(settings, staged, root, o.server, cmd);
      var oldest := OldBackup(root, "oldest");
      if oldest.Some? {
        tree := RemoveEntry(tree, Child(root, oldest.value));
        events := events + [RunRsync(cmd), RemovedBackup(o.server, oldest.value)];
      } else {
        events := events + [RunRsync(cmd)];
      }
      return None;
    }

    /** RsyncBackup.__rsync: every object in order; an exception ends the
        loop and escapes. */
    method Rsync(transfer: seq<string> -> set<FsPath>) returns (error: Option<PyError>)
      modifies this
      ensures var run := RunAll(settings, transfer, old(tree), objects);
              tree == run.tree && events == old(events) + run.events && error == run.error
    {
      ghost var tree0, events0 := tree, events;
      var i := 0;
      while i < |objects|
        invariant 0 <= i <= |objects|
        invariant var run := RunAll(settings, transfer, tree0, objects[..i]);
                  tree == run.tree && events == events0 + run.events && run.error.None?
      {
        ghost var prev := RunAll(settings, transfer, tree0, objects[..i]);
        ghost var step := Step(settings, transfer, tree, objects[i]);
        error := BackupObject(objects[i], transfer);
        ghost var next := RunAll(settings, transfer, tree0, objects[..i + 1]);
        assert tree == next.tree && events == events0 + next.events && error == next.error by {
          assert objects[..i + 1][..i] == objects[..i];
          assert next == Outcome(step.tree, prev.events + step.events, step.error);
          ConcatAssoc(events0, prev.events, step.events);
        }
        if error.Some? {
          RunAllStopsAtError(settings, transfer, tree0, objects, i + 1);
          return;
        }
        i := i + 1;
      }
      assert objects[..i] == objects;
      error := None;
    }

    /** RsyncBackup.backup: unlock, mount, the run, then umount and lock;
        an exception from the run skips everything after it. The mount
        state before and after the run and /etc/fstab are inputs. */
    method Backup(transfer: seq<string> -> set<FsPath>, mountedBefore: bool, fstab: Option<seq<string>>,
                  mountedAfter: bool) returns (error: Option<PyError>)
      modifies this
      ensures var run := RunAll(settings, transfer, old(tree), objects);
              && tree == run.tree && error == run.error
              && events == old(events) + BackupEvents(settings, run, mountedBefore, fstab, mountedAfter)
    {
      var opening := Opening(settings, mountedBefore, fstab);
      events := events + opening;
      ghost var run := RunAll(settings, transfer, tree, objects);
      error := Rsync(transfer);
      ConcatAssoc(old(events), opening, run.events);
      if error.Some? {
        return;
      }
      events := events + Closing(settings, mountedAfter);
      ConcatAssoc(old(events), opening + run.events, Closing(settings, mountedAfter));
    }
  }
}
