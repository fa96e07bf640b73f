/** Properties of the snapshot run of rsyncbackup.py: what one object's
    iteration keeps and removes, which snapshot rsync links against, and
    why a second run on the same day only reports existing targets. */
module SnapshotRetention {
  import opened PyBase
  import opened SnapshotStore
  import opened BackupRun

  // ---- retention ----

  /** The dated names of a server root other than today's. */
  function Dated(s: Settings, tree: Tree, root: FsPath): set<string>
  {
    DatedNames(ChildNames(tree, root), s.validDate, s.backupDate)
  }

  /** __get_old_backup(root, "oldest") answers with the least dated name
      exactly when there are more dated names than number_of_versions. */
  lemma OldestIsLeastDated(s: Settings, tree: Tree, root: FsPath)
    ensures var oldest := OldBackupIn(s, tree, root, "oldest");
            var dated := Dated(s, tree, root);
            && (oldest.Some? <==> |dated| > 0 && |dated| > s.numberOfVersions)
            && (oldest.Some? ==> oldest.value in dated && forall x :: x in dated ==> LexLe(oldest.value, x))
  {
    var names := ChildNames(tree, root);
    var listing := Enumerate(names);
    var cands := Candidates(listing, s.validDate, s.backupDate);
    var dated := Dated(s, tree, root);
    var oldest := GetOldBackup(Some(listing), "oldest", s.validDate, s.backupDate, s.numberOfVersions);
    assert |cands| == |dated| by {
      CandidateCount(names, s.validDate, s.backupDate);
    }
    assert forall x :: x in cands <==> x in dated;
    assert oldest.Some? <==> |cands| > 0 && |cands| > s.numberOfVersions;
    assert oldest.Some? ==> forall x :: x in cands ==> LexLe(oldest.value, x);
  }

  /** __get_old_backup(root, "latest") answers with the greatest dated
      name, or None when there is none. */
  lemma LatestIsGreatestDated(s: Settings, tree: Tree, root: FsPath)
    ensures var latest := OldBackupIn(s, tree, root, "latest");
            var dated := Dated(s, tree, root);
            && (latest.Some? <==> dated != {})
            && (latest.Some? ==> latest.value in dated && forall x :: x in dated ==> LexLe(x, latest.value))
  {
    var names := ChildNames(tree, root);
    var cands := Candidates(Enumerate(names), s.validDate, s.backupDate);
    assert forall x :: x in cands <==> x in Dated(s, tree, root);
    if Dated(s, tree, root) != {} {
      var x :| x in Dated(s, tree, root);
      assert x in cands;
    }
  }

  /** Removing a snapshot takes exactly its name out of the dated names. */
  lemma DatedAfterRemoval(s: Settings, tree: Tree, root: FsPath, d: string)
    ensures Dated(s, RemoveEntry(tree, Child(root, d)), root) == Dated(s, tree, root) - {d}
  {
    ChildNamesAfterRemoval(tree, root, d);
  }

  /** After rsync, one iteration removes at most one snapshot: the oldest
      dated one, and only when there are more than number_of_versions of
      them. Nothing else in the tree disappears. */
  lemma PruneRetention(s: Settings, staged: Tree, root: FsPath, server: string, argv: seq<string>)
    ensures var before := Dated(s, staged, root);
            var r := Prune(s, staged, root, server, argv);
            var after := Dated(s, r.tree, root);
            && r.error.None?
            && (|before| > 0 && |before| > s.numberOfVersions ==>
                  exists d :: d in before && (forall x :: x in before ==> LexLe(d, x))
                              && after == before - {d} && |after| == |before| - 1
                              && r.tree == RemoveEntry(staged, Child(root, d))
                              && r.events == [RunRsync(argv), RemovedBackup(server, d)])
            && (!(|before| > 0 && |before| > s.numberOfVersions) ==>
                  after == before && r.tree == staged && r.events == [RunRsync(argv)])
  {
    var oldest := OldBackupIn(s, staged, root, "oldest");
    OldestIsLeastDated(s, staged, root);
    if oldest.Some? {
      DatedAfterRemoval(s, staged, root, oldest.value);
    }
  }

  /** The snapshot rsync links against is the greatest dated name in the
      server root, taken from the root's listing alone: whether that
      snapshot holds a copy of this object is not looked at. */
  lemma LinkDestIsNewestDated(s: Settings, transfer: seq<string> -> set<FsPath>, tree: Tree, o: RsyncObject)
    requires ObjectTarget(s, o).Ok?
    requires ObjectTarget(s, o).value !in MakeDirs(tree, ServerRoot(s, o.server))
    ensures var root := ServerRoot(s, o.server);
            var target := ObjectTarget(s, o).value;
            var dated := Dated(s, MakeDirs(MakeDirs(tree, root), target), root);
            var r := Step(s, transfer, tree, o);
            && |r.events| >= 1 && r.events[0].RunRsync?
            && (dated == {} ==> r.events[0].argv == RsyncArgv(s, SourceArg(s, o), Render(target), o.exclude, None))
            && (dated != {} ==>
                  exists m :: m in dated && (forall x :: x in dated ==> LexLe(x, m))
                              && r.events[0].argv == RsyncArgv(s, SourceArg(s, o), Render(target), o.exclude,
                                                               Some(Render(root) + "/" + m + Render(o.objectName))))
  {
    var root := ServerRoot(s, o.server);
    var target := ObjectTarget(s, o).value;
    var t2 := MakeDirs(MakeDirs(tree, root), target);
    var latest := OldBackupIn(s, t2, root, "latest");
    var argv := ObjectArgv(s, o, target, root, latest);
    var staged := t2 + Transferred(transfer(argv), target);
    assert Step(s, transfer, tree, o) == Prune(s, staged, root, o.server, argv);
    PruneRunsRsyncFirst(s, staged, root, o.server, argv);
    LatestIsGreatestDated(s, t2, root);
  }

  /** Every iteration that gets past the existence check runs rsync
      before anything else, and raises nothing after it. */
  lemma PruneRunsRsyncFirst(s: Settings, staged: Tree, root: FsPath, server: string, argv: seq<string>)
    ensures var r := Prune(s, staged, root, server, argv);
            |r.events| >= 1 && r.events[0] == RunRsync(argv) && r.error.None?
  {
  }

  // ---- the as-written removal ----

  /** `os.remove(path)` on the tree of directories: a directory cannot be
      removed this way and raises IsADirectoryError; any other path leaves
      the directories as they are. */
  function OsRemove(tree: Tree, p: FsPath): (r: Result<Tree>)
    ensures r.Err? <==> p in tree
    ensures r.Err? ==> r.error == IsADirectoryError(Render(p))
    ensures r.Ok? ==> r.value == tree
  {
    if p in tree then Err(IsADirectoryError(Render(p))) else Ok(tree)
  }

  /** The end of one iteration as the script writes it, with os.remove on
      the oldest snapshot. */
  ghost function PruneAsWritten(s: Settings, staged: Tree, root: FsPath, server: string, argv: seq<string>): Outcome
  {
    var oldest := OldBackupIn(s, staged, root, "oldest");
    if oldest.Some? then
      match OsRemove(staged, Child(root, oldest.value))
      case Err(e) => Outcome(staged, [RunRsync(argv)], Some(e))
      case Ok(t) => Outcome(t, [RunRsync(argv), RemovedBackup(server, oldest.value)], None)
    else Outcome(staged, [RunRsync(argv)], None)
  }

  /** Every snapshot __get_old_backup offers for removal is a directory of
      the listing, so the as-written removal raises exactly when the
      retention limit is exceeded: no snapshot is ever removed, and the
      exception ends the run before umount and lock. */
  lemma PruneAsWrittenRaises(s: Settings, staged: Tree, root: FsPath, server: string, argv: seq<string>)
    ensures var before := Dated(s, staged, root);
            var r := PruneAsWritten(s, staged, root, server, argv);
            && (r.error.Some? <==> |before| > 0 && |before| > s.numberOfVersions)
            && r.tree == staged
            && (r.error.Some? ==> r.error.value.IsADirectoryError?)
  {
    OldestIsLeastDated(s, staged, root);
  }

  // ---- the as-written run ----

  /** No snapshot is removed among `events`. */
  predicate NoRemoval(events: seq<Event>)
  {
    forall i :: 0 <= i < |events| ==> !events[i].RemovedBackup?
  }

  lemma NoRemovalConcat(a: seq<Event>, b: seq<Event>)
    ensures NoRemoval(a + b) <==> NoRemoval(a) && NoRemoval(b)
  {
    if NoRemoval(a + b) {
      forall i | 0 <= i < |a| ensures !a[i].RemovedBackup? {
        assert (a + b)[i] == a[i];
      }
      forall j | 0 <= j < |b| ensures !b[j].RemovedBackup? {
        assert (a + b)[|a| + j] == b[j];
      }
    }
  }

  /** `w`, the as-written end of a run whose corrected log is `c`, stops
      with IsADirectoryError exactly where `c` first removes a snapshot:
      its log is the part of `c` before that removal. */
  predicate StopsAtRemoval(c: seq<Event>, w: Outcome)
  {
    && w.error.Some? && w.error.value.IsADirectoryError?
    && NoRemoval(w.events)
    && |w.events| < |c| && w.events == c[..|w.events|] && c[|w.events|].RemovedBackup?
  }

  /** One iteration of the loop in __rsync as written. */
  ghost function StepAsWritten(s: Settings, transfer: seq<string> -> set<FsPath>, tree: Tree, o: RsyncObject): Outcome
  {
    match Stage(s, transfer, tree, o)
    case Finished(out) => out
    case Staged(staged, root, argv) => PruneAsWritten(s, staged, root, o.server, argv)
  }

  /** The loop of __rsync as written over the first objects. */
  ghost function RunAllAsWritten(s: Settings, transfer: seq<string> -> set<FsPath>, tree: Tree, objs: seq<RsyncObject>): Outcome
    decreases |objs|
  {
    if |objs| == 0 then Outcome(tree, [], None)
    else
      var prev := RunAllAsWritten(s, transfer, tree, objs[..|objs| - 1]);
      if prev.error.Some? then prev
      else
        var step := StepAsWritten(s, transfer, prev.tree, objs[|objs| - 1]);
        Outcome(step.tree, prev.events + step.events, step.error)
  }

  /** The two prunes agree when nothing is over the limit; otherwise the
      as-written one raises where the corrected one removes. */
  lemma PruneAsWrittenAgrees(s: Settings, staged: Tree, root: FsPath, server: string, argv: seq<string>)
    ensures var c := Prune(s, staged, root, server, argv);
            var w := PruneAsWritten(s, staged, root, server, argv);
            && (NoRemoval(c.events) ==> w == c)
            && (!NoRemoval(c.events) ==> StopsAtRemoval(c.events, w))
  {
    var c := Prune(s, staged, root, server, argv);
    var w := PruneAsWritten(s, staged, root, server, argv);
    var oldest := OldBackupIn(s, staged, root, "oldest");
    if oldest.Some? {
      var p := Child(root, oldest.value);
      assert p in staged by {
        OldestIsLeastDated(s, staged, root);
      }
      assert w == Outcome(staged, [RunRsync(argv)], Some(IsADirectoryError(Render(p))));
      assert c.events == [RunRsync(argv), RemovedBackup(server, oldest.value)];
      RemovalStops(c.events, w, argv, server, oldest.value);
    } else {
      assert w == c == Outcome(staged, [RunRsync(argv)], None);
    }
  }

  lemma RemovalStops(c: seq<Event>, w: Outcome, argv: seq<string>, server: string, name: string)
    requires c == [RunRsync(argv), RemovedBackup(server, name)]
    requires w.events == [RunRsync(argv)] && w.error.Some? && w.error.value.IsADirectoryError?
    ensures !NoRemoval(c) && StopsAtRemoval(c, w)
  {
    assert c[1].RemovedBackup?;
    assert w.events == c[..1];
  }

  /** The same for a whole iteration. */
  lemma StepAsWrittenAgrees(s: Settings, transfer: seq<string> -> set<FsPath>, tree: Tree, o: RsyncObject)
    ensures var c := Step(s, transfer, tree, o);
            var w := StepAsWritten(s, transfer, tree, o);
            && (NoRemoval(c.events) ==> w == c)
            && (!NoRemoval(c.events) ==> c.error.None? && StopsAtRemoval(c.events, w))
  {
    match Stage(s, transfer, tree, o)
    case Finished(out) =>
    case Staged(staged, root, argv) =>
      PruneAsWrittenAgrees(s, staged, root, o.server, argv);
  }

  /** The loop as written agrees with RunAll up to the first iteration
      that is over the retention limit, and that iteration ends it with
      IsADirectoryError right after its rsync. */
  lemma {:induction false} RunAllAsWrittenAgrees(s: Settings, transfer: seq<string> -> set<FsPath>, tree: Tree,
                                                objs: seq<RsyncObject>)
    ensures var c := RunAll(s, transfer, tree, objs);
            var w := RunAllAsWritten(s, transfer, tree, objs);
            && (NoRemoval(c.events) ==> w == c)
            && (!NoRemoval(c.events) ==> StopsAtRemoval(c.events, w))
    decreases |objs|
  {
    if |objs| > 0 {
      var init := objs[..|objs| - 1];
      var o := objs[|objs| - 1];
      var pc := RunAll(s, transfer, tree, init);
      var pw := RunAllAsWritten(s, transfer, tree, init);
      RunAllAsWrittenAgrees(s, transfer, tree, init);
      if pc.error.None? {
        var sc := Step(s, transfer, pc.tree, o);
        NoRemovalConcat(pc.events, sc.events);
        if NoRemoval(pc.events) {
          assert pw == pc;
          var sw := StepAsWritten(s, transfer, pc.tree, o);
          StepAsWrittenAgrees(s, transfer, pc.tree, o);
          if !NoRemoval(sc.events) {
            StopsAfterPrefix(pc.events, sc.events, sw);
          }
        } else {
          StopsBeforeStep(pc.events, sc.events, pw);
        }
      }
    }
  }

  /** An iteration that stops at its removal, after a prefix without one. */
  lemma StopsAfterPrefix(prefix: seq<Event>, c: seq<Event>, w: Outcome)
    requires NoRemoval(prefix) && StopsAtRemoval(c, w)
    ensures StopsAtRemoval(prefix + c, Outcome(w.tree, prefix + w.events, w.error))
  {
    assert prefix + w.events == (prefix + c)[..|prefix| + |w.events|];
    assert (prefix + c)[|prefix| + |w.events|] == c[|w.events|];
    NoRemovalConcat(prefix, w.events);
  }

  /** A run already stopped stays stopped however the log goes on. */
  lemma StopsBeforeStep(c: seq<Event>, more: seq<Event>, w: Outcome)
    requires StopsAtRemoval(c, w)
    ensures StopsAtRemoval(c + more, w)
  {
    assert w.events == (c + more)[..|w.events|];
    assert (c + more)[|w.events|] == c[|w.events|];
  }

  /** Only the loop's own kinds of event: existing targets, rsync runs,
      removals. */
  predicate IterationEvents(events: seq<Event>)
  {
    forall i :: 0 <= i < |events| ==> events[i].AlreadyExists? || events[i].RunRsync? || events[i].RemovedBackup?
  }

  lemma StepAsWrittenEvents(s: Settings, transfer: seq<string> -> set<FsPath>, tree: Tree, o: RsyncObject)
    ensures IterationEvents(StepAsWritten(s, transfer, tree, o).events)
  {
    match Stage(s, transfer, tree, o)
    case Finished(out) =>
    case Staged(staged, root, argv) =>
  }

  lemma IterationEventsConcat(a: seq<Event>, b: seq<Event>)
    requires IterationEvents(a) && IterationEvents(b)
    ensures IterationEvents(a + b)
  {
    forall i | 0 <= i < |a + b|
      ensures (a + b)[i].AlreadyExists? || (a + b)[i].RunRsync? || (a + b)[i].RemovedBackup?
    {
      if i < |a| { assert (a + b)[i] == a[i]; } else { assert (a + b)[i] == b[i - |a|]; }
    }
  }

  lemma {:induction false} RunAllAsWrittenEvents(s: Settings, transfer: seq<string> -> set<FsPath>, tree: Tree,
                                                objs: seq<RsyncObject>)
    ensures IterationEvents(RunAllAsWritten(s, transfer, tree, objs).events)
    decreases |objs|
  {
    if |objs| > 0 {
      var prev := RunAllAsWritten(s, transfer, tree, objs[..|objs| - 1]);
      RunAllAsWrittenEvents(s, transfer, tree, objs[..|objs| - 1]);
      if prev.error.None? {
        var step := StepAsWritten(s, transfer, prev.tree, objs[|objs| - 1]);
        StepAsWrittenEvents(s, transfer, prev.tree, objs[|objs| - 1]);
        IterationEventsConcat(prev.events, step.events);
      }
    }
  }

  /** RsyncBackup.backup as written, when some object would take a server
      past number_of_versions: the exception from os.remove ends the
      backup after the opening steps and the run up to that object, so
      the umount, the lock and the closing line never happen. */
  lemma BackupAsWrittenSkipsClosing(s: Settings, transfer: seq<string> -> set<FsPath>, tree: Tree,
                                    objs: seq<RsyncObject>, mountedBefore: bool, fstab: Option<seq<string>>,
                                    mountedAfter: bool)
    requires !NoRemoval(RunAll(s, transfer, tree, objs).events)
    ensures var w := RunAllAsWritten(s, transfer, tree, objs);
            var log := BackupEvents(s, w, mountedBefore, fstab, mountedAfter);
            && w.error.Some? && w.error.value.IsADirectoryError?
            && log == Opening(s, mountedBefore, fstab) + w.events
            && forall i :: 0 <= i < |log| ==> !log[i].UmountStep? && !log[i].LockFs? && !log[i].FinishedAll?
  {
    var w := RunAllAsWritten(s, transfer, tree, objs);
    assert w.error.Some? && w.error.value.IsADirectoryError? by {
      RunAllAsWrittenAgrees(s, transfer, tree, objs);
    }
    assert IterationEvents(w.events) by {
      RunAllAsWrittenEvents(s, transfer, tree, objs);
    }
    var opening := Opening(s, mountedBefore, fstab);
    assert BackupEvents(s, w, mountedBefore, fstab, mountedAfter) == opening + w.events;
    OpeningIsOpening(s, mountedBefore, fstab);
    NoClosingStep(opening, w.events);
  }

  lemma OpeningIsOpening(s: Settings, mountedBefore: bool, fstab: Option<seq<string>>)
    ensures var r := Opening(s, mountedBefore, fstab);
            forall i :: 0 <= i < |r| ==> r[i].StartBackup? || r[i].UnlockFs? || r[i].MountStep?
  {
  }

  lemma NoClosingStep(opening: seq<Event>, run: seq<Event>)
    requires forall i :: 0 <= i < |opening| ==> opening[i].StartBackup? || opening[i].UnlockFs? || opening[i].MountStep?
    requires IterationEvents(run)
    ensures var log := opening + run;
            forall i :: 0 <= i < |log| ==> !log[i].UmountStep? && !log[i].LockFs? && !log[i].FinishedAll?
  {
    var log := opening + run;
    forall i | 0 <= i < |log| ensures !log[i].UmountStep? && !log[i].LockFs? && !log[i].FinishedAll? {
      if i < |opening| { assert log[i] == opening[i]; } else { assert log[i] == run[i - |opening|]; }
    }
  }

  // ---- a second run on the same day ----

  /** A name pathlib keeps as one part: not empty, not ".", no slash. */
  predicate PlainName(x: string)
  {
    |x| > 0 && x != "." && '/' !in x
  }

  lemma PlainNamePath(x: string)
    requires PlainName(x)
    ensures ParsePath(x) == FsPath(false, [x])
  {
    SplitOnPrefix(x, "", '/');
    assert x + "" == x;
    assert SplitOn(x, '/') == [x];
    assert PathParts([x]) == [x] + PathParts([]);
  }

  /** With plain server and date names, the target of an object is
      location/server/date/object. */
  lemma TargetShape(s: Settings, o: RsyncObject)
    requires PlainName(s.backupDate) && PlainName(o.server) && o.objectName.absolute
    ensures ServerRoot(s, o.server) == Child(ParsePath(s.backupLocation), o.server)
    ensures var loc := ParsePath(s.backupLocation);
            ObjectTarget(s, o) == Ok(FsPath(loc.absolute, loc.parts + [o.server, s.backupDate] + o.objectName.parts))
  {
    PlainNamePath(o.server);
    PlainNamePath(s.backupDate);
    var loc := ParsePath(s.backupLocation);
    assert loc.parts + [o.server] + [s.backupDate] + o.objectName.parts
        == loc.parts + [o.server, s.backupDate] + o.objectName.parts;
  }

  /** The object's server root and its dated target are on the tree. */
  predicate Captured(s: Settings, tree: Tree, o: RsyncObject)
  {
    && ObjectTarget(s, o).Ok?
    && Ancestors(ServerRoot(s, o.server)) <= tree
    && ObjectTarget(s, o).value in tree
  }

  /** An object whose target is on the tree is only reported. */
  lemma StepOnCaptured(s: Settings, transfer: seq<string> -> set<FsPath>, tree: Tree, o: RsyncObject)
    requires Captured(s, tree, o)
    ensures Step(s, transfer, tree, o) == Outcome(tree, [AlreadyExists(ObjectTarget(s, o).value)], None)
  {
    assert MakeDirs(tree, ServerRoot(s, o.server)) == tree;
  }

  /** Removing the snapshot `date` of one server root keeps every path of
      the form location/server2 and location/server2/today/... for
      another date `today`. */
  lemma RemovalSparesToday(loc: FsPath, server: string, date: string, server2: string, today: string, rest: seq<string>)
    requires date != today
    ensures var removed := FsPath(loc.absolute, loc.parts + [server, date]);
            && !Under(removed, FsPath(loc.absolute, loc.parts + [server2, today] + rest))
            && forall q :: q in Ancestors(Child(loc, server2)) ==> !Under(removed, q)
  {
    var removed := FsPath(loc.absolute, loc.parts + [server, date]);
    var t := FsPath(loc.absolute, loc.parts + [server2, today] + rest);
    assert t.parts[|loc.parts| + 1] == today;
    assert |removed.parts| <= |t.parts| ==> t.parts[..|removed.parts|][|loc.parts| + 1] == today;
  }

  /** Whatever one iteration for `o` leaves behind still holds the server
      root and today's target of every object it held before, and of `o`
      itself. */
  lemma StepCaptures(s: Settings, tree: Tree, o: RsyncObject, o2: RsyncObject,
                     staged: Tree, removed: Option<string>, after: Tree)
    requires PlainName(s.backupDate) && PlainName(o.server) && PlainName(o2.server)
    requires ObjectTarget(s, o).Ok?
    requires tree <= staged && Ancestors(ServerRoot(s, o.server)) <= staged && ObjectTarget(s, o).value in staged
    requires removed.None? ==> after == staged
    requires removed.Some? ==> removed.value != s.backupDate
                               && after == RemoveEntry(staged, Child(ServerRoot(s, o.server), removed.value))
    requires Captured(s, tree, o2) || o2 == o
    ensures Captured(s, after, o2)
  {
    var root := ServerRoot(s, o.server);
    var root2 := ServerRoot(s, o2.server);
    var target2 := ObjectTarget(s, o2).value;
    assert Ancestors(root2) <= staged && target2 in staged;
    if removed.Some? {
      var gone := Child(root, removed.value);
      var loc := ParsePath(s.backupLocation);
      TargetShape(s, o);
      TargetShape(s, o2);
      RemovalSparesToday(loc, o.server, removed.value, o2.server, s.backupDate, o2.objectName.parts);
      assert gone == FsPath(loc.absolute, loc.parts + [o.server, removed.value]);
    }
  }

  /** The tree after one iteration that gets past the object's name: a
      tree holding the old one, the server root and the target, possibly
      with one snapshot other than today's removed. */
  lemma StepTreeCases(s: Settings, transfer: seq<string> -> set<FsPath>, tree: Tree, o: RsyncObject)
    returns (staged: Tree, removed: Option<string>)
    requires ObjectTarget(s, o).Ok?
    ensures tree <= staged && Ancestors(ServerRoot(s, o.server)) <= staged && ObjectTarget(s, o).value in staged
    ensures removed.None? ==> Step(s, transfer, tree, o).tree == staged
    ensures removed.Some? ==> removed.value != s.backupDate
                              && Step(s, transfer, tree, o).tree == RemoveEntry(staged, Child(ServerRoot(s, o.server), removed.value))
  {
    var root := ServerRoot(s, o.server);
    var t1 := MakeDirs(tree, root);
    var target := ObjectTarget(s, o).value;
    if target in t1 {
      staged, removed := t1, None;
    } else {
      var t2 := MakeDirs(t1, target);
      var argv := ObjectArgv(s, o, target, root, OldBackupIn(s, t2, root, "latest"));
      staged := t2 + Transferred(transfer(argv), target);
      assert Step(s, transfer, tree, o) == Prune(s, staged, root, o.server, argv);
      removed := OldBackupIn(s, staged, root, "oldest");
    }
  }


  /** A run that does not raise leaves every object captured. */
  lemma {:induction false} RunCaptures(s: Settings, transfer: seq<string> -> set<FsPath>, tree: Tree, objs: seq<RsyncObject>)
    requires PlainName(s.backupDate)
    requires forall k :: 0 <= k < |objs| ==> PlainName(objs[k].server)
    requires RunAll(s, transfer, tree, objs).error.None?
    ensures forall k :: 0 <= k < |objs| ==> Captured(s, RunAll(s, transfer, tree, objs).tree, objs[k])
    decreases |objs|
  {
    if |objs| > 0 {
      var init := objs[..|objs| - 1];
      var last := objs[|objs| - 1];
      var prev := RunAll(s, transfer, tree, init);
      assert prev.error.None?;
      RunCaptures(s, transfer, tree, init);
      assert ObjectTarget(s, last).Ok?;
      var staged, removed := StepTreeCases(s, transfer, prev.tree, last);
      var after := RunAll(s, transfer, tree, objs).tree;
      assert after == Step(s, transfer, prev.tree, last).tree;
      forall k | 0 <= k < |objs|
        ensures Captured(s, after, objs[k])
      {
        if k < |objs| - 1 {
          assert objs[k] == init[k];
        }
        StepCaptures(s, prev.tree, last, objs[k], staged, removed, after);
      }
    }
  }

  /** Every object of the list is captured, stated object by object from
      the end. */
  predicate AllCaptured(s: Settings, tree: Tree, objs: seq<RsyncObject>)
    decreases |objs|
  {
    |objs| == 0 || (AllCaptured(s, tree, objs[..|objs| - 1]) && Captured(s, tree, objs[|objs| - 1]))
  }

  lemma {:induction false} AllCapturedEach(s: Settings, tree: Tree, objs: seq<RsyncObject>)
    ensures AllCaptured(s, tree, objs) <==> forall k :: 0 <= k < |objs| ==> Captured(s, tree, objs[k])
    decreases |objs|
  {
    if |objs| > 0 {
      var init := objs[..|objs| - 1];
      AllCapturedEach(s, tree, init);
      assert forall k :: 0 <= k < |init| ==> init[k] == objs[k];
    }
  }

  /** The lines a run over captured objects reports: "already exists" for
      each target, in object order. */
  function Skips(s: Settings, tree: Tree, objs: seq<RsyncObject>): (r: seq<Event>)
    requires AllCaptured(s, tree, objs)
    ensures |r| == |objs|
    decreases |objs|
  {
    if |objs| == 0 then []
    else Skips(s, tree, objs[..|objs| - 1]) + [AlreadyExists(ObjectTarget(s, objs[|objs| - 1]).value)]
  }

  lemma {:induction false} SkipsEach(s: Settings, tree: Tree, objs: seq<RsyncObject>)
    requires AllCaptured(s, tree, objs)
    ensures forall k :: 0 <= k < |objs| ==>
              ObjectTarget(s, objs[k]).Ok? && Skips(s, tree, objs)[k] == AlreadyExists(ObjectTarget(s, objs[k]).value)
    decreases |objs|
  {
    if |objs| > 0 {
      var init := objs[..|objs| - 1];
      var prev := Skips(s, tree, init);
      var line := AlreadyExists(ObjectTarget(s, objs[|objs| - 1]).value);
      assert Skips(s, tree, objs) == prev + [line];
      SkipsEach(s, tree, init);
      forall k | 0 <= k < |objs|
        ensures ObjectTarget(s, objs[k]).Ok? && Skips(s, tree, objs)[k] == AlreadyExists(ObjectTarget(s, objs[k]).value)
      {
        if k < |init| {
          assert init[k] == objs[k] && (prev + [line])[k] == prev[k];
        }
      }
    }
  }

  /** An object that is only reported adds its line to a run that did not
      raise and leaves the tree alone. */
  lemma RunAfterSkip(s: Settings, transfer: seq<string> -> set<FsPath>, tree: Tree, objs: seq<RsyncObject>)
    requires |objs| > 0
    requires RunAll(s, transfer, tree, objs[..|objs| - 1]).error.None?
    requires Captured(s, RunAll(s, transfer, tree, objs[..|objs| - 1]).tree, objs[|objs| - 1])
    ensures var prev := RunAll(s, transfer, tree, objs[..|objs| - 1]);
            RunAll(s, transfer, tree, objs)
            == Outcome(prev.tree, prev.events + [AlreadyExists(ObjectTarget(s, objs[|objs| - 1]).value)], None)
  {
    StepOnCaptured(s, transfer, RunAll(s, transfer, tree, objs[..|objs| - 1]).tree, objs[|objs| - 1]);
  }

  /** A run over captured objects changes nothing, raises nothing and
      reports each target as existing, in object order. */
  lemma {:induction false} RunOnCaptured(s: Settings, transfer: seq<string> -> set<FsPath>, tree: Tree, objs: seq<RsyncObject>)
    requires AllCaptured(s, tree, objs)
    ensures RunAll(s, transfer, tree, objs) == Outcome(tree, Skips(s, tree, objs), None)
    decreases |objs|
  {
    if |objs| > 0 {
      RunOnCaptured(s, transfer, tree, objs[..|objs| - 1]);
      RunAfterSkip(s, transfer, tree, objs);
    }
  }

  /** Running the backup twice on the same day: when the first run does
      not raise, the second changes no directory, raises nothing and only
      reports, for each object, that its target already exists. */
  lemma SameDayRerunOnlySkips(s: Settings, transfer1: seq<string> -> set<FsPath>, transfer2: seq<string> -> set<FsPath>,
                              tree: Tree, objs: seq<RsyncObject>)
    requires PlainName(s.backupDate)
    requires forall k :: 0 <= k < |objs| ==> PlainName(objs[k].server)
    requires RunAll(s, transfer1, tree, objs).error.None?
    ensures var first := RunAll(s, transfer1, tree, objs);
            var second := RunAll(s, transfer2, first.tree, objs);
            && second.tree == first.tree && second.error.None? && |second.events| == |objs|
            && forall k :: 0 <= k < |objs| ==> second.events[k].AlreadyExists?
  {
    var first := RunAll(s, transfer1, tree, objs);
    RunCaptures(s, transfer1, tree, objs);
    AllCapturedEach(s, first.tree, objs);
    RunOnCaptured(s, transfer2, first.tree, objs);
    SkipsEach(s, first.tree, objs);
  }
}
