/** mount_manager.py: which command MountManager.mount and umount issue,
    given whether the mount point is mounted and the lines of /etc/fstab. */
module Mounts {
  import opened PyBase
  import SupportMethods

  /** The settings a MountManager is constructed with; the object never
      changes them. Falsy values (None, "", port 0, secure None) mean "not
      given", as in the source's `if` tests. */
  datatype MountManager = MountManager(
    mountPoint: string,
    mountType: Option<string>,
    device: Option<string>,
    remotePath: Option<string>,
    server: Option<string>,
    user: Option<string>,
    password: Option<string>,
    credentialFile: Option<string>,
    port: Option<int>,
    secure: bool)

  /** A manager for a mount point with every other setting left at None. */
  function ForMountPoint(mountPoint: string): MountManager
  {
    MountManager(mountPoint, None, None, None, None, None, None, None, None, false)
  }

  /** What one call does: nothing (with a log line), run one command, or
      raise. */
  datatype MountOutcome =
    | AlreadyMounted
    | NotMounted
    | NotInFstab
    | Run(argv: seq<string>)
    | Raised(error: PyError)

  predicate PortGiven(port: Option<int>)
  {
    port.Some? && port.value != 0
  }

  /** The leading run of non-whitespace characters of `s`. */
  function Word(s: string): (w: string)
    ensures |w| <= |s| && w == s[..|w|]
    ensures forall k :: 0 <= k < |w| ==> !IsSpace(w[k])
    ensures |w| < |s| ==> IsSpace(s[|w|])
    decreases |s|
  {
    if |s| == 0 || IsSpace(s[0]) then "" else [s[0]] + Word(s[1..])
  }

  /** `s.split()`: the maximal runs of non-whitespace characters, in order. */
  function Fields(s: string): (r: seq<string>)
    ensures forall k :: 0 <= k < |r| ==> |r[k]| > 0
    ensures forall k :: 0 <= k < |r| ==> Contains(s, r[k])
    decreases |s|
  {
    if |s| == 0 then []
    else if IsSpace(s[0]) then
      var rest := Fields(s[1..]);
      ContainsInTail(s, rest);
      rest
    else
      var w := Word(s);
      var rest := Fields(s[|w|..]);
      ContainsInTail(s[|w| - 1..], rest);
      ContainsInSuffix(s, |w| - 1, rest);
      assert OccursAt(s, w, 0);
      [w] + rest
  }

  /** What is contained in `s[1..]` is contained in `s`. */
  lemma ContainsInTail(s: string, parts: seq<string>)
    requires |s| > 0
    requires forall k :: 0 <= k < |parts| ==> Contains(s[1..], parts[k])
    ensures forall k :: 0 <= k < |parts| ==> Contains(s, parts[k])
  {
    forall k | 0 <= k < |parts| ensures Contains(s, parts[k]) {
      var i :| OccursAt(s[1..], parts[k], i);
      assert s[1..][i..i + |parts[k]|] == s[i + 1..i + 1 + |parts[k]|];
      assert OccursAt(s, parts[k], i + 1);
    }
  }

  /** What is contained in `s[j..]` is contained in `s`. */
  lemma {:induction false} ContainsInSuffix(s: string, j: nat, parts: seq<string>)
    requires j <= |s|
    requires forall k :: 0 <= k < |parts| ==> Contains(s[j..], parts[k])
    ensures forall k :: 0 <= k < |parts| ==> Contains(s, parts[k])
    decreases j
  {
    if j > 0 {
      ContainsInTail(s[j - 1..], parts);
      ContainsInSuffix(s, j - 1, parts);
    } else {
      assert s[j..] == s;
    }
  }

  /** The line is an fstab entry whose second column is the mount point. */
  predicate EntryFor(line: string, mountPoint: string)
  {
    var f := Fields(line);
    |f| > 1 && f[1] == mountPoint
  }

  /** MountManager.__is_in_fstab: some line splits into at least two
      whitespace-separated fields and its second field is the mount point;
      an unreadable /etc/fstab (None) counts as "not in fstab". */
  function InFstab(fstab: Option<seq<string>>, mountPoint: string): (r: bool)
    ensures r <==> fstab.Some? && exists k :: 0 <= k < |fstab.value| && EntryFor(fstab.value[k], mountPoint)
  {
    fstab.Some? && AnyEntryFor(fstab.value, mountPoint)
  }

  function AnyEntryFor(lines: seq<string>, mountPoint: string): (r: bool)
    ensures r <==> exists k :: 0 <= k < |lines| && EntryFor(lines[k], mountPoint)
    decreases |lines|
  {
    if |lines| == 0 then false
    else if EntryFor(lines[0], mountPoint) then true
    else
      var r := AnyEntryFor(lines[1..], mountPoint);
      assert forall k :: 1 <= k < |lines| ==> lines[k] == lines[1..][k - 1];
      r
  }

  /** The option string of a CIFS mount, or None when neither a credential
      file nor a user with a password is given. */
  function CifsOptions(m: MountManager): Option<string>
  {
    var auth :=
      if Truthy(m.credentialFile) then Some("credentials=" + m.credentialFile.value)
      else if Truthy(m.user) && Truthy(m.password) then Some("user=" + m.user.value + ",pass=" + m.password.value)
      else None;
    match auth
    case None => None
    case Some(a) => Some(Join([a] + (if m.secure then ["seal"] else []), ","))
  }

  /** MountManager.mount. */
  function Mount(m: MountManager, isMounted: bool, fstab: Option<seq<string>>): (r: MountOutcome)
    ensures isMounted <==> r == AlreadyMounted
    ensures r.Run? ==> |r.argv| >= 2 && r.argv[|r.argv| - 1] == m.mountPoint
    ensures r.Run? ==> r.argv[0] in {"mount", "sshfs", "mount.cifs"}
    ensures r.Raised? ==> r.error.ValueError? && Truthy(m.mountType)
    ensures r == NotInFstab ==> !Truthy(m.device) && !Truthy(m.mountType) && !InFstab(fstab, m.mountPoint)
  {
    if isMounted then AlreadyMounted
    else if !Truthy(m.device) && !Truthy(m.mountType) then
      if InFstab(fstab, m.mountPoint) then Run(["mount", m.mountPoint]) else NotInFstab
    else if !Truthy(m.mountType) then
      Run(["mount", m.device.value, m.mountPoint])
    else if m.mountType.value == "sshfs" then
      if !(Truthy(m.server) && Truthy(m.user)) then Raised(ValueError("Missing required arguments for sshfs"))
      else
        Run(["sshfs"]
            + (if PortGiven(m.port) then ["-p", IntToString(m.port.value)] else [])
            + [m.user.value + "@" + m.server.value + ":" + Show(m.remotePath), m.mountPoint])
    else if m.mountType.value == "nfs" then
      Run(["mount", Show(m.server) + ":" + Show(m.remotePath), m.mountPoint])
    else if m.mountType.value == "cifs" then
      match CifsOptions(m)
      case None => Raised(ValueError("No username/password or credential file provided."))
      case Some(options) =>
        Run(["mount.cifs", "-o", options, "//" + Show(m.server) + Show(m.remotePath), m.mountPoint])
    else Raised(ValueError("Unsupported mount type: " + m.mountType.value))
  }

  /** MountManager.umount. */
  function Umount(m: MountManager, isMounted: bool): (r: MountOutcome)
    ensures !isMounted <==> r == NotMounted
    ensures isMounted ==> r.Run? && |r.argv| == 3 && r.argv[0] == "umount" && r.argv[1] == "-f"
                          && r.argv[|r.argv| - 1] == m.mountPoint
  {
    if !isMounted then NotMounted else Run(["umount", "-f", m.mountPoint])
  }

  // ---- properties ----

  /** Without a device and a type the only command is `mount <mp>`, issued
      exactly when fstab has an entry for the mount point. */
  lemma {:induction false} MountFromFstab(m: MountManager, fstab: Option<seq<string>>)
    requires !Truthy(m.device) && !Truthy(m.mountType)
    ensures Mount(m, false, fstab) == (if InFstab(fstab, m.mountPoint) then Run(["mount", m.mountPoint]) else NotInFstab)
    ensures !Mount(m, false, fstab).Raised?
  {
  }

  /** A device without a type is mounted directly, whatever fstab says. */
  lemma MountDevice(m: MountManager, fstab: Option<seq<string>>)
    requires Truthy(m.device) && !Truthy(m.mountType)
    ensures Mount(m, false, fstab) == Run(["mount", m.device.value, m.mountPoint])
  {
  }

  /** sshfs needs both a server and a user; the port flag comes first and
      only when a port is set. */
  lemma MountSshfs(m: MountManager, fstab: Option<seq<string>>)
    requires m.mountType == Some("sshfs")
    ensures Mount(m, false, fstab).Raised? <==> !(Truthy(m.server) && Truthy(m.user))
    ensures Mount(m, false, fstab).Run? ==>
              var argv := Mount(m, false, fstab).argv;
              && argv[0] == "sshfs"
              && |argv| == (if PortGiven(m.port) then 5 else 3)
              && (PortGiven(m.port) ==> argv[1] == "-p" && argv[2] == IntToString(m.port.value))
              && argv[|argv| - 2] == m.user.value + "@" + m.server.value + ":" + Show(m.remotePath)
              && argv[|argv| - 1] == m.mountPoint
  {
  }

  /** nfs always mounts `server:remote_path`. */
  lemma MountNfs(m: MountManager, fstab: Option<seq<string>>)
    requires m.mountType == Some("nfs")
    ensures Mount(m, false, fstab) == Run(["mount", Show(m.server) + ":" + Show(m.remotePath), m.mountPoint])
  {
  }

  /** cifs: a credential file wins over user and password, one of the two
      is required, `seal` is added exactly when secure, and the share is
      `//server` followed by the remote path. */
  lemma MountCifs(m: MountManager, fstab: Option<seq<string>>)
    requires m.mountType == Some("cifs")
    ensures Mount(m, false, fstab).Raised? <==> !Truthy(m.credentialFile) && !(Truthy(m.user) && Truthy(m.password))
    ensures Truthy(m.credentialFile) ==>
              Mount(m, false, fstab) == Run(["mount.cifs", "-o",
                "credentials=" + m.credentialFile.value + (if m.secure then ",seal" else ""),
                "//" + Show(m.server) + Show(m.remotePath), m.mountPoint])
    ensures !Truthy(m.credentialFile) && Truthy(m.user) && Truthy(m.password) ==>
              Mount(m, false, fstab) == Run(["mount.cifs", "-o",
                "user=" + m.user.value + ",pass=" + m.password.value + (if m.secure then ",seal" else ""),
                "//" + Show(m.server) + Show(m.remotePath), m.mountPoint])
  {
    if Truthy(m.credentialFile) || (Truthy(m.user) && Truthy(m.password)) {
      var a :=
        if Truthy(m.credentialFile) then "credentials=" + m.credentialFile.value
        else "user=" + m.user.value + ",pass=" + m.password.value;
      assert Join([a], ",") == a;
      assert Join([a, "seal"], ",") == a + "," + Join(["seal"], ",") == a + ",seal";
      if m.secure {
        assert [a] + ["seal"] == [a, "seal"];
        assert CifsOptions(m) == Some(Join([a, "seal"], ","));
      } else {
        assert [a] + [] == [a];
        assert CifsOptions(m) == Some(a);
        assert a + "" == a;
      }
    }
  }

  /** Any other truthy type raises a ValueError. */
  lemma MountUnsupported(m: MountManager, fstab: Option<seq<string>>)
    requires Truthy(m.mountType) && m.mountType.value !in {"sshfs", "nfs", "cifs"}
    ensures Mount(m, false, fstab) == Raised(ValueError("Unsupported mount type: " + m.mountType.value))
  {
  }

  /** The column test of mount_manager.py is stricter than the substring
      test of support_methods.py: every line it accepts mentions the mount
      point. */
  lemma {:induction false} FstabEntryImpliesMention(lines: seq<string>, mountPoint: string)
    ensures InFstab(Some(lines), mountPoint) ==> SupportMethods.IsInFstab(lines, mountPoint)
  {
    if InFstab(Some(lines), mountPoint) {
      var k :| 0 <= k < |lines| && EntryFor(lines[k], mountPoint);
      assert Contains(lines[k], Fields(lines[k])[1]);
    }
  }

  lemma {:induction false} WordOfPrefix(a: string, t: string)
    requires forall k :: 0 <= k < |a| ==> !IsSpace(a[k])
    requires t == "" || IsSpace(t[0])
    ensures Word(a + t) == a
    decreases |a|
  {
    if |a| > 0 {
      assert (a + t)[1..] == a[1..] + t;
      WordOfPrefix(a[1..], t);
      assert a == [a[0]] + a[1..];
    } else {
      assert a + t == t;
    }
  }

  /** A line of two words with one whitespace character between them
      splits into those two words. */
  lemma {:induction false} FieldsOfTwoWords(a: string, sp: char, b: string)
    requires |a| > 0 && |b| > 0 && IsSpace(sp)
    requires forall k :: 0 <= k < |a| ==> !IsSpace(a[k])
    requires forall k :: 0 <= k < |b| ==> !IsSpace(b[k])
    ensures Fields(a + [sp] + b) == [a, b]
  {
    var line := a + [sp] + b;
    WordOfPrefix(a, [sp] + b);
    assert line == a + ([sp] + b);
    assert line[|a|..] == [sp] + b;
    assert ([sp] + b)[1..] == b;
    WordOfPrefix(b, "");
    assert b + "" == b;
    assert b[|b|..] == "";
    assert Fields(b) == [b] + Fields("");
    assert Fields([sp] + b) == Fields(b);
    assert Fields(line) == [a] + Fields(line[|a|..]);
  }

  /** The columns of an fstab line may be separated by any character
      str.isspace() accepts, a no-break space among them. */
  lemma NoBreakSpaceSeparatesColumns(device: string, mountPoint: string)
    requires |device| > 0 && |mountPoint| > 0
    requires forall k :: 0 <= k < |device| ==> !IsSpace(device[k])
    requires forall k :: 0 <= k < |mountPoint| ==> !IsSpace(mountPoint[k])
    ensures InFstab(Some([device + "\U{A0}" + mountPoint]), mountPoint)
  {
    var line := device + "\U{A0}" + mountPoint;
    FieldsOfTwoWords(device, '\U{A0}', mountPoint);
    assert line == device + ['\U{A0}'] + mountPoint;
    assert [line][0] == line;
  }

  /** The converse fails: a line `device mp+x` (for instance
      "/dev/sdb1 /mnt/data" for the mount point "/mnt") mentions the mount
      point as part of another column; the substring test finds it and the
      column test does not. */
  lemma {:induction false} MentionDoesNotImplyEntry(device: string, mountPoint: string, x: string)
    requires |device| > 0 && |mountPoint| > 0 && |x| > 0
    requires forall k :: 0 <= k < |device| ==> !IsSpace(device[k])
    requires forall k :: 0 <= k < |mountPoint| ==> !IsSpace(mountPoint[k])
    requires forall k :: 0 <= k < |x| ==> !IsSpace(x[k])
    ensures !InFstab(Some([device + " " + mountPoint + x]), mountPoint)
    ensures SupportMethods.IsInFstab([device + " " + mountPoint + x], mountPoint)
  {
    var column := mountPoint + x;
    var line := device + " " + column;
    assert line == device + " " + mountPoint + x;
    assert forall k :: 0 <= k < |column| ==> !IsSpace(column[k]);
    FieldsOfTwoWords(device, ' ', column);
    assert device + [' '] + column == line;
    assert |column| != |mountPoint|;
    assert !EntryFor(line, mountPoint);
    assert [line][0] == line;
    assert line[|device| + 1..|device| + 1 + |mountPoint|] == mountPoint;
    assert OccursAt(line, mountPoint, |device| + 1);
    assert Contains(line, mountPoint);
  }
}
