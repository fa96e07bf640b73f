/** check_services.py: the settings CheckServices derives from its
    arguments and configuration, the host list and its filter, the
    commands it sends over SSH in each mode, and the colouring of statuses
    and host names. The SSH client is reduced to the log of what it is
    asked to do; what the remote side answers is a parameter. */
module ServiceCheck {
  import opened PyBase

  // ---- configuration ----

  /** One entry of `hosts`; each key None when missing. */
  datatype HostConfig = HostConfig(services: Option<seq<string>>, custom: Option<seq<string>>)

  /** The parsed configuration file. */
  datatype ServicesConfig = ServicesConfig(
    user: Option<string>,
    genericServices: Option<seq<string>>,
    hosts: seq<(string, HostConfig)>)

  /** The constructor's keyword arguments (None where the caller passed
      None). */
  datatype Options = Options(
    user: Option<string>,
    dryrun: bool,
    short: bool,
    error: bool,
    shortError: bool,
    lines: Option<string>,
    hostname: Option<string>,
    customOnly: bool,
    noCustom: bool)

  datatype Settings = Settings(
    user: string,
    sudo: bool,
    lines: string,
    dryrun: bool,
    short: bool,
    error: bool,
    shortError: bool,
    hostname: Option<string>,
    customOnly: bool,
    noCustom: bool)

  /** A Hosts object. */
  datatype Host = Host(hostname: string, services: seq<string>, custom: seq<string>)

  const DefaultUser := "root"
  const DefaultLines := "5"

  function OrEmpty(o: Option<seq<string>>): (r: seq<string>)
    ensures o.Some? ==> r == o.value
    ensures o.None? ==> r == []
  {
    if o.Some? then o.value else []
  }

  /** The user: the command-line argument, else the configured user, else
      root. */
  function UserFor(config: ServicesConfig, opts: Options): (u: string)
    ensures opts.user.Some? ==> u == opts.user.value
    ensures opts.user.None? && config.user.Some? ==> u == config.user.value
    ensures opts.user.None? && config.user.None? ==> u == DefaultUser
  {
    if opts.user.Some? then opts.user.value else if config.user.Some? then config.user.value else DefaultUser
  }

  /** The scalar settings of the constructor. */
  function SettingsFor(config: ServicesConfig, opts: Options): (r: Settings)
    ensures r.user == UserFor(config, opts)
    ensures r.sudo <==> r.user != "root"
    ensures r.lines == (if opts.lines.Some? then opts.lines.value else DefaultLines)
    ensures r.hostname == opts.hostname && r.dryrun == opts.dryrun
    ensures r.short == opts.short && r.error == opts.error && r.shortError == opts.shortError
    ensures r.customOnly == opts.customOnly && r.noCustom == opts.noCustom
  {
    var user := UserFor(config, opts);
    Settings(user, user != "root", if opts.lines.Some? then opts.lines.value else DefaultLines,
             opts.dryrun, opts.short, opts.error, opts.shortError, opts.hostname, opts.customOnly, opts.noCustom)
  }

  /** The host list comprehension. */
  function HostsFor(config: ServicesConfig): (r: seq<Host>)
    ensures |r| == |config.hosts|
    ensures forall k :: 0 <= k < |r| ==>
              r[k] == Host(config.hosts[k].0, OrEmpty(config.genericServices) + OrEmpty(config.hosts[k].1.services),
                           OrEmpty(config.hosts[k].1.custom))
  {
    seq(|config.hosts|, k requires 0 <= k < |config.hosts| =>
      Host(config.hosts[k].0, OrEmpty(config.genericServices) + OrEmpty(config.hosts[k].1.services),
           OrEmpty(config.hosts[k].1.custom)))
  }

  /** Every host checks the generic services first, in their configured
      order, then its own. */
  lemma GenericServicesFirst(config: ServicesConfig, k: nat, j: nat)
    requires k < |config.hosts| && j < |OrEmpty(config.genericServices)|
    ensures |OrEmpty(config.genericServices)| <= |HostsFor(config)[k].services|
    ensures HostsFor(config)[k].services[j] == OrEmpty(config.genericServices)[j]
  {
  }

  /** The host filter of `check`. */
  function HostsToCheck(hosts: seq<Host>, hostname: Option<string>): (r: seq<Host>)
    ensures hostname.None? ==> r == hosts
    ensures |r| <= |hosts|
    decreases |hosts|
  {
    if hostname.None? || |hosts| == 0 then hosts
    else
      var rest := HostsToCheck(hosts[..|hosts| - 1], hostname);
      var last := hosts[|hosts| - 1];
      if last.hostname == hostname.value then rest + [last] else rest
  }

  /** With a name given, the filter keeps exactly the hosts of that
      name. */
  lemma {:induction false} HostsToCheckSpec(hosts: seq<Host>, name: string)
    ensures forall h :: h in HostsToCheck(hosts, Some(name)) <==> h in hosts && h.hostname == name
    decreases |hosts|
  {
    if |hosts| > 0 {
      var n := |hosts| - 1;
      HostsToCheckSpec(hosts[..n], name);
      assert forall h :: h in hosts <==> h in hosts[..n] || h == hosts[n] by {
        assert hosts == hosts[..n] + [hosts[n]];
      }
    }
  }

  /** The filter keeps the configured order: the hosts it keeps are a
      subsequence of the host list. */
  lemma {:induction false} FilterKeepsOrder(hosts: seq<Host>, name: string, i: nat, j: nat)
    requires i < j < |HostsToCheck(hosts, Some(name))|
    ensures exists a, b :: 0 <= a < b < |hosts| && hosts[a] == HostsToCheck(hosts, Some(name))[i]
                                                && hosts[b] == HostsToCheck(hosts, Some(name))[j]
    decreases |hosts|
  {
    var n := |hosts| - 1;
    var rest := HostsToCheck(hosts[..n], Some(name));
    var r := HostsToCheck(hosts, Some(name));
    if hosts[n].hostname == name && j == |r| - 1 {
      assert r[i] == rest[i];
      HostsToCheckSpec(hosts[..n], name);
      assert rest[i] in hosts[..n];
      var a :| 0 <= a < n && hosts[..n][a] == rest[i];
      assert hosts[a] == r[i] && hosts[n] == r[j];
    } else {
      assert r[i] == rest[i] && r[j] == rest[j];
      FilterKeepsOrder(hosts[..n], name, i, j);
      var a, b :| 0 <= a < b < n && hosts[..n][a] == rest[i] && hosts[..n][b] == rest[j];
      assert hosts[a] == r[i] && hosts[b] == r[j];
    }
  }

  // ---- commands ----

  const Systemctl := "/usr/bin/systemctl"
  /** "/usr/bin/systemctl status ", written word by word. */
  const SystemctlStatus := Systemctl + " " + "status" + " "
  const SystemctlIsActive := "/usr/bin/systemctl is-active "
  const JournalctlLines := "/usr/bin/journalctl -n"

  /** __check_default's command. */
  function StatusListCmd(sudo: bool, services: seq<string>): (r: string)
  {
    if sudo then "sudo " + SystemctlStatus + Join(services, " ") else SystemctlStatus + Join(services, " ")
  }

  /** __get_service_status's command. */
  function StatusCmd(sudo: bool, service: string): (r: string)
  {
    if sudo then "sudo " + SystemctlIsActive + service else SystemctlIsActive + service
  }

  /** __check_short's journal command for a failed service. */
  function JournalCmd(sudo: bool, lines: string, service: string): (r: string)
  {
    if sudo then "sudo " + JournalctlLines + lines + " -u " + service else JournalctlLines + lines + " -u " + service
  }

  /** __check_custom: "sudo" is glued to the command with no separator. */
  function CustomCmd(sudo: bool, cmd: string): (r: string)
    ensures sudo ==> r == "sudo" + cmd
    ensures !sudo ==> r == cmd
  {
    if sudo then "sudo" + cmd else cmd
  }

  /** With sudo, "sudo" becomes part of the command's first word unless
      the command starts with a space: "ls" becomes "sudols". */
  lemma CustomCmdGluesSudo(cmd: string)
    requires |cmd| > 0
    ensures SplitOn(CustomCmd(true, cmd), ' ')[0] == "sudo" <==> cmd[0] == ' '
    ensures CustomCmd(true, "ls") == "sudols"
  {
    SplitOnPrefix("sudo", cmd, ' ');
    var first := SplitOn(cmd, ' ')[0];
    assert cmd[0] == ' ' ==> first == "";
    assert cmd[0] != ' ' ==> |first| > 0;
  }

  const FqdnCmd := "hostname"
  const DistroCmd := "grep ^ID= /etc/os-release | awk -F= '{print $2}' | tr -d '\"'"

  /** The status command splits on spaces back into the words of the
      command followed by the service names, when no name holds a space. */
  lemma StatusListCmdWords(sudo: bool, services: seq<string>)
    requires |services| >= 1
    requires forall k :: 0 <= k < |services| ==> ' ' !in services[k]
    ensures SplitOn(StatusListCmd(sudo, services), ' ')
            == (if sudo then ["sudo"] else []) + [Systemctl, "status"] + services
  {
    var words := (if sudo then ["sudo"] else []) + [Systemctl, "status"] + services;
    forall k | 0 <= k < |words|
      ensures ' ' !in words[k]
    {
      if sudo && k >= 3 {
        assert words[k] == services[k - 3];
      } else if !sudo && k >= 2 {
        assert words[k] == services[k - 2];
      }
    }
    var tail := ["status"] + services;
    assert Join(tail, " ") == "status " + Join(services, " ") by {
      assert tail[1..] == services;
    }
    var tail2 := [Systemctl] + tail;
    assert Join(tail2, " ") == Systemctl + " " + Join(tail, " ") by {
      assert tail2[1..] == tail;
    }
    assert Join(tail2, " ") == StatusListCmd(false, services);
    if sudo {
      assert words == ["sudo"] + tail2;
      assert words[1..] == tail2;
      assert Join(words, " ") == "sudo " + Join(tail2, " ");
    } else {
      assert words == tail2;
    }
    assert Join(words, " ") == StatusListCmd(sudo, services);
    SplitJoin(words, ' ');
  }

  // ---- colours ----

  const Reset := "\U{1B}[0m"
  const Bold := "\U{1B}[1m"
  const BrightGreen := "\U{1B}[1;92m"
  const BrightRed := "\U{1B}[1;91m"
  const BrightBlue := "\U{1B}[1;94m"
  const BrightYellow := "\U{1B}[1;93m"
  const BrightMagenta := "\U{1B}[1;95m"

  /** The `status_colors` table, bold for anything else. */
  function StatusColour(status: string): string
  {
    if status == "active" then BrightGreen
    else if status == "failed" then BrightRed
    else if status == "inactive" then BrightBlue
    else if status == "activating" || status == "deactivating" then BrightYellow
    else Bold
  }

  /** The `color_codes` table keyed by distribution, bold for anything
      else. */
  function DistroColour(distro: string): string
  {
    if distro in {"opensuse", "opensuse-tumbleweed", "opensuse-leap"} then BrightGreen
    else if distro in {"redhat", "rocky", "almalinux"} then BrightRed
    else if distro == "debian" then BrightMagenta
    else Bold
  }

  /** An escape sequence ESC [ ... m. */
  predicate IsColour(code: string)
  {
    |code| >= 3 && code[0] == '\U{1B}' && code[1] == '[' && code[|code| - 1] == 'm'
    && forall k :: 1 <= k < |code| - 1 ==> code[k] != 'm'
  }

  function FormatServiceStatus(status: string): string
  {
    StatusColour(status) + status + Reset
  }

  function FormatHostname(hostname: string, distro: string): string
  {
    DistroColour(distro) + hostname + Reset
  }

  /** Removes a leading colour code and the trailing reset. */
  function Uncolour(s: string): (r: Option<string>)
  {
    if |s| < 4 || s[0] != '\U{1B}' || s[|s| - 4..] != Reset then None
    else
      var n := FirstM(s, 1);
      if n < |s| - 4 then Some(s[n + 1..|s| - 4]) else None
  }

  /** The index of the first 'm' at or after `from`, or |s|. */
  function FirstM(s: string, from: nat): (r: nat)
    requires from <= |s|
    ensures from <= r <= |s|
    ensures r < |s| ==> s[r] == 'm'
    ensures forall k :: from <= k < r ==> s[k] != 'm'
    decreases |s| - from
  {
    if from == |s| then |s| else if s[from] == 'm' then from else FirstM(s, from + 1)
  }

  /** Every colour in the tables is an escape sequence ending in 'm'. */
  lemma ColoursAreEscapes(status: string, distro: string)
    ensures IsColour(StatusColour(status)) && IsColour(DistroColour(distro)) && IsColour(Reset)
  {
  }

  /** Uncolouring a coloured text gives the text back. */
  lemma {:induction false} UncolourColoured(code: string, text: string)
    requires IsColour(code)
    ensures Uncolour(code + text + Reset) == Some(text)
  {
    var s := code + text + Reset;
    assert s[|s| - 4..] == Reset;
    var n := FirstM(s, 1);
    assert s[|code| - 1] == 'm';
    assert forall k :: 1 <= k < |code| - 1 ==> s[k] == code[k];
    assert n == |code| - 1;
    assert s[n + 1..|s| - 4] == text;
  }

  /** A formatted status uncolours to the status; the failed ones are red
      and an unknown status is only bold. */
  lemma FormattedStatusRoundTrip(status: string)
    ensures Uncolour(FormatServiceStatus(status)) == Some(status)
    ensures status == "failed" ==> StatusColour(status) == BrightRed
    ensures status !in {"active", "failed", "inactive", "activating", "deactivating"} ==> StatusColour(status) == Bold
  {
    UncolourColoured(StatusColour(status), status);
  }

  lemma FormattedHostnameRoundTrip(hostname: string, distro: string)
    ensures Uncolour(FormatHostname(hostname, distro)) == Some(hostname)
  {
    UncolourColoured(DistroColour(distro), hostname);
  }

  // ---- what a check does ----

  /** What the SSH client is asked to do, and the error line of `check`. */
  datatype SshEvent =
    | Connect(hostname: string, username: string)
    | Exec(command: string)
    | Close
    | Reported(hostname: string)

  /** The three modes of `check`. */
  datatype Mode = Short | CustomOnly | Default

  /** short, short_error and error outrank custom_only, which outranks the
      default mode. */
  function ModeFor(s: Settings): (r: Mode)
    ensures r == Short <==> s.short || s.shortError || s.error
    ensures r == CustomOnly <==> !(s.short || s.shortError || s.error) && s.customOnly
  {
    if s.short || s.shortError || s.error then Short
    else if s.customOnly then CustomOnly
    else Default
  }

  /** __check_custom. */
  function CustomEvents(sudo: bool, cmds: seq<string>): (r: seq<SshEvent>)
    ensures |r| == |cmds|
    ensures forall k :: 0 <= k < |r| ==> r[k] == Exec(CustomCmd(sudo, cmds[k]))
    decreases |cmds|
  {
    if |cmds| == 0 then [] else CustomEvents(sudo, cmds[..|cmds| - 1]) + [Exec(CustomCmd(sudo, cmds[|cmds| - 1]))]
  }

  /** One service in __check_short: its status, and the journal when it
      failed and error or short_error is set. `statusOf` is what the
      remote `systemctl is-active` prints, stripped. */
  function ServiceEvents(s: Settings, host: string, service: string, statusOf: (string, string) -> string): seq<SshEvent>
  {
    [Exec(StatusCmd(s.sudo, service))]
    + (if (s.shortError || s.error) && statusOf(host, service) == "failed" then [Exec(JournalCmd(s.sudo, s.lines, service))] else [])
  }

  function ShortEvents(s: Settings, host: string, services: seq<string>, statusOf: (string, string) -> string): (r: seq<SshEvent>)
    decreases |services|
  {
    if |services| == 0 then []
    else ShortEvents(s, host, services[..|services| - 1], statusOf) + ServiceEvents(s, host, services[|services| - 1], statusOf)
  }

  /** The number of services whose status is "failed". */
  function FailedCount(host: string, services: seq<string>, statusOf: (string, string) -> string): nat
    decreases |services|
  {
    if |services| == 0 then 0
    else FailedCount(host, services[..|services| - 1], statusOf) + (if statusOf(host, services[|services| - 1]) == "failed" then 1 else 0)
  }

  /** One status query per service, plus one journal query per failed
      service exactly when error or short_error is set. */
  lemma {:induction false} ShortEventsCount(s: Settings, host: string, services: seq<string>, statusOf: (string, string) -> string)
    ensures |ShortEvents(s, host, services, statusOf)|
            == |services| + (if s.shortError || s.error then FailedCount(host, services, statusOf) else 0)
    decreases |services|
  {
    if |services| > 0 {
      ShortEventsCount(s, host, services[..|services| - 1], statusOf);
    }
  }

  /** The journal and status commands are told apart by the program they
      run, and a journal command names its service. */
  lemma JournalCmdNames(sudo: bool, lines: string, a: string, b: string)
    ensures JournalCmd(sudo, lines, a) == JournalCmd(sudo, lines, b) ==> a == b
    ensures JournalCmd(sudo, lines, a) != StatusCmd(sudo, b)
  {
    var pre := (if sudo then "sudo " else "") + JournalctlLines + lines + " -u ";
    assert JournalCmd(sudo, lines, a) == pre + a;
    assert JournalCmd(sudo, lines, b) == pre + b;
    if JournalCmd(sudo, lines, a) == JournalCmd(sudo, lines, b) {
      assert a == (pre + a)[|pre|..] == (pre + b)[|pre|..] == b;
    }
    var at := (if sudo then 5 else 0) + 9;
    assert JournalCmd(sudo, lines, a)[at] == 'j';
    assert |StatusCmd(sudo, b)| > at && StatusCmd(sudo, b)[at] == 's';
  }

  /** The --error and --short-error promise: a service's journal is
      fetched exactly when one of them is set and that service of the
      host reported "failed". */
  lemma {:induction false} JournalQueriedIffFailed(s: Settings, host: string, services: seq<string>,
                                                  statusOf: (string, string) -> string, svc: string)
    ensures Exec(JournalCmd(s.sudo, s.lines, svc)) in ShortEvents(s, host, services, statusOf)
            <==> (s.shortError || s.error) && svc in services && statusOf(host, svc) == "failed"
    decreases |services|
  {
    if |services| > 0 {
      var init := services[..|services| - 1];
      var last := services[|services| - 1];
      JournalQueriedIffFailed(s, host, init, statusOf, svc);
      JournalCmdNames(s.sudo, s.lines, svc, last);
      var q := Exec(JournalCmd(s.sudo, s.lines, svc));
      assert q in ServiceEvents(s, host, last, statusOf)
             <==> (s.shortError || s.error) && statusOf(host, last) == "failed" && svc == last;
      assert svc in services <==> svc in init || svc == last by {
        assert services == init + [last];
      }
    }
  }

  /** Without error or short_error, __check_short only asks for statuses,
      one per service in order. */
  lemma {:induction false} ShortWithoutErrorsOnlyQueries(s: Settings, host: string, services: seq<string>,
                                                        statusOf: (string, string) -> string)
    requires !s.shortError && !s.error
    ensures ShortEvents(s, host, services, statusOf) == seq(|services|, k requires 0 <= k < |services| => Exec(StatusCmd(s.sudo, services[k])))
    decreases |services|
  {
    if |services| > 0 {
      ShortWithoutErrorsOnlyQueries(s, host, services[..|services| - 1], statusOf);
    }
  }

  /** What one host's turn in the `check` loop asks of the SSH client, and
      whether an exception reached the loop's handler: a failed connection,
      or __check_short on a host without services (`max` of nothing). */
  datatype HostRun = HostRun(events: seq<SshEvent>, failed: bool)

  /** What the chosen mode asks once connected: the events up to and
      including the close, or, when __check_short raises, up to the
      exception. */
  function ModeRun(s: Settings, h: Host, statusOf: (string, string) -> string): (r: HostRun)
    ensures r.failed <==> ModeFor(s) == Short && |h.services| == 0
    ensures !r.failed ==> |r.events| >= 1 && r.events[|r.events| - 1] == Close
  {
    match ModeFor(s)
    case Short =>
      if |h.services| == 0 then HostRun([], true)
      else HostRun(ShortEvents(s, h.hostname, h.services, statusOf) + [Close], false)
    case CustomOnly =>
      HostRun(CustomEvents(s.sudo, h.custom) + [Close], false)
    case Default =>
      HostRun([Exec(StatusListCmd(s.sudo, h.services))]
              + (if |h.custom| > 0 && !s.noCustom then CustomEvents(s.sudo, h.custom) else []) + [Close], false)
  }

  /** The commands that open every session: the FQDN and the distribution
      of the host. */
  function Opening(s: Settings, h: Host): seq<SshEvent>
  {
    [Connect(h.hostname, s.user), Exec(FqdnCmd), Exec(DistroCmd)]
  }

  function HostSession(s: Settings, h: Host, connects: string -> bool, statusOf: (string, string) -> string): (r: HostRun)
    ensures s.dryrun ==> r == HostRun([], false)
    ensures !s.dryrun ==> |r.events| >= 1 && r.events[0] == Connect(h.hostname, s.user)
    ensures !s.dryrun && connects(h.hostname) && !r.failed ==> r.events[|r.events| - 1] == Close
    ensures r.failed <==> !s.dryrun && (!connects(h.hostname) || (ModeFor(s) == Short && |h.services| == 0))
  {
    if s.dryrun then HostRun([], false)
    else if !connects(h.hostname) then HostRun([Connect(h.hostname, s.user)], true)
    else
      var m := ModeRun(s, h, statusOf);
      HostRun(Opening(s, h) + m.events, m.failed)
  }

  /** One host's turn in the intended `check`: the session, then the
      error line when an exception reached the handler. */
  function HostTurn(s: Settings, h: Host, connects: string -> bool, statusOf: (string, string) -> string): seq<SshEvent>
  {
    var run := HostSession(s, h, connects, statusOf);
    run.events + (if run.failed then [Reported(h.hostname)] else [])
  }

  /** The default mode runs the custom commands exactly when there are
      some and no_custom is not set. */
  lemma DefaultModeCustom(s: Settings, h: Host, connects: string -> bool, statusOf: (string, string) -> string)
    requires !s.dryrun && connects(h.hostname) && ModeFor(s) == Default
    ensures HostSession(s, h, connects, statusOf).events
            == Opening(s, h) + [Exec(StatusListCmd(s.sudo, h.services))]
               + (if |h.custom| > 0 && !s.noCustom then CustomEvents(s.sudo, h.custom) else []) + [Close]
    ensures |HostSession(s, h, connects, statusOf).events| == 5 + (if |h.custom| > 0 && !s.noCustom then |h.custom| else 0)
  {
  }

  /** `check` with its handler as intended: an exception is reported and
      the loop goes on with the next host. */
  function CheckRun(s: Settings, hosts: seq<Host>, connects: string -> bool, statusOf: (string, string) -> string): (r: seq<SshEvent>)
    decreases |hosts|
  {
    if |hosts| == 0 then []
    else
      CheckRun(s, hosts[..|hosts| - 1], connects, statusOf) + HostTurn(s, hosts[|hosts| - 1], connects, statusOf)
  }

  lemma CheckRunSnoc(s: Settings, hosts: seq<Host>, connects: string -> bool, statusOf: (string, string) -> string, i: nat)
    requires i < |hosts|
    ensures CheckRun(s, hosts[..i + 1], connects, statusOf)
            == CheckRun(s, hosts[..i], connects, statusOf) + HostTurn(s, hosts[i], connects, statusOf)
  {
    assert hosts[..i + 1][..i] == hosts[..i];
  }

  /** `check` as written: the handler formats `host.hostname`, an
      attribute a Hosts object does not have (its name is private), so
      the handler itself raises AttributeError, and the hosts after the
      first failing one are never checked. */
  function CheckAsWritten(s: Settings, hosts: seq<Host>, connects: string -> bool, statusOf: (string, string) -> string)
    : (r: (seq<SshEvent>, Option<PyError>))
    decreases |hosts|
  {
    if |hosts| == 0 then ([], None)
    else
      var prev := CheckAsWritten(s, hosts[..|hosts| - 1], connects, statusOf);
      if prev.1.Some? then prev
      else
        var run := HostSession(s, hosts[|hosts| - 1], connects, statusOf);
        (prev.0 + run.events, if run.failed then Some(AttributeError("hostname")) else None)
  }

  /** The as-written check agrees with the intended one until the first
      failing host, then raises and stops. */
  lemma {:induction false} CheckAsWrittenStops(s: Settings, hosts: seq<Host>, connects: string -> bool,
                                               statusOf: (string, string) -> string, k: nat)
    requires k < |hosts| && HostSession(s, hosts[k], connects, statusOf).failed
    requires forall j :: 0 <= j < k ==> !HostSession(s, hosts[j], connects, statusOf).failed
    ensures CheckAsWritten(s, hosts, connects, statusOf)
            == (CheckRun(s, hosts[..k], connects, statusOf) + HostSession(s, hosts[k], connects, statusOf).events,
                Some(AttributeError("hostname")))
    decreases |hosts|
  {
    if k < |hosts| - 1 {
      assert hosts[..|hosts| - 1][..k] == hosts[..k];
      CheckAsWrittenStops(s, hosts[..|hosts| - 1], connects, statusOf, k);
    } else {
      NoFailureAgrees(s, hosts[..k], connects, statusOf);
    }
  }

  lemma {:induction false} NoFailureAgrees(s: Settings, hosts: seq<Host>, connects: string -> bool,
                                           statusOf: (string, string) -> string)
    requires forall j :: 0 <= j < |hosts| ==> !HostSession(s, hosts[j], connects, statusOf).failed
    ensures CheckAsWritten(s, hosts, connects, statusOf) == (CheckRun(s, hosts, connects, statusOf), None)
    decreases |hosts|
  {
    if |hosts| > 0 {
      var n := |hosts| - 1;
      NoFailureAgrees(s, hosts[..n], connects, statusOf);
      var run := HostSession(s, hosts[n], connects, statusOf);
      assert !run.failed;
      var prev := CheckAsWritten(s, hosts[..n], connects, statusOf);
      assert prev == (CheckRun(s, hosts[..n], connects, statusOf), None);
      assert CheckAsWritten(s, hosts, connects, statusOf) == (prev.0 + run.events, None);
      assert CheckRun(s, hosts, connects, statusOf) == CheckRun(s, hosts[..n], connects, statusOf) + run.events + [];
      assert CheckRun(s, hosts[..n], connects, statusOf) + run.events + [] == prev.0 + run.events;
    }
  }

  /** An unreachable first host is enough: as written, the second host is
      never contacted; as intended, it is. */
  lemma UnreachableHostStopsCheck(s: Settings, a: Host, b: Host, statusOf: (string, string) -> string)
    requires !s.dryrun
    ensures var connects := (n: string) => n != a.hostname;
            a.hostname != b.hostname ==>
              && CheckAsWritten(s, [a, b], connects, statusOf) == ([Connect(a.hostname, s.user)], Some(AttributeError("hostname")))
              && Connect(b.hostname, s.user) in CheckRun(s, [a, b], connects, statusOf)
  {
    var connects := (n: string) => n != a.hostname;
    if a.hostname != b.hostname {
      assert [a, b][..1] == [a];
      assert [a][..0] == [];
      assert !connects(a.hostname) && connects(b.hostname);
      assert HostSession(s, a, connects, statusOf) == HostRun([Connect(a.hostname, s.user)], true);
      assert CheckAsWritten(s, [], connects, statusOf) == ([], None);
      assert [] + [Connect(a.hostname, s.user)] == [Connect(a.hostname, s.user)];
      assert CheckAsWritten(s, [a], connects, statusOf) == ([Connect(a.hostname, s.user)], Some(AttributeError("hostname")));
      var run := HostSession(s, b, connects, statusOf);
      assert run.events[0] == Connect(b.hostname, s.user);
      var pre := CheckRun(s, [a], connects, statusOf);
      assert CheckRun(s, [a, b], connects, statusOf) == pre + run.events + (if run.failed then [Reported(b.hostname)] else []);
      assert (pre + run.events + (if run.failed then [Reported(b.hostname)] else []))[|pre|] == Connect(b.hostname, s.user);
    }
  }

  // ---- the checker ----

  class CheckServices {
    const settings: Settings
    const hosts: seq<Host>
    /** What the SSH client has been asked to do. */
    var events: seq<SshEvent>

    constructor (config: ServicesConfig, opts: Options)
      ensures settings == SettingsFor(config, opts) && hosts == HostsFor(config) && events == []
    {
      settings := SettingsFor(config, opts);
      hosts := HostsFor(config);
      events := [];
    }

    /** __get_service_status. */
    method GetServiceStatus(host: string, service: string, statusOf: (string, string) -> string) returns (status: string)
      modifies this
      ensures events == old(events) + [Exec(StatusCmd(settings.sudo, service))]
      ensures status == statusOf(host, service)
    {
      var statusCmd := SystemctlIsActive + service;
      if settings.sudo {
        statusCmd := "sudo " + SystemctlIsActive + service;
      }
      events := events + [Exec(statusCmd)];
      status := statusOf(host, service);
    }

    /** __check_custom: the loop reassigns each command before running
        it. */
    method CheckCustom(customCmds: seq<string>)
      modifies this
      ensures events == old(events) + CustomEvents(settings.sudo, customCmds)
    {
      var i := 0;
      while i < |customCmds|
        invariant 0 <= i <= |customCmds|
        invariant events == old(events) + CustomEvents(settings.sudo, customCmds[..i])
      {
        var customCmd := customCmds[i];
        if settings.sudo {
          customCmd := "sudo" + customCmd;
        }
        events := events + [Exec(customCmd)];
        assert customCmds[..i + 1][..i] == customCmds[..i];
        i := i + 1;
      }
      assert customCmds[..i] == customCmds;
    }

    /** __check_short; `ok` is false when `max` of the name lengths
        raises on an empty service list. */
    method CheckShort(host: string, services: seq<string>, statusOf: (string, string) -> string) returns (ok: bool)
      modifies this
      ensures ok <==> |services| > 0
      ensures ok ==> events == old(events) + ShortEvents(settings, host, services, statusOf)
      ensures !ok ==> events == old(events)
    {
      if |services| == 0 {
        return false;
      }
      var i := 0;
      while i < |services|
        invariant 0 <= i <= |services|
        invariant events == old(events) + ShortEvents(settings, host, services[..i], statusOf)
      {
        var service := services[i];
        var status := GetServiceStatus(host, service, statusOf);
        if (settings.shortError || settings.error) && status == "failed" {
          var shortErrorCmd := JournalctlLines + settings.lines + " -u " + service;
          if settings.sudo {
            shortErrorCmd := "sudo " + JournalctlLines + settings.lines + " -u " + service;
          }
          events := events + [Exec(shortErrorCmd)];
        }
        assert services[..i + 1][..i] == services[..i];
        i := i + 1;
      }
      assert services[..i] == services;
      return true;
    }

    /** __check_default. */
    method CheckDefault(services: seq<string>, customCmds: seq<string>)
      modifies this
      ensures events == old(events) + [Exec(StatusListCmd(settings.sudo, services))]
                        + (if |customCmds| > 0 && !settings.noCustom then CustomEvents(settings.sudo, customCmds) else [])
    {
      var servicesList := Join(services, " ");
      var servicesCmd := SystemctlStatus + servicesList;
      if settings.sudo {
        servicesCmd := "sudo " + SystemctlStatus + servicesList;
      }
      events := events + [Exec(servicesCmd)];
      if |customCmds| > 0 && !settings.noCustom {
        CheckCustom(customCmds);
      }
    }

    /** The mode dispatch of `check` once connected. */
    method RunMode(host: Host, statusOf: (string, string) -> string) returns (ok: bool)
      modifies this
      ensures ok <==> !ModeRun(settings, host, statusOf).failed
      ensures events == old(events) + ModeRun(settings, host, statusOf).events
    {
      ok := true;
      match ModeFor(settings)
      case Short =>
        ok := CheckShort(host.hostname, host.services, statusOf);
        if ok {
          events := events + [Close];
        }
      case CustomOnly =>
        CheckCustom(host.custom);
        events := events + [Close];
      case Default =>
        CheckDefault(host.services, host.custom);
        events := events + [Close];
    }

    /** The body of the loop in `check`, for one host. */
    method VisitHost(host: Host, connects: string -> bool, statusOf: (string, string) -> string)
      modifies this
      ensures events == old(events) + HostTurn(settings, host, connects, statusOf)
    {
      if settings.dryrun {
        return;
      }
      events := events + [Connect(host.hostname, settings.user)];
      if !connects(host.hostname) {
        events := events + [Reported(host.hostname)];
        return;
      }
      events := events + [Exec(FqdnCmd), Exec(DistroCmd)];
      assert events == old(events) + Opening(settings, host);
      var ok := RunMode(host, statusOf);
      if !ok {
        events := events + [Reported(host.hostname)];
      }
    }

    /** `check`, with the handler reporting the failed host and going on
        with the next one. `connects` says which hosts accept the SSH
        connection. */
    method Check(connects: string -> bool, statusOf: (string, string) -> string)
      modifies this
      ensures events == old(events) + CheckRun(settings, HostsToCheck(hosts, settings.hostname), connects, statusOf)
    {
      var hostsToCheck := hosts;
      if settings.hostname.Some? {
        hostsToCheck := HostsToCheck(hosts, settings.hostname);
      }
      assert hostsToCheck == HostsToCheck(hosts, settings.hostname);
      ghost var events0 := events;
      var i := 0;
      while i < |hostsToCheck|
        invariant 0 <= i <= |hostsToCheck|
        invariant events == events0 + CheckRun(settings, hostsToCheck[..i], connects, statusOf)
      {
        var host := hostsToCheck[i];
        ghost var prefix := CheckRun(settings, hostsToCheck[..i], connects, statusOf);
        VisitHost(host, connects, statusOf);
        ConcatAssoc(events0, prefix, HostTurn(settings, host, connects, statusOf));
        CheckRunSnoc(settings, hostsToCheck, connects, statusOf, i);
        i := i + 1;
      }
      assert hostsToCheck[..i] == hostsToCheck;
    }
  }
}
