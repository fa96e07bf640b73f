/** download_updates.py: how PackageDownloader turns the nested
    distribution / version / location configuration into download records,
    which commands download_updates starts for them, and the buffering
    MailHandler. */
module Mirror {
  import opened PyBase

  // ---- os.path.join ----

  /** `os.path.join(a, b)` on POSIX: an absolute `b` replaces `a`; a
      separator is added unless `a` is empty or already ends in one. */
  function PathJoin(a: string, b: string): (r: string)
    ensures |b| > 0 && b[0] == '/' ==> r == b
    ensures !(|b| > 0 && b[0] == '/') && |a| > 0 && a[|a| - 1] != '/' ==> r == a + "/" + b
  {
    if |b| > 0 && b[0] == '/' then b
    else if a == "" || a[|a| - 1] == '/' then a + b
    else a + "/" + b
  }

  /** `os.path.join(a, b, c)`. */
  function PathJoin3(a: string, b: string, c: string): string
  {
    PathJoin(PathJoin(a, b), c)
  }

  /** For relative, non-empty parts and a root without a trailing slash,
      the joined path is the three parts with single slashes between. */
  lemma PathJoin3Plain(a: string, b: string, c: string)
    requires |a| > 0 && a[|a| - 1] != '/'
    requires |b| > 0 && b[0] != '/' && b[|b| - 1] != '/' && |c| > 0 && c[0] != '/'
    ensures PathJoin3(a, b, c) == a + "/" + b + "/" + c
  {
    var ab := PathJoin(a, b);
    assert ab == a + "/" + b;
    assert ab[|ab| - 1] == b[|b| - 1];
  }

  // ---- configuration ----

  /** One mapping in a version's location list. `first` is its first value
      (`list(location_dict.values())[0]`), None for an empty mapping; the
      other fields are the optional override keys. */
  datatype LocationEntry = LocationEntry(
    first: Option<string>,
    override: bool,
    sourceLocation: Option<string>,
    sourcePath: Option<string>,
    sourceDistribution: Option<string>,
    protocol: Option<string>,
    altDestination: Option<string>,
    destinationDistribution: Option<string>)

  datatype VersionConfig = VersionConfig(name: string, entries: seq<LocationEntry>)

  /** One distribution; `versions` is None when the key is missing. */
  datatype DistributionConfig = DistributionConfig(
    name: string,
    override: bool,
    sourceLocation: Option<string>,
    protocol: Option<string>,
    sourcePath: Option<string>,
    versions: Option<seq<VersionConfig>>)

  /** The three variables the constructor carries from one entry to the
      next. */
  datatype Carried = Carried(sourceLocation: Option<string>, protocol: Option<string>, sourcePath: Option<string>)

  /** A Locations object. */
  datatype Location = Location(protocol: Option<string>, sourceUrl: string, destinationPath: string)

  function OrElse(o: Option<string>, d: Option<string>): (r: Option<string>)
    ensures o.Some? ==> r == o
    ensures o.None? ==> r == d
  {
    if o.Some? then o else d
  }

  function NameOr(o: Option<string>, d: string): (r: string)
    ensures o.Some? ==> r == o.value
    ensures o.None? ==> r == d
  {
    if o.Some? then o.value else d
  }

  /** The steps of the three nested loops, in loop order. */
  datatype Item =
    | Enter(dist: DistributionConfig)
    | Entry(distName: string, entry: LocationEntry)

  function EntryItems(dist: string, es: seq<LocationEntry>): (r: seq<Item>)
    decreases |es|
  {
    if |es| == 0 then [] else EntryItems(dist, es[..|es| - 1]) + [Entry(dist, es[|es| - 1])]
  }

  function VersionItems(dist: string, vs: seq<VersionConfig>): (r: seq<Item>)
    decreases |vs|
  {
    if |vs| == 0 then [] else VersionItems(dist, vs[..|vs| - 1]) + EntryItems(dist, vs[|vs| - 1].entries)
  }

  function DistItems(d: DistributionConfig): seq<Item>
  {
    [Enter(d)] + (if d.versions.Some? then VersionItems(d.name, d.versions.value) else [])
  }

  function Items(ds: seq<DistributionConfig>): (r: seq<Item>)
    decreases |ds|
  {
    if |ds| == 0 then [] else Items(ds[..|ds| - 1]) + DistItems(ds[|ds| - 1])
  }

  /** The constructor's state part way through the loops: the carried
      variables, the records so far, and the exception that ended it. */
  datatype Flattening = Flattening(carried: Carried, locations: seq<Location>, error: Option<PyError>)

  /** The carried variables after an override block, of a distribution
      or of a location entry: a key the block sets replaces the carried
      value, a missing one keeps it, and source_path is always reset. */
  function Override(c: Carried, override: bool, sourceLocation: Option<string>, protocol: Option<string>,
                    sourcePath: Option<string>): (r: Carried)
    ensures !override ==> r == c
    ensures override ==> r.sourcePath == sourcePath
    ensures override && sourceLocation.Some? ==> r.sourceLocation == sourceLocation
    ensures override && sourceLocation.None? ==> r.sourceLocation == c.sourceLocation
    ensures override && protocol.Some? ==> r.protocol == protocol
    ensures override && protocol.None? ==> r.protocol == c.protocol
  {
    if override then Carried(OrElse(sourceLocation, c.sourceLocation), OrElse(protocol, c.protocol), sourcePath)
    else c
  }

  /** The source URL of an entry. */
  function SourceUrl(c: Carried, sourceDistribution: string, locationStr: string): string
  {
    if Truthy(c.sourcePath) then Show(c.sourceLocation) + "/" + c.sourcePath.value + "/" + sourceDistribution + "/" + locationStr
    else Show(c.sourceLocation) + "/" + sourceDistribution + "/" + locationStr
  }

  /** The record of one entry, given the carried variables after its
      override block; the per-entry names start from the distribution. */
  function EntryRecord(c: Carried, destRoot: string, dist: string, e: LocationEntry, locationStr: string): Location
  {
    var sourceDistribution := if e.override then NameOr(e.sourceDistribution, dist) else dist;
    var destinationDistribution := if e.override then NameOr(e.destinationDistribution, dist) else dist;
    var alt := if e.override then e.altDestination else None;
    Location(c.protocol,
             SourceUrl(c, sourceDistribution, locationStr),
             if Truthy(alt) then PathJoin3(destRoot, destinationDistribution, alt.value)
             else PathJoin3(destRoot, destinationDistribution, locationStr))
  }

  /** One step of the loops. An empty location mapping raises IndexError,
      a missing destination_location a TypeError in os.path.join, a
      missing `versions` an AttributeError; after an exception nothing
      changes. */
  function Apply(st: Flattening, destRoot: Option<string>, item: Item): (r: Flattening)
    ensures st.error.Some? ==> r == st
    ensures r.error.None? ==> st.error.None? && |r.locations| == |st.locations| + (if item.Entry? then 1 else 0)
    ensures st.locations <= r.locations
    // entering a distribution: AttributeError iff it has no `versions`
    ensures st.error.None? && item.Enter? ==>
              && (r.error.Some? <==> item.dist.versions.None?)
              && (r.error.Some? ==> r.error.value == AttributeError("items"))
              && r.locations == st.locations
    // a location entry: IndexError for an empty mapping, else TypeError
    // without destination_location, else its record is appended
    ensures st.error.None? && item.Entry? && item.entry.first.None? ==> r.error == Some(IndexError)
    ensures st.error.None? && item.Entry? && item.entry.first.Some? && destRoot.None? ==> r.error == Some(TypeError)
    ensures st.error.None? && item.Entry? && item.entry.first.Some? && destRoot.Some? ==> r.error.None?
    ensures item.Entry? && r.error.None? ==>
              r.locations == st.locations + [EntryRecord(r.carried, destRoot.value, item.distName, item.entry, item.entry.first.value)]
    // the override block's values are carried on to later steps
    ensures st.error.None? && item.Enter? ==>
              r.carried == Override(st.carried, item.dist.override, item.dist.sourceLocation, item.dist.protocol, item.dist.sourcePath)
    ensures st.error.None? && item.Entry? && item.entry.first.Some? ==>
              r.carried == Override(st.carried, item.entry.override, item.entry.sourceLocation, item.entry.protocol, item.entry.sourcePath)
  {
    if st.error.Some? then st
    else match item
      case Enter(d) =>
        var c := Override(st.carried, d.override, d.sourceLocation, d.protocol, d.sourcePath);
        if d.versions.None? then Flattening(c, st.locations, Some(AttributeError("items")))
        else Flattening(c, st.locations, None)
      case Entry(dist, e) =>
        if e.first.None? then Flattening(st.carried, st.locations, Some(IndexError))
        else
          var c := Override(st.carried, e.override, e.sourceLocation, e.protocol, e.sourcePath);
          if destRoot.None? then Flattening(c, st.locations, Some(TypeError))
          else Flattening(c, st.locations + [EntryRecord(c, destRoot.value, dist, e, e.first.value)], None)
  }

  function Fold(st: Flattening, destRoot: Option<string>, items: seq<Item>): (r: Flattening)
    decreases |items|
  {
    if |items| == 0 then st else Apply(Fold(st, destRoot, items[..|items| - 1]), destRoot, items[|items| - 1])
  }

  /** The number of location entries among the steps. */
  function EntryCount(items: seq<Item>): nat
    decreases |items|
  {
    if |items| == 0 then 0 else EntryCount(items[..|items| - 1]) + (if items[|items| - 1].Entry? then 1 else 0)
  }

  /** The records only grow, one per location entry, earlier entries
      first: without an exception there is exactly one record per entry. */
  lemma {:induction false} FoldRecords(st: Flattening, destRoot: Option<string>, items: seq<Item>)
    ensures st.locations <= Fold(st, destRoot, items).locations
    ensures Fold(st, destRoot, items).error.None? ==>
              st.error.None? && |Fold(st, destRoot, items).locations| == |st.locations| + EntryCount(items)
    decreases |items|
  {
    if |items| > 0 {
      FoldRecords(st, destRoot, items[..|items| - 1]);
    }
  }

  /** Folding a list split in two is folding the parts one after the
      other. */
  lemma {:induction false} FoldAppend(st: Flattening, destRoot: Option<string>, a: seq<Item>, b: seq<Item>)
    ensures Fold(st, destRoot, a + b) == Fold(Fold(st, destRoot, a), destRoot, b)
    decreases |b|
  {
    if |b| == 0 {
      assert a + b == a;
    } else {
      assert (a + b)[..|a + b| - 1] == a + b[..|b| - 1];
      FoldAppend(st, destRoot, a, b[..|b| - 1]);
    }
  }

  /** One more entry of the inner loop is one more step of the fold. */
  lemma EntryStep(st: Flattening, destRoot: Option<string>, dist: string, es: seq<LocationEntry>, k: nat)
    requires k < |es|
    ensures Fold(st, destRoot, EntryItems(dist, es[..k + 1]))
            == Apply(Fold(st, destRoot, EntryItems(dist, es[..k])), destRoot, Entry(dist, es[k]))
  {
    assert es[..k + 1][..k] == es[..k];
    var a := EntryItems(dist, es[..k]);
    assert EntryItems(dist, es[..k + 1]) == a + [Entry(dist, es[k])];
    assert (a + [Entry(dist, es[k])])[..|a|] == a;
  }

  /** No override anywhere in the steps. */
  predicate NoOverride(items: seq<Item>)
  {
    forall k :: 0 <= k < |items| ==>
      (items[k].Enter? ==> !items[k].dist.override) && (items[k].Entry? ==> !items[k].entry.override)
  }

  /** The override leak: once an override has set the source location,
      protocol or source path, every later entry without an override of
      its own, in this distribution or any later one, keeps using them. */
  lemma {:induction false} OverrideLeaks(st: Flattening, destRoot: Option<string>, items: seq<Item>)
    requires NoOverride(items)
    ensures Fold(st, destRoot, items).carried == st.carried
    ensures forall k :: |st.locations| <= k < |Fold(st, destRoot, items).locations| ==>
              Fold(st, destRoot, items).locations[k].protocol == st.carried.protocol
    decreases |items|
  {
    if |items| > 0 {
      OverrideLeaks(st, destRoot, items[..|items| - 1]);
    }
  }

  /** An entry without an override of its own still takes the carried
      source location, protocol and source path, but its distribution
      names are the current distribution's, whatever earlier entries
      overrode. */
  lemma EntryWithoutOverride(c: Carried, destRoot: string, dist: string, e: LocationEntry, locationStr: string)
    requires !e.override
    ensures var r := EntryRecord(c, destRoot, dist, e, locationStr);
            && r.protocol == c.protocol
            && r.sourceUrl == SourceUrl(c, dist, locationStr)
            && r.destinationPath == PathJoin3(destRoot, dist, locationStr)
  {
  }

  /** An entry with an override takes its source location, protocol and
      source path from the entry where it sets them (source_path is reset
      to None when it does not), its distribution names from the entry or
      else the current distribution, and a truthy alt_destination in place
      of the location string in the destination. */
  lemma EntryWithOverride(c0: Carried, destRoot: string, dist: string, e: LocationEntry, locationStr: string)
    requires e.override
    ensures var c := Override(c0, e.override, e.sourceLocation, e.protocol, e.sourcePath);
            var r := EntryRecord(c, destRoot, dist, e, locationStr);
            var location := Show(OrElse(e.sourceLocation, c0.sourceLocation));
            var sourceDistribution := NameOr(e.sourceDistribution, dist);
            var destinationDistribution := NameOr(e.destinationDistribution, dist);
            && r.protocol == OrElse(e.protocol, c0.protocol)
            && (Truthy(e.sourcePath) ==>
                  r.sourceUrl == location + "/" + e.sourcePath.value + "/" + sourceDistribution + "/" + locationStr)
            && (!Truthy(e.sourcePath) ==> r.sourceUrl == location + "/" + sourceDistribution + "/" + locationStr)
            && (Truthy(e.altDestination) ==>
                  r.destinationPath == PathJoin3(destRoot, destinationDistribution, e.altDestination.value))
            && (!Truthy(e.altDestination) ==> r.destinationPath == PathJoin3(destRoot, destinationDistribution, locationStr))
  {
  }

  /** The source URL splits back on "/" into its parts when none of them
      holds a slash: location, [source path,] distribution, entry. */
  lemma SourceUrlParts(c: Carried, sourceDistribution: string, locationStr: string)
    requires c.sourceLocation.Some? && '/' !in c.sourceLocation.value
    requires '/' !in sourceDistribution && '/' !in locationStr
    requires c.sourcePath.Some? ==> '/' !in c.sourcePath.value
    ensures Truthy(c.sourcePath) ==>
              SplitOn(SourceUrl(c, sourceDistribution, locationStr), '/')
              == [c.sourceLocation.value, c.sourcePath.value, sourceDistribution, locationStr]
    ensures !Truthy(c.sourcePath) ==>
              SplitOn(SourceUrl(c, sourceDistribution, locationStr), '/')
              == [c.sourceLocation.value, sourceDistribution, locationStr]
  {
    var l := c.sourceLocation.value;
    if Truthy(c.sourcePath) {
      var xs := [l, c.sourcePath.value, sourceDistribution, locationStr];
      assert Join(xs[3..], "/") == locationStr;
      assert Join(xs[2..], "/") == sourceDistribution + "/" + locationStr;
      assert Join(xs[1..], "/") == c.sourcePath.value + "/" + (sourceDistribution + "/" + locationStr);
      assert Join(xs, "/") == SourceUrl(c, sourceDistribution, locationStr);
      SplitJoin(xs, '/');
    } else {
      var xs := [l, sourceDistribution, locationStr];
      assert Join(xs[2..], "/") == locationStr;
      assert Join(xs[1..], "/") == sourceDistribution + "/" + locationStr;
      assert Join(xs, "/") == SourceUrl(c, sourceDistribution, locationStr);
      SplitJoin(xs, '/');
    }
  }

  /** The constructor's record list, or the exception it raises; a missing
      `distributions` raises AttributeError before the loops. */
  function Flatten(globalSource: Option<string>, globalProtocol: Option<string>, destRoot: Option<string>,
                   distributions: Option<seq<DistributionConfig>>): (r: Result<seq<Location>>)
    ensures distributions.None? ==> r == Err(AttributeError("items"))
  {
    if distributions.None? then Err(AttributeError("items"))
    else
      var f := Fold(Flattening(Carried(globalSource, globalProtocol, None), [], None), destRoot, Items(distributions.value));
      if f.error.Some? then Err(f.error.value) else Ok(f.locations)
  }

  // ---- mail settings ----

  /** The `mail` section; each key None when missing. */
  datatype MailConfig = MailConfig(
    localDeliveryUser: Option<string>,
    mailServer: Option<string>,
    toAddress: Option<string>,
    fromAddress: Option<string>,
    mailUser: Option<string>,
    mailPassword: Option<string>)

  /** What the constructor keeps about mail. */
  datatype MailSettings =
    | NoMail
    | LocalMail(user: string)
    | SmtpMail(server: Option<string>, to: Option<string>, from: Option<string>, subject: string,
               credentials: Option<(string, string)>)

  /** The mail part of the constructor. `mail` is None when the section is
      missing or empty. */
  function MailSettingsFor(mail: Option<MailConfig>, configFile: string, downloadDate: string): (r: MailSettings)
    ensures mail.None? <==> r.NoMail?
    ensures r.LocalMail? <==> mail.Some? && Truthy(mail.value.localDeliveryUser)
    ensures r.LocalMail? ==> r.user == mail.value.localDeliveryUser.value
    ensures r.SmtpMail? ==> r.server == mail.value.mailServer && r.to == mail.value.toAddress
    ensures r.SmtpMail? && mail.value.fromAddress.Some? ==> r.from == mail.value.fromAddress
    ensures r.SmtpMail? && mail.value.fromAddress.None? ==> r.from == mail.value.toAddress
    ensures r.SmtpMail? ==> (r.credentials.Some? <==> Truthy(mail.value.mailUser) && Truthy(mail.value.mailPassword))
    ensures r.SmtpMail? && r.credentials.Some? ==> r.credentials.value == (mail.value.mailUser.value, mail.value.mailPassword.value)
    ensures r.SmtpMail? ==> r.subject == "Download " + configFile + " on " + downloadDate
  {
    match mail
    case None => NoMail
    case Some(m) =>
      if Truthy(m.localDeliveryUser) then LocalMail(m.localDeliveryUser.value)
      else SmtpMail(m.mailServer, m.toAddress, OrElse(m.fromAddress, m.toAddress),
                    "Download " + configFile + " on " + downloadDate,
                    if Truthy(m.mailUser) && Truthy(m.mailPassword) then Some((m.mailUser.value, m.mailPassword.value)) else None)
  }

  // ---- commands ----

  /** The argv of __rsync_download. */
  function RsyncDownloadArgv(dryrun: bool, sourceUrl: string, destination: string): (r: seq<string>)
    ensures |r| == (if dryrun then 6 else 5)
    ensures r[..2] == ["rsync", "-arPv"]
    ensures dryrun ==> r[2] == "--dry-run"
    ensures r[|r| - 3] == "--delete"
    ensures r[|r| - 2] == "rsync://" + sourceUrl + "/" && r[|r| - 1] == destination + "/"
  {
    ["rsync", "-arPv"] + (if dryrun then ["--dry-run"] else []) + ["--delete", "rsync://" + sourceUrl + "/", destination + "/"]
  }

  /** The argv of __curl_download. */
  function CurlArgv(sourceUrl: string, destination: string): seq<string>
  {
    ["curl", "--create-dirs", "-o", destination, sourceUrl]
  }

  /** The protocol dispatch of download_updates: rsync, curl, or nothing
      for any other protocol. */
  function DownloadCommands(dryrun: bool, loc: Location): (r: seq<seq<string>>)
    ensures |r| <= 1
    ensures |r| == 1 <==> loc.protocol == Some("rsync") || loc.protocol == Some("curl")
    ensures |r| == 1 ==> |r[0]| >= 5
    ensures |r| == 1 ==> r[0][0] == (if loc.protocol == Some("rsync") then "rsync" else "curl")
  {
    if loc.protocol == Some("rsync") then [RsyncDownloadArgv(dryrun, loc.sourceUrl, loc.destinationPath)]
    else if loc.protocol == Some("curl") then [CurlArgv(loc.sourceUrl, loc.destinationPath)]
    else []
  }

  const ChownOwner := "wwwrun:www"
  const RestartedServices: seq<string> := ["apache2"]

  /** The chown that hands the mirror to the web server. */
  function ChownArgv(destinationLocation: Option<string>): seq<string>
  {
    ["chown", "-R", ChownOwner, Show(destinationLocation)]
  }

  /** __restart_systemd_service. */
  function RestartArgv(service: string): seq<string>
  {
    ["systemctl", "restart", service]
  }

  /** One restart per service, in the order of the list. */
  function RestartCommands(services: seq<string>): (r: seq<seq<string>>)
    ensures |r| == |services|
    ensures forall k :: 0 <= k < |r| ==> r[k] == RestartArgv(services[k])
    decreases |services|
  {
    if |services| == 0 then []
    else RestartCommands(services[..|services| - 1]) + [RestartArgv(services[|services| - 1])]
  }

  /** The loop of download_updates over the first locations: create the
      missing destination directories and start the downloads. */
  function DownloadRun(existing: set<string>, dryrun: bool, locs: seq<Location>): (r: (set<string>, seq<seq<string>>))
    decreases |locs|
  {
    if |locs| == 0 then (existing, [])
    else
      var prev := DownloadRun(existing, dryrun, locs[..|locs| - 1]);
      var loc := locs[|locs| - 1];
      (prev.0 + {loc.destinationPath}, prev.1 + DownloadCommands(dryrun, loc))
  }

  /** Every destination exists after the loop, and nothing else was
      created. */
  lemma {:induction false} DownloadRunCreates(existing: set<string>, dryrun: bool, locs: seq<Location>)
    ensures DownloadRun(existing, dryrun, locs).0 == existing + set k | 0 <= k < |locs| :: locs[k].destinationPath
    ensures |DownloadRun(existing, dryrun, locs).1| <= |locs|
    decreases |locs|
  {
    if |locs| > 0 {
      DownloadRunCreates(existing, dryrun, locs[..|locs| - 1]);
      var n := |locs| - 1;
      assert (set k | 0 <= k < |locs| :: locs[k].destinationPath)
          == (set k | 0 <= k < n :: locs[..n][k].destinationPath) + {locs[n].destinationPath};
    }
  }

  lemma DownloadRunSnoc(existing: set<string>, dryrun: bool, locs: seq<Location>, i: nat)
    requires i < |locs|
    ensures DownloadRun(existing, dryrun, locs[..i + 1])
            == (DownloadRun(existing, dryrun, locs[..i]).0 + {locs[i].destinationPath},
                DownloadRun(existing, dryrun, locs[..i]).1 + DownloadCommands(dryrun, locs[i]))
  {
    assert locs[..i + 1][..i] == locs[..i];
  }

  /** What ends download_updates. */
  datatype DownloadEnd =
    | Completed
    | ErrorLogged      // the handler logs "Error downloading or chowning ..."
    | Raised(error: PyError)

  /** What the try block of download_updates raises: `subprocess.run`
      with `check=True` raises CalledProcessError when chown exits with a
      non-zero status. */
  function ChownRaises(chownExit: int): Option<PyError>
  {
    if chownExit != 0 then Some(CalledProcessError(chownExit)) else None
  }

  /** The commands the try block starts: the downloads, chown, and the
      restarts when chown succeeded. */
  function TryCommands(existing: set<string>, dryrun: bool, locs: seq<Location>, destinationLocation: Option<string>,
                       chownExit: int): (r: seq<seq<string>>)
    ensures |r| == |DownloadRun(existing, dryrun, locs).1| + 1 + (if chownExit == 0 then 1 else 0)
    ensures r[|DownloadRun(existing, dryrun, locs).1|] == ChownArgv(destinationLocation)
    ensures chownExit == 0 ==> r[|r| - 1] == RestartArgv("apache2")
  {
    DownloadRun(existing, dryrun, locs).1 + [ChownArgv(destinationLocation)]
    + (if chownExit == 0 then RestartCommands(RestartedServices) else [])
  }

  /** The except block of download_updates as written: it calls
      `log_error`, which a logging.Logger does not have, so the handler
      itself raises AttributeError. */
  function HandlerAsWritten(raised: Option<PyError>): DownloadEnd
  {
    if raised.Some? then Raised(AttributeError("log_error")) else Completed
  }

  /** The same block as intended: an exception is logged and the run ends
      normally. */
  function HandlerCorrected(raised: Option<PyError>): (r: DownloadEnd)
    ensures !r.Raised?
    ensures r == ErrorLogged <==> raised.Some?
  {
    if raised.Some? then ErrorLogged else Completed
  }

  /** The two handlers agree exactly when the try block raised nothing;
      otherwise the intended one logs and the one as written raises
      AttributeError in place of the logged line. */
  lemma HandlerAsWrittenRaises(chownExit: int)
    ensures HandlerAsWritten(ChownRaises(chownExit)) == HandlerCorrected(ChownRaises(chownExit)) <==> chownExit == 0
    ensures chownExit != 0 ==> HandlerAsWritten(ChownRaises(chownExit)) == Raised(AttributeError("log_error"))
                               && HandlerCorrected(ChownRaises(chownExit)) == ErrorLogged
  {
  }

  // ---- the downloader ----

  class PackageDownloader {
    const locations: seq<Location>
    const destinationLocation: Option<string>
    const dryrun: bool
    const mail: MailSettings
    /** The directories that exist. */
    var existing: set<string>
    /** The subprocesses started so far, in order. */
    var commands: seq<seq<string>>

    constructor (locations: seq<Location>, destinationLocation: Option<string>, dryrun: bool, mail: MailSettings,
                 existing: set<string>)
      ensures this.locations == locations && this.destinationLocation == destinationLocation
      ensures this.dryrun == dryrun && this.mail == mail
      ensures this.existing == existing && this.commands == []
    {
      this.locations := locations;
      this.destinationLocation := destinationLocation;
      this.dryrun := dryrun;
      this.mail := mail;
      this.existing := existing;
      this.commands := [];
    }

    /** The body of download_updates' loop: make the destination
        directory if it is missing, then start the download the protocol
        names, if any. */
    method Download(loc: Location)
      modifies this
      ensures existing == old(existing) + {loc.destinationPath}
      ensures commands == old(commands) + DownloadCommands(dryrun, loc)
    {
      if loc.destinationPath !in existing {
        existing := existing + {loc.destinationPath};
      }
      if loc.protocol == Some("rsync") {
        commands := commands + [RsyncDownloadArgv(dryrun, loc.sourceUrl, loc.destinationPath)];
      } else if loc.protocol == Some("curl") {
        commands := commands + [CurlArgv(loc.sourceUrl, loc.destinationPath)];
      }
    }

    /** The loop of download_updates over the flattened locations. */
    method DownloadAll()
      modifies this
      ensures existing == DownloadRun(old(existing), dryrun, locations).0
      ensures commands == old(commands) + DownloadRun(old(existing), dryrun, locations).1
    {
      ghost var existing0, commands0 := existing, commands;
      var i := 0;
      while i < |locations|
        invariant 0 <= i <= |locations|
        invariant existing == DownloadRun(existing0, dryrun, locations[..i]).0
        invariant commands == commands0 + DownloadRun(existing0, dryrun, locations[..i]).1
      {
        ghost var before := DownloadRun(existing0, dryrun, locations[..i]).1;
        Download(locations[i]);
        DownloadRunSnoc(existing0, dryrun, locations, i);
        ConcatAssoc(commands0, before, DownloadCommands(dryrun, locations[i]));
        i := i + 1;
      }
      assert locations[..i] == locations;
    }

    /** The restart loop at the end of download_updates. */
    method RestartServices()
      modifies this
      ensures existing == old(existing)
      ensures commands == old(commands) + [RestartArgv("apache2")]
    {
      var j := 0;
      while j < |RestartedServices|
        invariant 0 <= j <= |RestartedServices|
        invariant existing == old(existing)
        invariant commands == old(commands) + RestartCommands(RestartedServices[..j])
      {
        assert RestartedServices[..j + 1][..j] == RestartedServices[..j];
        commands := commands + [RestartArgv(RestartedServices[j])];
        j := j + 1;
      }
      assert RestartedServices[..j] == ["apache2"];
    }

    /** The try block of download_updates. `chownExit` is the exit status
        of chown; a non-zero status ends the block with the exception. */
    method TryBlock(chownExit: int) returns (raised: Option<PyError>)
      modifies this
      ensures raised == ChownRaises(chownExit)
      ensures existing == DownloadRun(old(existing), dryrun, locations).0
      ensures commands == old(commands) + TryCommands(old(existing), dryrun, locations, destinationLocation, chownExit)
    {
      DownloadAll();
      commands := commands + [ChownArgv(destinationLocation)];
      if chownExit != 0 {
        return Some(CalledProcessError(chownExit));
      }
      RestartServices();
      return None;
    }

    /** PackageDownloader.download_updates with the intended handler: a
        failed chown is logged and the run ends normally. */
    method DownloadUpdates(chownExit: int) returns (end: DownloadEnd)
      modifies this
      ensures existing == DownloadRun(old(existing), dryrun, locations).0
      ensures commands == old(commands) + TryCommands(old(existing), dryrun, locations, destinationLocation, chownExit)
      ensures !end.Raised?
      ensures end == ErrorLogged <==> chownExit != 0
    {
      var raised := TryBlock(chownExit);
      end := HandlerCorrected(raised);
    }

    /** PackageDownloader.download_updates as written: the same commands,
        but a failed chown makes the handler raise AttributeError. */
    method DownloadUpdatesAsWritten(chownExit: int) returns (end: DownloadEnd)
      modifies this
      ensures existing == DownloadRun(old(existing), dryrun, locations).0
      ensures commands == old(commands) + TryCommands(old(existing), dryrun, locations, destinationLocation, chownExit)
      ensures end == Raised(AttributeError("log_error")) <==> chownExit != 0
      ensures chownExit == 0 ==> end == Completed
    {
      var raised := TryBlock(chownExit);
      end := HandlerAsWritten(raised);
    }
  }

  lemma ItemsSnoc(ds: seq<DistributionConfig>, i: nat)
    requires i < |ds|
    ensures Items(ds[..i + 1]) == Items(ds[..i]) + DistItems(ds[i])
  {
    assert ds[..i + 1][..i] == ds[..i];
  }

  lemma VersionSnoc(dist: string, vs: seq<VersionConfig>, j: nat)
    requires j < |vs|
    ensures VersionItems(dist, vs[..j + 1]) == VersionItems(dist, vs[..j]) + EntryItems(dist, vs[j].entries)
  {
    assert vs[..j + 1][..j] == vs[..j];
  }

  lemma FoldSnoc(st: Flattening, destRoot: Option<string>, p: seq<Item>, x: Item)
    ensures Fold(st, destRoot, p + [x]) == Apply(Fold(st, destRoot, p), destRoot, x)
  {
    assert (p + [x])[..|p|] == p;
  }

  /** The body of the constructor's innermost loop: one location entry,
      with the carried variables as local state. */
  method FlattenEntry(st: Flattening, destRoot: Option<string>, dist: string, e: LocationEntry)
    returns (r: Flattening)
    ensures r == Apply(st, destRoot, Entry(dist, e))
  {
    if st.error.Some? {
      return st;
    }
    var sourceLocation, protocol, sourcePath := st.carried.sourceLocation, st.carried.protocol, st.carried.sourcePath;
    if e.first.None? {
      return Flattening(st.carried, st.locations, Some(IndexError));
    }
    var locationStr := e.first.value;
    var sourceDistribution, destinationDistribution := dist, dist;
    var altDestination: Option<string> := None;
    if e.override {
      sourceLocation := OrElse(e.sourceLocation, sourceLocation);
      sourcePath := e.sourcePath;
      sourceDistribution := NameOr(e.sourceDistribution, sourceDistribution);
      protocol := OrElse(e.protocol, protocol);
      altDestination := e.altDestination;
      destinationDistribution := NameOr(e.destinationDistribution, destinationDistribution);
    }
    var c := Carried(sourceLocation, protocol, sourcePath);
    assert c == Override(st.carried, e.override, e.sourceLocation, e.protocol, e.sourcePath);
    if destRoot.None? {
      return Flattening(c, st.locations, Some(TypeError));
    }
    var sourceUrl := Show(sourceLocation) + "/" + sourceDistribution + "/" + locationStr;
    var destinationPath := PathJoin3(destRoot.value, destinationDistribution, locationStr);
    if Truthy(sourcePath) {
      sourceUrl := Show(sourceLocation) + "/" + sourcePath.value + "/" + sourceDistribution + "/" + locationStr;
    }
    if Truthy(altDestination) {
      destinationPath := PathJoin3(destRoot.value, destinationDistribution, altDestination.value);
    }
    assert sourceUrl == SourceUrl(c, sourceDistribution, locationStr);
    assert Location(protocol, sourceUrl, destinationPath) == EntryRecord(c, destRoot.value, dist, e, locationStr);
    return Flattening(c, st.locations + [Location(protocol, sourceUrl, destinationPath)], None);
  }

  /** The constructor's innermost loop, over one version's location
      entries. An exception marks the state as failed; the remaining
      entries then leave it alone. */
  method FlattenEntries(st: Flattening, destRoot: Option<string>, dist: string, es: seq<LocationEntry>)
    returns (r: Flattening)
    ensures r == Fold(st, destRoot, EntryItems(dist, es))
  {
    r := st;
    var k := 0;
    assert es[..0] == [];
    while k < |es|
      invariant 0 <= k <= |es|
      invariant r == Fold(st, destRoot, EntryItems(dist, es[..k]))
    {
      r := FlattenEntry(r, destRoot, dist, es[k]);
      EntryStep(st, destRoot, dist, es, k);
      k := k + 1;
    }
    assert es[..k] == es;
  }

  /** The middle loop of the constructor, over one distribution's
      versions; the innermost loop is FlattenEntries. */
  method FlattenVersions(st: Flattening, destRoot: Option<string>, dist: string, vs: seq<VersionConfig>)
    returns (r: Flattening)
    ensures r == Fold(st, destRoot, VersionItems(dist, vs))
  {
    r := st;
    var j := 0;
    assert vs[..0] == [];
    while j < |vs|
      invariant 0 <= j <= |vs|
      invariant r == Fold(st, destRoot, VersionItems(dist, vs[..j]))
    {
      r := FlattenEntries(r, destRoot, dist, vs[j].entries);
      FoldAppend(st, destRoot, VersionItems(dist, vs[..j]), EntryItems(dist, vs[j].entries));
      VersionSnoc(dist, vs, j);
      j := j + 1;
    }
    assert vs[..j] == vs;
  }

  /** The body of the constructor's outer loop: one distribution's
      override block and the loops over its versions. */
  method FlattenDistribution(st: Flattening, destRoot: Option<string>, d: DistributionConfig)
    returns (r: Flattening)
    ensures r == Fold(st, destRoot, DistItems(d))
  {
    var sourceLocation, protocol, sourcePath := st.carried.sourceLocation, st.carried.protocol, st.carried.sourcePath;
    var error := st.error;
    if error.None? && d.override {
      sourceLocation := OrElse(d.sourceLocation, sourceLocation);
      protocol := OrElse(d.protocol, protocol);
      sourcePath := d.sourcePath;
    }
    if error.None? && d.versions.None? {
      error := Some(AttributeError("items"));
    }
    r := Flattening(Carried(sourceLocation, protocol, sourcePath), st.locations, error);
    assert r == Fold(st, destRoot, [Enter(d)]) by {
      assert r == Apply(st, destRoot, Enter(d));
      assert [Enter(d)][..0] == [];
    }
    ghost var entered := r;
    ghost var rest := if d.versions.Some? then VersionItems(d.name, d.versions.value) else [];
    if d.versions.Some? {
      r := FlattenVersions(r, destRoot, d.name, d.versions.value);
    }
    assert r == Fold(entered, destRoot, rest);
    FoldAppend(st, destRoot, [Enter(d)], rest);
  }

  /** The constructor's outer loop, over the distributions. */
  method FlattenLocations(globalSource: Option<string>, globalProtocol: Option<string>, destRoot: Option<string>,
                          ds: seq<DistributionConfig>) returns (r: Result<seq<Location>>)
    ensures r == Flatten(globalSource, globalProtocol, destRoot, Some(ds))
  {
    var st := Flattening(Carried(globalSource, globalProtocol, None), [], None);
    ghost var st0 := st;
    var i := 0;
    while i < |ds|
      invariant 0 <= i <= |ds|
      invariant st == Fold(st0, destRoot, Items(ds[..i]))
    {
      st := FlattenDistribution(st, destRoot, ds[i]);
      assert st == Fold(st0, destRoot, Items(ds[..i + 1])) by {
        FoldAppend(st0, destRoot, Items(ds[..i]), DistItems(ds[i]));
        ItemsSnoc(ds, i);
      }
      i := i + 1;
    }
    assert ds[..i] == ds;
    if st.error.Some? {
      return Err(st.error.value);
    }
    return Ok(st.locations);
  }

  // ---- the mail handler ----

  /** A log record as the formatter sees it. */
  datatype LogRecord = LogRecord(asctime: string, levelname: string, message: string)

  /** "%(asctime)s - %(levelname)s - %(message)s". */
  function FormatRecord(r: LogRecord): string
  {
    r.asctime + " - " + r.levelname + " - " + r.message
  }

  /** What a flush hands on. */
  datatype Sent =
    | Sendmail(user: string, message: string)
    | Smtp(mailhost: string, fromaddr: string, toaddrs: seq<Option<string>>, subject: Option<string>,
           credentials: Option<(string, string)>, message: string)

  /** MailHandler: emit buffers formatted records, flush sends them as one
      message and empties the buffer. */
  class MailHandler {
    const localUser: Option<string>
    const mailhost: Option<string>
    const fromaddr: Option<string>
    const toaddrs: seq<Option<string>>
    const subject: Option<string>
    const credentials: Option<(string, string)>
    var buffer: seq<string>
    /** The messages handed to sendmail or to the SMTP handler. */
    var sent: seq<Sent>

    constructor (localUser: Option<string>, mailhost: Option<string>, fromaddr: Option<string>,
                 toaddrs: seq<Option<string>>, subject: Option<string>, credentials: Option<(string, string)>)
      ensures this.localUser == localUser && this.mailhost == mailhost && this.fromaddr == fromaddr
      ensures this.toaddrs == toaddrs && this.subject == subject && this.credentials == credentials
      ensures buffer == [] && sent == []
    {
      this.localUser := localUser;
      this.mailhost := mailhost;
      this.fromaddr := fromaddr;
      this.toaddrs := toaddrs;
      this.subject := subject;
      this.credentials := credentials;
      buffer := [];
      sent := [];
    }

    /** `self.__mode == "local"`. */
    predicate LocalMode()
    {
      Truthy(localUser)
    }

    /** The SMTP settings pass the completeness check of __send_smtp. */
    predicate SmtpComplete()
    {
      Truthy(mailhost) && Truthy(fromaddr) && |toaddrs| > 0
    }

    method Emit(record: LogRecord)
      modifies this
      ensures buffer == old(buffer) + [FormatRecord(record)]
      ensures sent == old(sent)
    {
      buffer := buffer + [FormatRecord(record)];
    }

    method Flush()
      modifies this
      ensures buffer == []
      ensures LocalMode() ==> sent == old(sent) + [Sendmail(localUser.value, Join(old(buffer), "\n"))]
      ensures !LocalMode() && SmtpComplete() ==>
                sent == old(sent) + [Smtp(mailhost.value, fromaddr.value, toaddrs, subject, credentials, Join(old(buffer), "\n"))]
      ensures !LocalMode() && !SmtpComplete() ==> sent == old(sent)
    {
      var message := Join(buffer, "\n");
      if Truthy(localUser) {
        sent := sent + [Sendmail(localUser.value, message)];
      } else if Truthy(mailhost) && Truthy(fromaddr) && |toaddrs| > 0 {
        sent := sent + [Smtp(mailhost.value, fromaddr.value, toaddrs, subject, credentials, message)];
      }
      buffer := [];
    }
  }

  /** The handler __create_mail_handler builds for the mail settings. */
  method CreateMailHandler(settings: MailSettings) returns (h: MailHandler)
    requires !settings.NoMail?
    ensures fresh(h) && h.buffer == [] && h.sent == []
    ensures settings.LocalMail? ==> h.localUser == Some(settings.user) && (h.LocalMode() <==> settings.user != "")
    ensures settings.SmtpMail? ==> !h.LocalMode() && h.mailhost == settings.server && h.fromaddr == settings.from
                                   && h.toaddrs == [settings.to] && h.subject == Some(settings.subject)
                                   && h.credentials == settings.credentials
  {
    match settings
    case LocalMail(user) =>
      h := new MailHandler(Some(user), None, None, [], None, None);
    case SmtpMail(server, to, from, subject, credentials) =>
      h := new MailHandler(None, server, from, [to], Some(subject), credentials);
  }

  /** A flushed message splits back on newlines into the records emitted
      since the last flush, provided no record spans lines. */
  lemma FlushedMessageSplitsBack(buffer: seq<string>)
    requires |buffer| >= 1
    requires forall k :: 0 <= k < |buffer| ==> '\n' !in buffer[k]
    ensures SplitOn(Join(buffer, "\n"), '\n') == buffer
  {
    SplitJoin(buffer, '\n');
  }

  /** With a to_address given and from_address missing, the sender falls
      back to the recipient, so the completeness check passes exactly when
      a mail server is set. */
  lemma SmtpFallbackSender(m: MailConfig, configFile: string, downloadDate: string, h: MailHandler)
    requires !Truthy(m.localDeliveryUser) && Truthy(m.toAddress) && m.fromAddress.None?
    requires var s := MailSettingsFor(Some(m), configFile, downloadDate);
             s.SmtpMail? && h.mailhost == s.server && h.fromaddr == s.from && h.toaddrs == [s.to]
    ensures h.SmtpComplete() <==> Truthy(m.mailServer)
  {
  }
}
