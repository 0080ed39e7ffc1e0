/**
 * The command-line driver of wandarr/transcode.py: the host override that
 * disables hosts in the loaded configuration, the expansion of the file
 * arguments, and the derivation of the package-wide flags in `start`,
 * with every early exit it takes.
 */
module Transcode {
  import opened Wrappers
  import Strings
  import Utils

  /** One host's settings: keys such as `type` and `status` with their values. */
  type HostConfig = map<string, string>

  /** `config.get("type")`. */
  function HostType(config: HostConfig): Option<string> {
    if "type" in config then Some(config["type"]) else None
  }

  /** The host's settings with `status` set to `disabled`. */
  function Disabled(config: HostConfig): HostConfig {
    config["status" := "disabled"]
  }

  predicate IsDisabled(config: HostConfig) {
    "status" in config && config["status"] == "disabled"
  }

  /** `-l`: a host keeps its settings only when its type is `local`. */
  function LocalOnlyEntry(config: HostConfig): HostConfig {
    if HostType(config) != Some("local") then Disabled(config) else config
  }

  /** `--hosts`: a host keeps its settings only when its name is listed. */
  function OverrideEntry(name: string, hostList: seq<string>, config: HostConfig): HostConfig {
    if name !in hostList then Disabled(config) else config
  }

  function LocalOnlyHosts(hosts: map<string, HostConfig>): map<string, HostConfig> {
    map name | name in hosts :: LocalOnlyEntry(hosts[name])
  }

  function OverriddenHosts(hosts: map<string, HostConfig>, hostList: seq<string>): map<string, HostConfig> {
    map name | name in hosts :: OverrideEntry(name, hostList, hosts[name])
  }

  /**
   * `setup_host_override` as a function of the host map: `-l` wins over
   * `--hosts`, whose value is split on commas; with neither nothing changes.
   */
  function HostOverride(hosts: map<string, HostConfig>, hostOverride: Option<string>, localOnly: bool)
    : map<string, HostConfig>
  {
    if localOnly then LocalOnlyHosts(hosts)
    else if hostOverride.Some? then OverriddenHosts(hosts, Strings.Split(hostOverride.value, ','))
    else hosts
  }

  /**
   * The loaded configuration file: the host map the override edits in
   * place, the console flag, the `metadata` setting and the template names
   * in file order.  Loading and parsing the file are not part of this model.
   */
  class ConfigFile {
    var hosts: map<string, HostConfig>
    var rich: bool
    const metadata: bool
    const templateNames: seq<string>

    constructor(hosts: map<string, HostConfig>, rich: bool, metadata: bool, templateNames: seq<string>)
      ensures this.hosts == hosts && this.rich == rich
      ensures this.metadata == metadata && this.templateNames == templateNames
    {
      this.hosts := hosts;
      this.rich := rich;
      this.metadata := metadata;
      this.templateNames := templateNames;
    }
  }

  /**
   * `setup_host_override`: with `-l`, every host whose type is not `local`
   * is disabled and the override is ignored; otherwise, with `--hosts`,
   * every host not named in the comma-separated list is disabled.
   */
  method SetupHostOverride(hostOverride: Option<string>, localOnly: bool, configfile: ConfigFile)
    modifies configfile
    ensures configfile.hosts == HostOverride(old(configfile.hosts), hostOverride, localOnly)
    ensures configfile.rich == old(configfile.rich)
  {
    ghost var hosts := configfile.hosts;
    if localOnly {
      var remaining := configfile.hosts.Keys;
      while remaining != {}
        invariant remaining <= hosts.Keys && configfile.hosts.Keys == hosts.Keys
        invariant configfile.rich == old(configfile.rich)
        invariant forall name :: name in hosts ==>
                    configfile.hosts[name] == if name in remaining then hosts[name] else LocalOnlyEntry(hosts[name])
        decreases remaining
      {
        var name :| name in remaining;
        var config := configfile.hosts[name];
        if HostType(config) != Some("local") {
          configfile.hosts := configfile.hosts[name := Disabled(config)];
        }
        remaining := remaining - {name};
      }
      return;
    }
    if hostOverride.Some? {
      var hostList := Strings.Split(hostOverride.value, ',');
      var remaining := configfile.hosts.Keys;
      while remaining != {}
        invariant remaining <= hosts.Keys && configfile.hosts.Keys == hosts.Keys
        invariant configfile.rich == old(configfile.rich)
        invariant forall name :: name in hosts ==>
                    configfile.hosts[name]
                    == if name in remaining then hosts[name] else OverrideEntry(name, hostList, hosts[name])
        decreases remaining
      {
        var name :| name in remaining;
        if name !in hostList {
          configfile.hosts := configfile.hosts[name := Disabled(configfile.hosts[name])];
        }
        remaining := remaining - {name};
      }
    }
  }

  /**
   * With `-l`, a host ends up disabled exactly when it is not of type
   * `local` or was disabled already; local hosts are untouched, the other
   * settings of a disabled host are kept, no host is added or removed, and
   * `--hosts` is ignored.
   */
  lemma LocalOnlyDisablesNonLocal(hosts: map<string, HostConfig>, hostOverride: Option<string>)
    ensures var r := HostOverride(hosts, hostOverride, true);
            && r.Keys == hosts.Keys
            && r == HostOverride(hosts, None, true)
            && forall name :: name in hosts ==>
                 && (IsDisabled(r[name]) <==> HostType(hosts[name]) != Some("local") || IsDisabled(hosts[name]))
                 && (HostType(hosts[name]) == Some("local") ==> r[name] == hosts[name])
                 && forall key :: key in hosts[name] && key != "status" ==> key in r[name] && r[name][key] == hosts[name][key]
  {
    var r := HostOverride(hosts, hostOverride, true);
    forall name | name in hosts
      ensures IsDisabled(r[name]) <==> HostType(hosts[name]) != Some("local") || IsDisabled(hosts[name])
    {
      assert r[name] == LocalOnlyEntry(hosts[name]);
    }
  }

  /**
   * With `--hosts` and no `-l`, a host ends up disabled exactly when its
   * name is not in the comma-split list or it was disabled already: a
   * listed host is left exactly as it was (never re-enabled), and no host
   * is added or removed.
   */
  lemma OverrideDisablesUnlisted(hosts: map<string, HostConfig>, hostOverride: string)
    ensures var r := HostOverride(hosts, Some(hostOverride), false);
            var hostList := Strings.Split(hostOverride, ',');
            && r.Keys == hosts.Keys
            && forall name :: name in hosts ==>
                 && (IsDisabled(r[name]) <==> name !in hostList || IsDisabled(hosts[name]))
                 && (name in hostList ==> r[name] == hosts[name])
  {
    var r := HostOverride(hosts, Some(hostOverride), false);
    var hostList := Strings.Split(hostOverride, ',');
    forall name | name in hosts
      ensures IsDisabled(r[name]) <==> name !in hostList || IsDisabled(hosts[name])
    {
      assert r[name] == OverrideEntry(name, hostList, hosts[name]);
    }
  }

  /** Names in the list that are not hosts make no difference. */
  lemma UnknownNamesIgnored(hosts: map<string, HostConfig>, hostList: seq<string>, extra: seq<string>)
    requires forall i :: 0 <= i < |extra| ==> extra[i] !in hosts
    ensures OverriddenHosts(hosts, hostList + extra) == OverriddenHosts(hosts, hostList)
  {
    forall name | name in hosts
      ensures OverrideEntry(name, hostList + extra, hosts[name]) == OverrideEntry(name, hostList, hosts[name])
    {
      assert name in hostList + extra <==> name in hostList;
    }
  }

  /**
   * `--hosts a,b`: for names without commas, joining them with commas and
   * overriding keeps exactly the named hosts and disables every other one.
   */
  lemma OverrideOfJoinedNames(hosts: map<string, HostConfig>, names: seq<string>)
    requires |names| >= 1 && forall i :: 0 <= i < |names| ==> ',' !in names[i]
    ensures var r := HostOverride(hosts, Some(Strings.Join(names, ',')), false);
            forall name :: name in hosts ==> r[name] == if name in names then hosts[name] else Disabled(hosts[name])
  {
    Strings.SplitJoin(names, ',');
  }

  /** With neither `-l` nor `--hosts` the host map is unchanged. */
  lemma NoOverrideUnchanged(hosts: map<string, HostConfig>)
    ensures HostOverride(hosts, None, false) == hosts
  {}

  /** Applying the override a second time changes nothing: disabling is idempotent. */
  lemma HostOverrideIdempotent(hosts: map<string, HostConfig>, hostOverride: Option<string>, localOnly: bool)
    ensures var once := HostOverride(hosts, hostOverride, localOnly);
            HostOverride(once, hostOverride, localOnly) == once
  {
    var once := HostOverride(hosts, hostOverride, localOnly);
    if localOnly {
      forall name | name in once ensures LocalOnlyEntry(once[name]) == once[name] {
        assert HostType(Disabled(hosts[name])) == HostType(hosts[name]);
      }
    } else if hostOverride.Some? {
      var hostList := Strings.Split(hostOverride.value, ',');
      forall name | name in once ensures OverrideEntry(name, hostList, once[name]) == once[name] {
        assert Disabled(Disabled(hosts[name])) == Disabled(hosts[name]);
      }
    }
  }

  /** Each argument's matches, in argument order: what the two `for` loops collect. */
  function Expand(files: seq<string>, glob: string -> seq<string>): seq<string> {
    if files == [] then [] else Expand(files[..|files| - 1], glob) + glob(files[|files| - 1])
  }

  /** Expanding a longer argument list appends the expansions. */
  lemma {:induction false} ExpandAppend(a: seq<string>, b: seq<string>, glob: string -> seq<string>)
    ensures Expand(a + b, glob) == Expand(a, glob) + Expand(b, glob)
    decreases |b|
  {
    if b == [] {
      assert a + b == a;
    } else {
      assert (a + b)[..|a + b| - 1] == a + b[..|b| - 1];
      ExpandAppend(a, b[..|b| - 1], glob);
    }
  }

  /** A path is in the expansion exactly when some argument's pattern matches it. */
  lemma {:induction false} ExpandMembership(files: seq<string>, glob: string -> seq<string>, path: string)
    ensures path in Expand(files, glob) <==> exists i :: 0 <= i < |files| && path in glob(files[i])
    decreases |files|
  {
    if files != [] {
      var init := files[..|files| - 1];
      ExpandMembership(init, glob, path);
      if path in Expand(files, glob) && path !in glob(files[|files| - 1]) {
        var i :| 0 <= i < |init| && path in glob(init[i]);
        assert files[i] == init[i];
      }
      if exists i :: 0 <= i < |files| && path in glob(files[i]) {
        var i :| 0 <= i < |files| && path in glob(files[i]);
        if i < |init| {
          assert init[i] == files[i];
        }
      }
    }
  }

  /** What `finalize_files` does: exit, or hand back the list of files. */
  datatype Finalized = NothingToDo | FileList(files: seq<string>)

  /**
   * `finalize_files` as a function: with no arguments and no from-file
   * there is nothing to do; otherwise every argument is replaced by its
   * matches, and the from-file's entries come after them.
   */
  function FinalizedFiles(files: seq<string>, fromFile: string, glob: string -> seq<string>,
                          fromFileEntries: seq<string>): Finalized {
    if |files| == 0 && fromFile == "" then NothingToDo
    else FileList(Expand(files, glob) + if fromFile != "" then fromFileEntries else [])
  }

  /**
   * `finalize_files`, with `glob.glob` and the from-file's lines given.  An
   * argument matching nothing drops out, even when it names a file.
   */
  method FinalizeFiles(files: seq<string>, fromFile: string, glob: string -> seq<string>,
                       fromFileEntries: seq<string>) returns (r: Finalized)
    ensures r == FinalizedFiles(files, fromFile, glob, fromFileEntries)
  {
    if |files| == 0 && fromFile == "" {
      return NothingToDo;
    }
    var enriched: seq<string> := [];
    var i := 0;
    while i < |files|
      invariant 0 <= i <= |files|
      invariant enriched == Expand(files[..i], glob)
    {
      var expanded := glob(files[i]);
      var j := 0;
      while j < |expanded|
        invariant 0 <= j <= |expanded|
        invariant enriched == Expand(files[..i], glob) + expanded[..j]
      {
        enriched := enriched + [expanded[j]];
        j := j + 1;
      }
      assert expanded[..j] == expanded;
      assert files[..i + 1][..i] == files[..i];
      i := i + 1;
    }
    assert files[..i] == files;
    if fromFile != "" {
      enriched := enriched + fromFileEntries;
    }
    return FileList(enriched);
  }

  /** No arguments and no from-file: nothing to do; otherwise every listed path comes from a pattern or the from-file. */
  lemma FinalizedFilesContents(files: seq<string>, fromFile: string, glob: string -> seq<string>,
                               fromFileEntries: seq<string>, path: string)
    ensures FinalizedFiles(files, fromFile, glob, fromFileEntries) == NothingToDo <==> |files| == 0 && fromFile == ""
    ensures var r := FinalizedFiles(files, fromFile, glob, fromFileEntries);
            r.FileList? ==>
              (path in r.files <==>
                 (exists i :: 0 <= i < |files| && path in glob(files[i])) || (fromFile != "" && path in fromFileEntries))
  {
    ExpandMembership(files, glob, path);
  }

  /** The parsed command line, with `""` for an option that was not given. */
  datatype Args = Args(
    files: seq<string>,
    verbose: bool,
    showInfo: bool,
    localOnly: bool,
    outputPath: string,
    dryRun: bool,
    agentMode: bool,
    template: string,
    hostOverride: Option<string>,
    fromFile: string,
    console: bool,
    ping: bool,
    overwriteSource: bool,
    noSkipExisting: bool,
    metadata: bool)

  /** The package-wide flags `start` sets. */
  datatype Flags = Flags(
    verbose: bool,
    skipExisting: bool,
    dryRun: bool,
    showInfo: bool,
    doPing: bool,
    copyMetadata: bool,
    outputFolder: string,
    overwriteSource: bool)

  /** Where `start` stops, with its exit status, or the hand-off to the cluster. */
  datatype Stop =
    | ExiftoolMissing
    | AgentServed
    | TemplatesListed(names: seq<string>)
    | NoFiles
    | InfoShown(files: seq<string>)
    | NoTemplate
    | Cluster(files: seq<string>, template: string)

  function ExitCode(stop: Stop): int {
    match stop
    case ExiftoolMissing => 1
    case NoTemplate => 1
    case _ => 0
  }

  /** The flags as first read from the command line. */
  function ArgFlags(args: Args): Flags {
    Flags(args.verbose, !args.noSkipExisting, args.dryRun, args.showInfo, args.ping, args.metadata,
          args.outputPath, args.overwriteSource)
  }

  /** The flags after the overwrite and show-info corrections. */
  function CorrectedFlags(args: Args): Flags {
    var f := ArgFlags(args);
    var f := if f.overwriteSource then f.(skipExisting := false) else f;
    if f.showInfo then f.(dryRun := true) else f
  }

  /** Metadata copying was asked for and the exiftool probe failed. */
  predicate ExiftoolMissingFor(args: Args, exiftoolFound: bool) {
    args.metadata && !exiftoolFound
  }

  /** Agent mode survives `-i` only when `-i` is absent. */
  predicate ServesAgent(args: Args) {
    args.agentMode && !args.showInfo
  }

  /** `start` goes on to read the configuration. */
  predicate PastAgent(args: Args, exiftoolFound: bool) {
    !ExiftoolMissingFor(args, exiftoolFound) && !ServesAgent(args)
  }

  /** The flags `start` leaves behind, whichever way it ends. */
  function FinalFlags(args: Args, exiftoolFound: bool, configMetadata: bool): Flags {
    var f := CorrectedFlags(args);
    if PastAgent(args, exiftoolFound) && !f.copyMetadata && configMetadata then f.(copyMetadata := true) else f
  }

  /**
   * Where `start` ends, in source order: the exiftool probe, agent mode,
   * `-t ?`, an empty file list, show-info, a missing template, and
   * otherwise the hand-off of the files and the template to the cluster.
   */
  function StartStop(args: Args, exiftoolFound: bool, templateNames: seq<string>, glob: string -> seq<string>,
                     fromFileEntries: seq<string>): Stop
  {
    if ExiftoolMissingFor(args, exiftoolFound) then ExiftoolMissing
    else if ServesAgent(args) then AgentServed
    else if args.template == "?" then TemplatesListed(templateNames)
    else match FinalizedFiles(args.files, args.fromFile, glob, fromFileEntries)
      case NothingToDo => NoFiles
      case FileList(files) => Launched(args.showInfo, args.template, files)
  }

  /** With a non-empty file list: show-info, a missing template, or the cluster. */
  function Launched(showInfo: bool, template: string, files: seq<string>): Stop {
    if showInfo then InfoShown(files)
    else if template == "" then NoTemplate
    else Cluster(files, template)
  }

  /** The stops reached after the host override has been applied. */
  predicate PastHostOverride(stop: Stop) {
    stop.InfoShown? || stop.NoTemplate? || stop.Cluster?
  }

  /** The host map `start` leaves behind, given where it stopped. */
  function FinalHosts(args: Args, stop: Stop, hosts: map<string, HostConfig>): map<string, HostConfig> {
    if PastHostOverride(stop) then HostOverride(hosts, args.hostOverride, args.localOnly) else hosts
  }

  /** The console flag: `--console` turns rich output off once the configuration is read. */
  function FinalRich(args: Args, exiftoolFound: bool, rich: bool): bool {
    if PastAgent(args, exiftoolFound) && args.console then false else rich
  }

  /** Skip-existing is on exactly when neither `--no_skip_existing` nor `--overwrite_original` is given. */
  lemma SkipExistingRule(args: Args, exiftoolFound: bool, configMetadata: bool)
    ensures FinalFlags(args, exiftoolFound, configMetadata).skipExisting <==> !args.noSkipExisting && !args.overwriteSource
  {}

  /** `-i` forces a dry run, never serves as an agent, and never reaches the cluster or the template check. */
  lemma ShowInfoForcesDryRun(args: Args, exiftoolFound: bool, configMetadata: bool, templateNames: seq<string>,
                             glob: string -> seq<string>, fromFileEntries: seq<string>)
    requires args.showInfo
    ensures var f := FinalFlags(args, exiftoolFound, configMetadata);
            f.dryRun && f.showInfo
    ensures var stop := StartStop(args, exiftoolFound, templateNames, glob, fromFileEntries);
            && !stop.AgentServed? && !stop.Cluster? && !stop.NoTemplate?
            && ExitCode(stop) == (if stop.ExiftoolMissing? then 1 else 0)
  {}

  /**
   * Metadata copying ends up on exactly when `--no-metadata` is absent or,
   * once the configuration is read, its `metadata` setting asks for it; in
   * the second case the exiftool probe is never run.
   */
  lemma CopyMetadataRule(args: Args, exiftoolFound: bool, configMetadata: bool, templateNames: seq<string>,
                         glob: string -> seq<string>, fromFileEntries: seq<string>)
    ensures FinalFlags(args, exiftoolFound, configMetadata).copyMetadata
            <==> args.metadata || (PastAgent(args, exiftoolFound) && configMetadata)
    ensures !args.metadata && configMetadata && !ServesAgent(args) ==>
              && FinalFlags(args, exiftoolFound, configMetadata).copyMetadata
              && !StartStop(args, exiftoolFound, templateNames, glob, fromFileEntries).ExiftoolMissing?
  {}

  /**
   * The early exits in order: exiftool missing (status 1) and agent mode
   * (status 0) before the configuration is touched; `-t ?` lists the
   * templates (status 0) before the files are looked at; no files (status
   * 0) before the hosts are touched; and a missing template (status 1)
   * only after all that, unless `-i` stopped first.
   */
  lemma StartExits(args: Args, exiftoolFound: bool, templateNames: seq<string>, glob: string -> seq<string>,
                   fromFileEntries: seq<string>)
    ensures var stop := StartStop(args, exiftoolFound, templateNames, glob, fromFileEntries);
            && (stop.ExiftoolMissing? <==> args.metadata && !exiftoolFound)
            && (stop.AgentServed? <==> !stop.ExiftoolMissing? && args.agentMode && !args.showInfo)
            && (stop.TemplatesListed? <==> PastAgent(args, exiftoolFound) && args.template == "?")
            && (stop.TemplatesListed? ==> stop.names == templateNames)
            && (stop.NoFiles? <==>
                  PastAgent(args, exiftoolFound) && args.template != "?" && args.files == [] && args.fromFile == "")
            && (stop.NoTemplate? <==>
                  && PastAgent(args, exiftoolFound) && !args.showInfo && args.template == ""
                  && !(args.files == [] && args.fromFile == ""))
            && (stop.Cluster? ==> stop.template == args.template && args.template != "" && args.template != "?")
            && (ExitCode(stop) == 1 <==> stop.ExiftoolMissing? || stop.NoTemplate?)
  {}

  /** The files shown or handed to the cluster are exactly the finalized list. */
  lemma StartHandsOnFiles(args: Args, exiftoolFound: bool, templateNames: seq<string>, glob: string -> seq<string>,
                          fromFileEntries: seq<string>)
    ensures var stop := StartStop(args, exiftoolFound, templateNames, glob, fromFileEntries);
            stop.InfoShown? || stop.Cluster? ==>
              FinalizedFiles(args.files, args.fromFile, glob, fromFileEntries) == FileList(stop.files)
  {}

  /** The host map is overridden only once the file list is known to be non-empty. */
  lemma HostsTouchedAfterFiles(args: Args, exiftoolFound: bool, hosts: map<string, HostConfig>,
                               templateNames: seq<string>, glob: string -> seq<string>, fromFileEntries: seq<string>)
    ensures var stop := StartStop(args, exiftoolFound, templateNames, glob, fromFileEntries);
            FinalHosts(args, stop, hosts) != hosts ==>
              PastAgent(args, exiftoolFound) && args.template != "?" && !(args.files == [] && args.fromFile == "")
  {}

  /** The package's global flags, which `start` assigns one by one. */
  class Globals {
    var verbose: bool
    var skipExisting: bool
    var dryRun: bool
    var showInfo: bool
    var doPing: bool
    var copyMetadata: bool
    var outputFolder: string
    var overwriteSource: bool

    constructor()
      ensures !verbose && skipExisting && !dryRun && !showInfo && !doPing && !copyMetadata
      ensures outputFolder == "" && !overwriteSource
    {
      verbose, skipExisting, dryRun, showInfo := false, true, false, false;
      doPing, copyMetadata, outputFolder, overwriteSource := false, false, "", false;
    }

    function Current(): Flags
      reads this
    {
      Flags(verbose, skipExisting, dryRun, showInfo, doPing, copyMetadata, outputFolder, overwriteSource)
    }

    /** `start`'s flag assignments from the parsed arguments, with the overwrite and show-info corrections. */
    method ParseFlags(args: Args) returns (agentMode: bool)
      modifies this
      ensures Current() == CorrectedFlags(args)
      ensures agentMode == ServesAgent(args)
    {
      verbose := args.verbose;
      skipExisting := !args.noSkipExisting;
      dryRun := args.dryRun;
      showInfo := args.showInfo;
      doPing := args.ping;
      copyMetadata := args.metadata;
      outputFolder := args.outputPath;
      overwriteSource := args.overwriteSource;
      agentMode := args.agentMode;

      if overwriteSource {
        skipExisting := false;
      }
      if showInfo {
        dryRun := true;
        agentMode := false;
      }
    }

    /**
     * `start`, after argument parsing, with the configuration already
     * loaded, `exiftoolFound` standing for the probe, and `completed` for
     * what the cluster reports back.  Returns where it stopped and, after a
     * cluster run that completed something, the statistics rows.
     */
    method Start(args: Args, exiftoolFound: bool, configfile: ConfigFile, glob: string -> seq<string>,
                 fromFileEntries: seq<string>, completed: seq<(string, nat)>)
      returns (stop: Stop, stats: seq<Utils.StatLine>)
      modifies this, configfile
      ensures Current() == FinalFlags(args, exiftoolFound, configfile.metadata)
      ensures stop == StartStop(args, exiftoolFound, configfile.templateNames, glob, fromFileEntries)
      ensures configfile.hosts == FinalHosts(args, stop, old(configfile.hosts))
      ensures configfile.rich == FinalRich(args, exiftoolFound, old(configfile.rich))
      ensures !stop.Cluster? || completed == [] || dryRun ==> stats == []
      ensures stop.Cluster? && !dryRun ==>
                |stats| == |completed|
                && forall i :: 0 <= i < |stats| ==>
                     stats[i] == Utils.StatLineOf(completed[i], Utils.MaxLen(Utils.Paths(completed)))
    {
      var agentMode := ParseFlags(args);
      if copyMetadata && !exiftoolFound {
        return ExiftoolMissing, [];
      }
      if agentMode {
        return AgentServed, [];
      }
      ReadConfig(args, exiftoolFound, configfile);
      stop, stats := Proceed(args, exiftoolFound, showInfo, dryRun, configfile, glob, fromFileEntries, completed);
    }

    /** Once the configuration is loaded: `--console` and the configuration's `metadata` setting. */
    method ReadConfig(args: Args, exiftoolFound: bool, configfile: ConfigFile)
      requires PastAgent(args, exiftoolFound) && Current() == CorrectedFlags(args)
      modifies this, configfile
      ensures Current() == FinalFlags(args, exiftoolFound, configfile.metadata)
      ensures configfile.rich == FinalRich(args, exiftoolFound, old(configfile.rich))
      ensures configfile.hosts == old(configfile.hosts)
    {
      if args.console {
        configfile.rich := false;
      }
      if !copyMetadata && configfile.metadata {
        copyMetadata := true;
      }
    }
  }

  /** `start` from `-t ?` on: the templates, the file list, the host override, and the hand-off. */
  method Proceed(args: Args, exiftoolFound: bool, showInfo: bool, dryRun: bool, configfile: ConfigFile,
                 glob: string -> seq<string>, fromFileEntries: seq<string>, completed: seq<(string, nat)>)
    returns (stop: Stop, stats: seq<Utils.StatLine>)
    requires PastAgent(args, exiftoolFound) && showInfo == args.showInfo
    modifies configfile
    ensures stop == StartStop(args, exiftoolFound, configfile.templateNames, glob, fromFileEntries)
    ensures configfile.hosts == FinalHosts(args, stop, old(configfile.hosts))
    ensures configfile.rich == old(configfile.rich)
    ensures !stop.Cluster? || completed == [] || dryRun ==> stats == []
    ensures stop.Cluster? && !dryRun ==>
              |stats| == |completed|
              && forall i :: 0 <= i < |stats| ==>
                   stats[i] == Utils.StatLineOf(completed[i], Utils.MaxLen(Utils.Paths(completed)))
  {
    if args.template == "?" {
      return TemplatesListed(configfile.templateNames), [];
    }
    var finalized := FinalizeFiles(args.files, args.fromFile, glob, fromFileEntries);
    if finalized.NothingToDo? {
      return NoFiles, [];
    }
    SetupHostOverride(args.hostOverride, args.localOnly, configfile);
    stop, stats := Launch(showInfo, dryRun, args.template, finalized.files, completed);
  }

  /**
   * The end of `start` with a non-empty file list: show the information,
   * refuse a missing template, or hand the files to the cluster and, when
   * it completed something, produce the statistics rows.
   */
  method Launch(showInfo: bool, dryRun: bool, template: string, files: seq<string>, completed: seq<(string, nat)>)
    returns (stop: Stop, stats: seq<Utils.StatLine>)
    ensures stop == Launched(showInfo, template, files)
    ensures !stop.Cluster? || completed == [] || dryRun ==> stats == []
    ensures stop.Cluster? && !dryRun ==>
              |stats| == |completed|
              && forall i :: 0 <= i < |stats| ==>
                   stats[i] == Utils.StatLineOf(completed[i], Utils.MaxLen(Utils.Paths(completed)))
  {
    stats := [];
    if showInfo {
      return InfoShown(files), stats;
    }
    if template == "" {
      return NoTemplate, stats;
    }
    if |completed| > 0 {
      stats := Utils.DumpStats(dryRun, completed);
    }
    return Cluster(files, template), stats;
  }
}
