/**
 * The worker loop of wandarr/streaminghost.py: for each queued job it
 * resolves the local and remote paths, picks an output name that does not
 * clobber anything, copies the input to the host, runs the encoder, copies
 * the result back and then keeps, moves or removes it.
 *
 * The file system is a set of existing paths; every external command
 * (rsync, the remote encoder, scp, exiftool) is an exit code handed in per
 * job; what the worker does is recorded in a ghost log of effects.
 */
module StreamingHost {
  import opened Wrappers
  import Strings
  import Numbers
  import Paths
  import Utils

  /** The parts of a template the worker reads. */
  datatype Template = Template(
    name: string,
    extension: string,
    threshold: int,
    inputOptions: seq<string>,
    outputOptions: seq<string>)

  /** A queued job: the (possibly shell-escaped) input path and its template. */
  datatype EncodeJob = EncodeJob(inPath: string, template: Template)

  /** The global policy flags; an empty output folder stands for "not set". */
  datatype Settings = Settings(outputFolder: string, overwriteSource: bool, skipExisting: bool, copyMetadata: bool)

  /** The host's properties; `localSystem` is the local `platform.system()`. */
  datatype HostProps = HostProps(
    user: string,
    ip: string,
    workingDir: string,
    isWindows: bool,
    localSystem: string,
    videoCli: string,
    tempDir: string)

  /**
   * What the outside world answers for one job: the stream map, the exit
   * codes of rsync, the encoder, scp and exiftool, the encode's wall time
   * and the two file sizes the savings filter reads.
   */
  datatype JobOutcome = JobOutcome(
    streamMap: seq<string>,
    rsyncCode: int,
    encoderCode: Option<int>,
    encodeSeconds: nat,
    scpCode: int,
    origSize: nat,
    retrievedSize: nat,
    exiftoolCode: int)

  /** What the worker does, in order. */
  datatype Effect =
    | MakeDirs(folder: string)
    | SkipExisting(path: string)
    | RefuseOverwrite(path: string)
    | Status(file: string, phase: string)
    | CopyIn(args: seq<string>)
    | CopyInFailed(path: string)
    | Encode(args: seq<string>)
    | Retrieve(args: seq<string>)
    | Complete(path: string, seconds: nat)
    | Remove(path: string)
    | CopyMetadata(args: seq<string>)
    | MetadataFailed(path: string)
    | Move(source: string, target: string)
    | EncodeFailed(path: string)
    | RemoteDelete(command: string)
    | Crash(exception: Exception)
    | TaskDone

  /** Effects together with the file system they leave behind. */
  datatype Trace = Trace(effects: seq<Effect>, fs: set<string>)

  /** `'.'.join(name.split('.')[0:-1])`: the file name without its last dot-separated part. */
  function NameNoExt(name: string): string {
    var parts := Strings.Split(name, '.');
    Strings.Join(parts[..|parts| - 1], '.')
  }

  /** The last dot-separated part of a file name. */
  function LastPart(name: string): string {
    var parts := Strings.Split(name, '.');
    parts[|parts| - 1]
  }

  /**
   * The name without extension drops exactly the last dot-separated part:
   * nothing is left of a name without a dot, and otherwise the name is the
   * stem, a dot, and a dot-free last part.
   */
  lemma NameNoExtDropsLastPart(name: string)
    ensures '.' !in name ==> NameNoExt(name) == ""
    ensures '.' in name ==> '.' !in LastPart(name) && NameNoExt(name) + "." + LastPart(name) == name
  {
    var parts := Strings.Split(name, '.');
    Strings.JoinSplit(name, '.');
    if '.' !in name {
      Strings.SplitWithoutSep(name, '.');
    } else {
      assert |parts| >= 2;
      var n := |parts|;
      Strings.JoinSnoc(parts[..n - 1], parts[n - 1], '.');
      assert parts[..n - 1] + [parts[n - 1]] == parts;
    }
  }

  /** Where a job's files live. */
  datatype JobPaths = JobPaths(inPath: string, remoteIn: string, remoteOut: string, nameNoExt: string, outFolder: string)

  /**
   * The paths of a job: spaces unescaped first; the remote input keeps the
   * file name and the remote output is `<name>.tmp<ext>` in the host's
   * working directory; the output folder is the input's folder unless one
   * is set.
   */
  function ResolvePaths(workingDir: string, outputFolder: string, job: EncodeJob): JobPaths {
    var inPath := Strings.UnescapeSpaces(job.inPath);
    var base := Paths.Basename(inPath);
    var nameNoExt := NameNoExt(base);
    JobPaths(
      inPath,
      Paths.PathJoin(workingDir, base),
      Paths.PathJoin(workingDir, nameNoExt + ".tmp" + job.template.extension),
      nameNoExt,
      if outputFolder == "" then Paths.Dirname(inPath) else outputFolder)
  }

  /**
   * The remote input carries the input's file name and the remote output
   * the name without extension plus `.tmp` and the template's extension.
   */
  lemma RemoteNames(workingDir: string, outputFolder: string, job: EncodeJob)
    requires '/' !in job.template.extension
    ensures var p := ResolvePaths(workingDir, outputFolder, job);
            && Paths.Basename(p.remoteIn) == Paths.Basename(p.inPath)
            && Paths.Basename(p.remoteOut) == p.nameNoExt + ".tmp" + job.template.extension
  {
    var inPath := Strings.UnescapeSpaces(job.inPath);
    var base := Paths.Basename(inPath);
    var stem := NameNoExt(base);
    Paths.BasenameOfJoin(workingDir, base);
    NameNoExtHasNoSlash(base);
    var out := stem + ".tmp" + job.template.extension;
    assert '/' !in out;
    Paths.BasenameOfJoin(workingDir, out);
  }

  /** The name without extension of a separator-free name is separator-free. */
  lemma NameNoExtHasNoSlash(name: string)
    requires '/' !in name
    ensures '/' !in NameNoExt(name)
  {
    NameNoExtDropsLastPart(name);
    if '.' in name {
      var stem := NameNoExt(name);
      assert stem == (stem + "." + LastPart(name))[..|stem|];
    }
  }

  /** A shell-escaped input path resolves to the path before escaping. */
  lemma EscapedInputResolves(workingDir: string, outputFolder: string, raw: string, template: Template)
    ensures ResolvePaths(workingDir, outputFolder, EncodeJob(Strings.EscapeSpaces(raw), template)).inPath == raw
  {
    Strings.UnescapeEscapeSpaces(raw);
  }

  /**
   * An output name in the non-overwrite scheme: index 0 is
   * `<stem><ext>`, index k > 0 is `<stem>-k<ext>`, where the stem is
   * `<name>.wandarr-<template>`.
   */
  function Candidate(folder: string, stem: string, ext: string, k: nat): string {
    if k == 0 then Paths.PathJoin(folder, stem + ext)
    else Paths.PathJoin(folder, stem + "-" + Numbers.NatToString(k) + ext)
  }

  /** Different indices give different names. */
  lemma CandidateInjective(folder: string, stem: string, ext: string, j: nat, k: nat)
    requires |stem| > 0
    requires Candidate(folder, stem, ext, j) == Candidate(folder, stem, ext, k)
    ensures j == k
  {
    var nj := if j == 0 then stem + ext else stem + "-" + Numbers.NatToString(j) + ext;
    var nk := if k == 0 then stem + ext else stem + "-" + Numbers.NatToString(k) + ext;
    assert nj[0] == stem[0] && nk[0] == stem[0];
    Paths.PathJoinInjective(folder, nj, nk);
    if j != 0 && k != 0 {
      var dj, dk := Numbers.NatToString(j), Numbers.NatToString(k);
      assert |dj| == |dk|;
      assert dj == nj[|stem| + 1..|stem| + 1 + |dj|];
      assert dk == nk[|stem| + 1..|stem| + 1 + |dk|];
      Numbers.NatToStringInjective(j, k);
    }
  }

  /** The candidates with an index below `from`: the names already tried. */
  ghost function Tried(folder: string, stem: string, ext: string, from: nat): set<string> {
    set j | 0 <= j < from :: Candidate(folder, stem, ext, j)
  }

  /** Passing an existing candidate strictly shrinks the existing paths not yet tried. */
  lemma TriedGrows(fs: set<string>, folder: string, stem: string, ext: string, from: nat)
    requires |stem| > 0
    requires Candidate(folder, stem, ext, from) in fs
    ensures |fs - Tried(folder, stem, ext, from + 1)| < |fs - Tried(folder, stem, ext, from)|
  {
    var c := Candidate(folder, stem, ext, from);
    var before, after := Tried(folder, stem, ext, from), Tried(folder, stem, ext, from + 1);
    assert after == before + {c};
    if c in before {
      var j :| 0 <= j < from && c == Candidate(folder, stem, ext, j);
      CandidateInjective(folder, stem, ext, j, from);
    }
    var left := fs - before;
    assert c in left;
    assert fs - after == left - {c};
    assert (left - {c}) + {c} == left;
  }

  /**
   * The collision loop's answer: the first index from `from` whose
   * candidate does not exist.  It ends because the file system is finite.
   */
  function FreeIndexFrom(fs: set<string>, folder: string, stem: string, ext: string, from: nat): nat
    requires |stem| > 0
    decreases |fs - Tried(folder, stem, ext, from)|
  {
    if Candidate(folder, stem, ext, from) !in fs then from
    else
      TriedGrows(fs, folder, stem, ext, from);
      FreeIndexFrom(fs, folder, stem, ext, from + 1)
  }

  /** The index found is the first from `from` whose candidate is free: every one before it exists. */
  lemma {:induction false} FreeIndexIsFirstFree(fs: set<string>, folder: string, stem: string, ext: string, from: nat)
    requires |stem| > 0
    ensures var k := FreeIndexFrom(fs, folder, stem, ext, from);
            && from <= k && Candidate(folder, stem, ext, k) !in fs
            && forall j :: from <= j < k ==> Candidate(folder, stem, ext, j) in fs
    decreases |fs - Tried(folder, stem, ext, from)|
  {
    if Candidate(folder, stem, ext, from) in fs {
      TriedGrows(fs, folder, stem, ext, from);
      FreeIndexIsFirstFree(fs, folder, stem, ext, from + 1);
    }
  }

  /** The stem of the non-overwrite output names. */
  function Stem(paths: JobPaths, template: Template): (stem: string)
    ensures |stem| > 0
  {
    paths.nameNoExt + ".wandarr-" + template.name
  }

  /** The first output path tried: the in-place name when overwriting, else candidate 0. */
  function FirstOutPath(settings: Settings, paths: JobPaths, template: Template): string {
    if settings.overwriteSource then Paths.PathJoin(paths.outFolder, paths.nameNoExt + template.extension)
    else Candidate(paths.outFolder, Stem(paths, template), template.extension, 0)
  }

  /** Whether a job goes ahead with an output path, or stops with a logged reason. */
  datatype Decision = Proceed(outPath: string) | Stop(reason: Effect)

  /**
   * The output path: with skip-existing an existing first choice skips the
   * job; without overwrite the first free candidate is taken, and a choice
   * equal to the input path is refused.
   */
  function ChooseOutPath(settings: Settings, fs: set<string>, paths: JobPaths, template: Template): Decision {
    var first := FirstOutPath(settings, paths, template);
    if first in fs && settings.skipExisting then Stop(SkipExisting(first))
    else if settings.overwriteSource then Proceed(first)
    else
      var out := Candidate(paths.outFolder, Stem(paths, template), template.extension,
                           FreeIndexFrom(fs, paths.outFolder, Stem(paths, template), template.extension, 0));
      if out == paths.inPath then Stop(RefuseOverwrite(out)) else Proceed(out)
  }

  /**
   * Without overwrite, the chosen path does not exist yet and every earlier
   * candidate does; so an existing input is never chosen, and the refusal
   * only fires for an input that is not in the file system.
   */
  lemma ChosenPathIsFree(settings: Settings, fs: set<string>, paths: JobPaths, template: Template)
    requires !settings.overwriteSource
    ensures ChooseOutPath(settings, fs, paths, template).Proceed? ==>
              var out := ChooseOutPath(settings, fs, paths, template).outPath;
              && out !in fs && out != paths.inPath
              && exists k: nat :: out == Candidate(paths.outFolder, Stem(paths, template), template.extension, k)
                                  && forall j :: 0 <= j < k ==>
                                       Candidate(paths.outFolder, Stem(paths, template), template.extension, j) in fs
    ensures ChooseOutPath(settings, fs, paths, template) == Stop(RefuseOverwrite(paths.inPath)) ==> paths.inPath !in fs
  {
    var stem := Stem(paths, template);
    var k := FreeIndexFrom(fs, paths.outFolder, stem, template.extension, 0);
    FreeIndexIsFirstFree(fs, paths.outFolder, stem, template.extension, 0);
    var out := Candidate(paths.outFolder, stem, template.extension, k);
    assert out !in fs;
  }

  /** Without overwrite, an input that exists is neither chosen nor refused: the job is skipped or goes elsewhere. */
  lemma ChoiceAvoidsInput(settings: Settings, fs: set<string>, paths: JobPaths, template: Template)
    requires !settings.overwriteSource && paths.inPath in fs
    ensures var d := ChooseOutPath(settings, fs, paths, template);
            (d.Proceed? ==> d.outPath != paths.inPath) && (d.Stop? ==> d.reason.SkipExisting?)
  {
    ChosenPathIsFree(settings, fs, paths, template);
  }

  /**
   * When overwriting in place (no output folder, the template's extension
   * equal to the input's), the output path is the input path itself.
   */
  lemma OverwriteTargetsInput(settings: Settings, workingDir: string, job: EncodeJob)
    requires settings.overwriteSource && settings.outputFolder == ""
    requires var inPath := Strings.UnescapeSpaces(job.inPath);
             && Paths.NoDoubleSlash(inPath)
             && '.' in Paths.Basename(inPath)
             && job.template.extension == "." + LastPart(Paths.Basename(inPath))
    ensures FirstOutPath(settings, ResolvePaths(workingDir, settings.outputFolder, job), job.template)
            == Strings.UnescapeSpaces(job.inPath)
  {
    var inPath := Strings.UnescapeSpaces(job.inPath);
    var base := Paths.Basename(inPath);
    NameNoExtDropsLastPart(base);
    assert NameNoExt(base) + job.template.extension == base;
    Paths.DirnameBasenameJoin(inPath);
  }

  /**
   * Without overwrite (and without a skipped existing first choice), the
   * choice is exactly the first free candidate: when candidates `0..k-1`
   * exist and candidate `k` does not, candidate `k` is chosen, or refused
   * if it is the input path.
   */
  lemma FirstFreeCandidateChosen(settings: Settings, fs: set<string>, paths: JobPaths, template: Template, k: nat)
    requires !settings.overwriteSource
    requires !(settings.skipExisting && FirstOutPath(settings, paths, template) in fs)
    requires forall j :: 0 <= j < k ==> Candidate(paths.outFolder, Stem(paths, template), template.extension, j) in fs
    requires Candidate(paths.outFolder, Stem(paths, template), template.extension, k) !in fs
    ensures var out := Candidate(paths.outFolder, Stem(paths, template), template.extension, k);
            ChooseOutPath(settings, fs, paths, template) == if out == paths.inPath then Stop(RefuseOverwrite(out)) else Proceed(out)
  {
    var stem := Stem(paths, template);
    FreeIndexIsFirstFree(fs, paths.outFolder, stem, template.extension, 0);
    assert FreeIndexFrom(fs, paths.outFolder, stem, template.extension, 0) == k;
  }

  /**
   * The encoder's arguments: `-y`, the input options, `-i` and the
   * converted remote input, the video options, the output options, the
   * stream map, and last the converted remote output.
   */
  function EncoderArgs(template: Template, remoteIn: string, videoCli: string, streamMap: seq<string>,
                       remoteOut: string): seq<string> {
    ["-y"] + template.inputOptions + ["-i", remoteIn] + Strings.Split(videoCli, ' ')
    + template.outputOptions + streamMap + [remoteOut]
  }

  /**
   * Where each piece sits in the encoder's arguments: `-i` right after the
   * input options and the remote input right after it, the stream map just
   * before the remote output, which is last.
   */
  lemma EncoderArgsLayout(template: Template, remoteIn: string, videoCli: string, streamMap: seq<string>,
                          remoteOut: string)
    ensures var args := EncoderArgs(template, remoteIn, videoCli, streamMap, remoteOut);
            var n := |template.inputOptions|;
            var video := Strings.Split(videoCli, ' ');
            && |args| == n + |video| + |template.outputOptions| + |streamMap| + 4
            && args[0] == "-y"
            && args[1..n + 1] == template.inputOptions
            && args[n + 1] == "-i" && args[n + 2] == remoteIn
            && args[n + 3..n + 3 + |video|] == video
            && args[n + 3 + |video|..n + 3 + |video| + |template.outputOptions|] == template.outputOptions
            && args[|args| - 1 - |streamMap|..|args| - 1] == streamMap
            && args[|args| - 1] == remoteOut
  {
    var args := EncoderArgs(template, remoteIn, videoCli, streamMap, remoteOut);
    var n := |template.inputOptions|;
    var video := Strings.Split(videoCli, ' ');
    var head := ["-y"] + template.inputOptions + ["-i", remoteIn];
    assert args == head + video + template.outputOptions + streamMap + [remoteOut];
    assert args[1..n + 1] == head[1..n + 1];
    assert args[n + 3..n + 3 + |video|] == video;
  }

  /**
   * The remote output path as the delete command sees it on a Windows
   * host: every `/` turned into `\`, then, when the local side is Linux,
   * every doubled `\` collapsed into one.
   */
  function WindowsRemotePath(p: string, localSystem: string): string {
    var q := Strings.Replace(p, "/", "\\");
    if Utils.LocalOsType(localSystem) == "linux" then Strings.Replace(q, "\\\\", "\\") else q
  }

  /** The Windows form of a path has no `/` left. */
  lemma WindowsRemotePathHasNoSlash(p: string, localSystem: string)
    ensures '/' !in WindowsRemotePath(p, localSystem)
  {
    var q := Strings.Replace(p, "/", "\\");
    Strings.ReplaceRemovesChar(p, '/', "\\");
    Strings.ReplaceKeepsAbsent(q, "\\\\", "\\", '/');
  }

  /** The shell command that deletes the remote output: `del "<path>"` on Windows, else `rm <path>`. */
  function RemoteDeleteCommand(props: HostProps, remoteOut: string): string {
    if props.isWindows then "del \"" + WindowsRemotePath(remoteOut, props.localSystem) + "\""
    else "rm " + remoteOut
  }

  /** `(job_stop - job_start).seconds`: the seconds part of a duration, days dropped. */
  function DurationSeconds(seconds: nat): (s: nat)
    ensures s < 86400 && (seconds < 86400 ==> s == seconds)
  {
    seconds % 86400
  }

  /**
   * After the result is copied back: a zero scp code lets the savings
   * filter decide; a rejection records completion and removes the copy; an
   * acceptance records completion, copies metadata if asked, and moves the
   * copy into place unless that failed.  A non-zero scp code logs an
   * encode failure.  Only the moved and the failed results reach the
   * remote delete.
   */
  function Finish(props: HostProps, settings: Settings, fs: set<string>, paths: JobPaths, outPath: string,
                  retrieved: string, template: Template, outcome: JobOutcome): Trace {
    var done := Complete(paths.inPath, DurationSeconds(outcome.encodeSeconds));
    var delete := RemoteDelete(RemoteDeleteCommand(props, paths.remoteOut));
    if outcome.scpCode == 0 then
      var copied := fs + {retrieved};
      var moved := copied - {retrieved} + {outPath};
      match Utils.FilterThreshold(template.threshold, outcome.origSize, outcome.retrievedSize)
      case Raise(e) => Trace([Crash(e)], copied)
      case Ok(accepted) =>
        if !accepted then Trace([done, Remove(retrieved)], copied - {retrieved})
        else if settings.copyMetadata then
          var exif := CopyMetadata(["exiftool", "-q", "-overwrite_original", "-tagsfromfile", paths.inPath, retrieved]);
          if outcome.exiftoolCode != 0 then Trace([done, exif, MetadataFailed(paths.inPath)], copied)
          else Trace([done, exif, Move(retrieved, outPath), delete], moved)
        else Trace([done, Move(retrieved, outPath), delete], moved)
    else Trace([EncodeFailed(paths.inPath), delete], fs)
  }

  /** Was a result moved into place? */
  predicate Moved(effects: seq<Effect>) {
    exists e :: e in effects && e.Move?
  }

  /** Was the remote temporary deleted? */
  predicate RemoteDeleted(effects: seq<Effect>) {
    exists e :: e in effects && e.RemoteDelete?
  }

  /**
   * A result the savings filter rejects: completion is recorded first and
   * the retrieved copy removed; nothing is moved and the remote temporary
   * is not deleted.
   */
  lemma FinishRejected(props: HostProps, settings: Settings, fs: set<string>, paths: JobPaths, outPath: string,
                       retrieved: string, template: Template, outcome: JobOutcome)
    requires outcome.scpCode == 0
    requires Utils.FilterThreshold(template.threshold, outcome.origSize, outcome.retrievedSize) == Ok(false)
    ensures var t := Finish(props, settings, fs, paths, outPath, retrieved, template, outcome);
            && t.effects[0] == Complete(paths.inPath, DurationSeconds(outcome.encodeSeconds))
            && Remove(retrieved) in t.effects && retrieved !in t.fs && t.fs == fs - {retrieved}
            && !Moved(t.effects) && !RemoteDeleted(t.effects)
  {
    var t := Finish(props, settings, fs, paths, outPath, retrieved, template, outcome);
    assert t.effects == [Complete(paths.inPath, DurationSeconds(outcome.encodeSeconds)), Remove(retrieved)];
  }

  /**
   * A result the filter accepts: completion is recorded first; the copy is
   * moved to the output path exactly when the metadata copy succeeded or
   * was not asked for, and only then is the remote temporary deleted;
   * otherwise the retrieved copy stays where it is.
   */
  lemma FinishAccepted(props: HostProps, settings: Settings, fs: set<string>, paths: JobPaths, outPath: string,
                       retrieved: string, template: Template, outcome: JobOutcome)
    requires outcome.scpCode == 0 && retrieved != outPath
    requires Utils.FilterThreshold(template.threshold, outcome.origSize, outcome.retrievedSize) == Ok(true)
    ensures var t := Finish(props, settings, fs, paths, outPath, retrieved, template, outcome);
            && t.effects[0] == Complete(paths.inPath, DurationSeconds(outcome.encodeSeconds))
            && (Moved(t.effects) <==> !settings.copyMetadata || outcome.exiftoolCode == 0)
            && (RemoteDeleted(t.effects) <==> Moved(t.effects))
            && (Moved(t.effects) ==> Move(retrieved, outPath) in t.effects && t.fs == fs - {retrieved} + {outPath})
            && (!Moved(t.effects) ==> t.fs == fs + {retrieved})
  {
    var t := Finish(props, settings, fs, paths, outPath, retrieved, template, outcome);
    var done := Complete(paths.inPath, DurationSeconds(outcome.encodeSeconds));
    var delete := RemoteDelete(RemoteDeleteCommand(props, paths.remoteOut));
    if settings.copyMetadata {
      var exif := CopyMetadata(["exiftool", "-q", "-overwrite_original", "-tagsfromfile", paths.inPath, retrieved]);
      if outcome.exiftoolCode != 0 {
        assert t.effects == [done, exif, MetadataFailed(paths.inPath)];
      } else {
        assert t.effects == [done, exif, Move(retrieved, outPath), delete];
        assert t.effects[2].Move? && t.effects[3].RemoteDelete?;
      }
    } else {
      assert t.effects == [done, Move(retrieved, outPath), delete];
      assert t.effects[1].Move? && t.effects[2].RemoteDelete?;
    }
  }

  /**
   * A failed retrieval logs the failure and deletes the remote temporary,
   * with no completion; a filter that divides by zero crashes the job
   * before any completion or delete.
   */
  lemma FinishFailed(props: HostProps, settings: Settings, fs: set<string>, paths: JobPaths, outPath: string,
                     retrieved: string, template: Template, outcome: JobOutcome)
    ensures var t := Finish(props, settings, fs, paths, outPath, retrieved, template, outcome);
            && (outcome.scpCode != 0 ==>
                  && t.fs == fs && RemoteDeleted(t.effects) && !Moved(t.effects)
                  && forall e :: e in t.effects ==> !e.Complete?)
            && (outcome.scpCode == 0 && template.threshold > 0 && outcome.origSize == 0 ==>
                  t.effects == [Crash(ZeroDivisionError)] && t.fs == fs + {retrieved})
  {
    var t := Finish(props, settings, fs, paths, outPath, retrieved, template, outcome);
    if outcome.scpCode != 0 {
      assert t.effects == [EncodeFailed(paths.inPath), RemoteDelete(RemoteDeleteCommand(props, paths.remoteOut))];
      assert t.effects[1].RemoteDelete?;
    }
  }

  /**
   * One job from copying in to the end: status, rsync, then (on success)
   * status, encode and scp, then the outcome handling.  The encoder's exit
   * code is overwritten by scp's before it is looked at.
   */
  function Transfer(props: HostProps, convert: string -> string, settings: Settings, fs: set<string>,
                    job: EncodeJob, paths: JobPaths, outPath: string, outcome: JobOutcome): Trace {
    var file := Paths.Basename(job.inPath);
    var targetDir := if props.isWindows then "/" + props.workingDir else props.workingDir;
    var rsync := ["rsync", paths.inPath, props.user + "@" + props.ip + ":" + targetDir];
    var copying := [Status(file, "Copying"), CopyIn(rsync)];
    if outcome.rsyncCode != 0 then Trace(copying + [CopyInFailed(paths.inPath)], fs)
    else
      var cmd := EncoderArgs(job.template, convert(paths.remoteIn), props.videoCli, outcome.streamMap,
                             convert(paths.remoteOut));
      var retrieved := Paths.PathJoin(props.tempDir, Paths.Basename(paths.remoteOut));
      var scp := ["scp", props.user + "@" + props.ip + ":" + paths.remoteOut, retrieved];
      var finish := Finish(props, settings, fs, paths, outPath, retrieved, job.template, outcome);
      Trace(copying + [Status(file, "Running"), Encode(cmd), Retrieve(scp)] + finish.effects, finish.fs)
  }

  /** The output folder is created when it is set and missing. */
  function Prepare(settings: Settings, fs: set<string>): Trace {
    if settings.outputFolder != "" && settings.outputFolder !in fs then
      Trace([MakeDirs(settings.outputFolder)], fs + {settings.outputFolder})
    else Trace([], fs)
  }

  /** A decided job: the stop reason alone, or the whole transfer. */
  function Decided(props: HostProps, convert: string -> string, settings: Settings, fs: set<string>,
                   job: EncodeJob, paths: JobPaths, d: Decision, outcome: JobOutcome): Trace {
    match d
    case Stop(reason) => Trace([reason], fs)
    case Proceed(outPath) => Transfer(props, convert, settings, fs, job, paths, outPath, outcome)
  }

  /** One iteration of the worker loop, up to (not including) `task_done`. */
  function RunJob(props: HostProps, convert: string -> string, settings: Settings, fs: set<string>,
                  job: EncodeJob, outcome: JobOutcome): Trace {
    var paths := ResolvePaths(props.workingDir, settings.outputFolder, job);
    var prep := Prepare(settings, fs);
    var t := Decided(props, convert, settings, prep.fs, job, paths, ChooseOutPath(settings, prep.fs, paths, job.template), outcome);
    Trace(prep.effects + t.effects, t.fs)
  }

  lemma AppendAssoc(a: seq<Effect>, b: seq<Effect>, c: seq<Effect>)
    ensures a + b + c == a + (b + c)
  {}

  /**
   * A skipped existing output means the job does nothing but create a
   * missing output folder and log the skip: no status, copy, encode,
   * retrieval, completion, move or remote delete.
   */
  lemma SkipExistingNoTransfer(props: HostProps, convert: string -> string, settings: Settings, fs: set<string>,
                               job: EncodeJob, outcome: JobOutcome)
    requires settings.skipExisting
    requires FirstOutPath(settings, ResolvePaths(props.workingDir, settings.outputFolder, job), job.template) in fs
    ensures var t := RunJob(props, convert, settings, fs, job, outcome);
            var first := FirstOutPath(settings, ResolvePaths(props.workingDir, settings.outputFolder, job), job.template);
            var makeDirs := settings.outputFolder != "" && settings.outputFolder !in fs;
            && t.effects == (if makeDirs then [MakeDirs(settings.outputFolder)] else []) + [SkipExisting(first)]
            && t.fs == (if makeDirs then fs + {settings.outputFolder} else fs)
  {
  }

  /** A decided job whose copy-in fails stops there, leaving the file system as it was. */
  lemma CopyFailureDecided(props: HostProps, convert: string -> string, settings: Settings, fs: set<string>,
                           job: EncodeJob, paths: JobPaths, outcome: JobOutcome)
    requires outcome.rsyncCode != 0
    ensures var t := Decided(props, convert, settings, fs, job, paths, ChooseOutPath(settings, fs, paths, job.template), outcome);
            && t.fs == fs
            && forall e :: e in t.effects ==> e.Status? || e.CopyIn? || e.CopyInFailed? || e.SkipExisting? || e.RefuseOverwrite?
  {
    var d := ChooseOutPath(settings, fs, paths, job.template);
    assert d.Stop? ==> d.reason.SkipExisting? || d.reason.RefuseOverwrite?;
  }

  /** A failed copy to the host ends the job: no encode, no retrieval, no completion. */
  lemma CopyFailureSkipsJob(props: HostProps, convert: string -> string, settings: Settings, fs: set<string>,
                            job: EncodeJob, outcome: JobOutcome)
    requires outcome.rsyncCode != 0
    ensures var t := RunJob(props, convert, settings, fs, job, outcome);
            && (forall e :: e in t.effects ==> !(e.Encode? || e.Retrieve? || e.Complete? || e.Move? || e.RemoteDelete?))
            && t.fs == Prepare(settings, fs).fs
  {
    var paths := ResolvePaths(props.workingDir, settings.outputFolder, job);
    var prep := Prepare(settings, fs);
    var t := Decided(props, convert, settings, prep.fs, job, paths, ChooseOutPath(settings, prep.fs, paths, job.template), outcome);
    CopyFailureDecided(props, convert, settings, prep.fs, job, paths, outcome);
    assert RunJob(props, convert, settings, fs, job, outcome) == Trace(prep.effects + t.effects, t.fs);
    forall e | e in prep.effects + t.effects
      ensures !(e.Encode? || e.Retrieve? || e.Complete? || e.Move? || e.RemoteDelete?)
    {
      assert e in prep.effects ==> e.MakeDirs?;
    }
  }

  /** The encoder's own exit code never changes what the worker does. */
  lemma EncoderCodeIgnored(props: HostProps, convert: string -> string, settings: Settings, fs: set<string>,
                           job: EncodeJob, outcome: JobOutcome, code: Option<int>)
    ensures RunJob(props, convert, settings, fs, job, outcome)
            == RunJob(props, convert, settings, fs, job, outcome.(encoderCode := code))
  {}

  /** The only move the outcome handling makes is onto the chosen output path. */
  lemma FinishMovesOnlyTo(props: HostProps, settings: Settings, fs: set<string>, paths: JobPaths, outPath: string,
                          retrieved: string, template: Template, outcome: JobOutcome)
    ensures forall e :: e in Finish(props, settings, fs, paths, outPath, retrieved, template, outcome).effects ==>
              !e.RefuseOverwrite? && (e.Move? ==> e.target == outPath)
  {
    var f := Finish(props, settings, fs, paths, outPath, retrieved, template, outcome);
    assert forall i :: 0 <= i < |f.effects| ==>
             !f.effects[i].RefuseOverwrite? && (f.effects[i].Move? ==> f.effects[i].target == outPath);
  }

  /** The only move a transfer makes is onto the chosen output path, and it refuses nothing. */
  lemma TransferMovesOnlyTo(props: HostProps, convert: string -> string, settings: Settings, fs: set<string>,
                            job: EncodeJob, paths: JobPaths, outPath: string, outcome: JobOutcome)
    ensures forall e :: e in Transfer(props, convert, settings, fs, job, paths, outPath, outcome).effects ==>
              !e.RefuseOverwrite? && (e.Move? ==> e.target == outPath)
  {
    var retrieved := Paths.PathJoin(props.tempDir, Paths.Basename(paths.remoteOut));
    FinishMovesOnlyTo(props, settings, fs, paths, outPath, retrieved, job.template, outcome);
  }

  /** Without overwrite, a decided job whose input exists neither refuses nor moves onto the input. */
  lemma DecidedAvoidsInput(props: HostProps, convert: string -> string, settings: Settings, fs: set<string>,
                           job: EncodeJob, paths: JobPaths, outcome: JobOutcome)
    requires !settings.overwriteSource && paths.inPath in fs
    ensures var d := ChooseOutPath(settings, fs, paths, job.template);
            forall e :: e in Decided(props, convert, settings, fs, job, paths, d, outcome).effects ==>
              !e.RefuseOverwrite? && (e.Move? ==> e.target != paths.inPath)
  {
    var d := ChooseOutPath(settings, fs, paths, job.template);
    ChoiceAvoidsInput(settings, fs, paths, job.template);
    if d.Proceed? {
      TransferMovesOnlyTo(props, convert, settings, fs, job, paths, d.outPath, outcome);
    }
  }

  /** Without overwrite, an existing input is never the target of the move. */
  lemma InputNeverClobbered(props: HostProps, convert: string -> string, settings: Settings, fs: set<string>,
                            job: EncodeJob, outcome: JobOutcome)
    requires !settings.overwriteSource
    requires Strings.UnescapeSpaces(job.inPath) in fs
    ensures var t := RunJob(props, convert, settings, fs, job, outcome);
            && (forall e :: e in t.effects && e.Move? ==> e.target != Strings.UnescapeSpaces(job.inPath))
            && (forall e :: e in t.effects ==> !e.RefuseOverwrite?)
  {
    var paths := ResolvePaths(props.workingDir, settings.outputFolder, job);
    var prep := Prepare(settings, fs);
    assert forall e :: e in prep.effects ==> e.MakeDirs?;
    assert paths.inPath == Strings.UnescapeSpaces(job.inPath) && paths.inPath in prep.fs;
    DecidedAvoidsInput(props, convert, settings, prep.fs, job, paths, outcome);
  }

  /** The whole loop: each job runs against the file system the previous ones left, then `task_done`. */
  function GoSpec(props: HostProps, convert: string -> string, settings: Settings, fs: set<string>,
                  jobs: seq<EncodeJob>, outcomes: seq<JobOutcome>): Trace
    requires |jobs| == |outcomes|
    decreases |jobs|
  {
    if jobs == [] then Trace([], fs)
    else
      var t := RunJob(props, convert, settings, fs, jobs[0], outcomes[0]);
      var rest := GoSpec(props, convert, settings, t.fs, jobs[1..], outcomes[1..]);
      Trace(t.effects + [TaskDone] + rest.effects, rest.fs)
  }

  function CountTaskDone(effects: seq<Effect>): nat
    decreases |effects|
  {
    if effects == [] then 0
    else (if effects[|effects| - 1].TaskDone? then 1 else 0) + CountTaskDone(effects[..|effects| - 1])
  }

  lemma {:induction false} CountTaskDoneAppend(a: seq<Effect>, b: seq<Effect>)
    ensures CountTaskDone(a + b) == CountTaskDone(a) + CountTaskDone(b)
    decreases |b|
  {
    if b != [] {
      assert (a + b)[..|a + b| - 1] == a + b[..|b| - 1];
      CountTaskDoneAppend(a, b[..|b| - 1]);
    } else {
      assert a + b == a;
    }
  }

  /** The outcome handling never acknowledges the job itself. */
  lemma FinishHasNoTaskDone(props: HostProps, settings: Settings, fs: set<string>, paths: JobPaths, outPath: string,
                            retrieved: string, template: Template, outcome: JobOutcome)
    ensures TaskDone !in Finish(props, settings, fs, paths, outPath, retrieved, template, outcome).effects
  {
    var t := Finish(props, settings, fs, paths, outPath, retrieved, template, outcome);
    assert forall i :: 0 <= i < |t.effects| ==> !t.effects[i].TaskDone?;
  }

  /** Nor does the transfer around it. */
  lemma TransferHasNoTaskDone(props: HostProps, convert: string -> string, settings: Settings, fs: set<string>,
                              job: EncodeJob, paths: JobPaths, outPath: string, outcome: JobOutcome)
    ensures TaskDone !in Transfer(props, convert, settings, fs, job, paths, outPath, outcome).effects
  {
    var retrieved := Paths.PathJoin(props.tempDir, Paths.Basename(paths.remoteOut));
    FinishHasNoTaskDone(props, settings, fs, paths, outPath, retrieved, job.template, outcome);
  }

  /** A job's own effects never include `task_done`. */
  lemma {:induction false} RunJobHasNoTaskDone(props: HostProps, convert: string -> string, settings: Settings,
                                               fs: set<string>, job: EncodeJob, outcome: JobOutcome)
    ensures CountTaskDone(RunJob(props, convert, settings, fs, job, outcome).effects) == 0
  {
    var paths := ResolvePaths(props.workingDir, settings.outputFolder, job);
    var prep := Prepare(settings, fs);
    match ChooseOutPath(settings, prep.fs, paths, job.template)
    case Stop(reason) =>
      NoTaskDoneCountsZero(prep.effects + [reason]);
    case Proceed(outPath) =>
      TransferHasNoTaskDone(props, convert, settings, prep.fs, job, paths, outPath, outcome);
      NoTaskDoneCountsZero(prep.effects + Transfer(props, convert, settings, prep.fs, job, paths, outPath, outcome).effects);
  }

  lemma {:induction false} NoTaskDoneCountsZero(effects: seq<Effect>)
    requires TaskDone !in effects
    ensures CountTaskDone(effects) == 0
    decreases |effects|
  {
    if effects != [] {
      assert effects == effects[..|effects| - 1] + [effects[|effects| - 1]];
      NoTaskDoneCountsZero(effects[..|effects| - 1]);
    }
  }

  /** One acknowledged job adds exactly one `task_done`, and the sequence then ends in one. */
  lemma AcknowledgedCount(job: seq<Effect>, rest: seq<Effect>)
    requires CountTaskDone(job) == 0
    ensures CountTaskDone(job + [TaskDone] + rest) == CountTaskDone(rest) + 1
    ensures var e := job + [TaskDone] + rest; e[|e| - 1] == if rest == [] then TaskDone else rest[|rest| - 1]
  {
    CountTaskDoneAppend(job, [TaskDone]);
    CountTaskDoneAppend(job + [TaskDone], rest);
    assert CountTaskDone([TaskDone]) == 1 by {
      assert [TaskDone][..0] == [];
    }
  }

  /** Every dequeued job is acknowledged exactly once: as many `task_done`s as jobs, the last effect among them. */
  lemma {:induction false} OneTaskDonePerJob(props: HostProps, convert: string -> string, settings: Settings,
                                             fs: set<string>, jobs: seq<EncodeJob>, outcomes: seq<JobOutcome>)
    requires |jobs| == |outcomes|
    ensures CountTaskDone(GoSpec(props, convert, settings, fs, jobs, outcomes).effects) == |jobs|
    ensures jobs != [] ==> var e := GoSpec(props, convert, settings, fs, jobs, outcomes).effects;
                           |e| > 0 && e[|e| - 1] == TaskDone
    decreases |jobs|
  {
    if jobs != [] {
      var t := RunJob(props, convert, settings, fs, jobs[0], outcomes[0]);
      var rest := GoSpec(props, convert, settings, t.fs, jobs[1..], outcomes[1..]);
      OneTaskDonePerJob(props, convert, settings, t.fs, jobs[1..], outcomes[1..]);
      RunJobHasNoTaskDone(props, convert, settings, fs, jobs[0], outcomes[0]);
      AcknowledgedCount(t.effects, rest.effects);
    }
  }

  /**
   * A streaming host worker: the job queue it drains, the file system it
   * sees, and the log of what it did.  `convertedPath` is the host's
   * path conversion.
   */
  class StreamingManagedHost {
    const props: HostProps
    const convertedPath: string -> string
    var queue: seq<EncodeJob>
    var fs: set<string>
    ghost var log: seq<Effect>

    constructor(props: HostProps, convertedPath: string -> string, queue: seq<EncodeJob>, fs: set<string>)
      ensures this.props == props && this.convertedPath == convertedPath
      ensures this.queue == queue && this.fs == fs && log == []
    {
      this.props := props;
      this.convertedPath := convertedPath;
      this.queue := queue;
      this.fs := fs;
      log := [];
    }

    /** The output-path choice, with the collision loop that bumps the suffix. */
    method PickOutPath(settings: Settings, paths: JobPaths, template: Template) returns (d: Decision)
      ensures d == ChooseOutPath(settings, fs, paths, template)
    {
      var outPath := FirstOutPath(settings, paths, template);
      if outPath in fs && settings.skipExisting {
        return Stop(SkipExisting(outPath));
      }
      if settings.overwriteSource {
        return Proceed(outPath);
      }
      var stem := Stem(paths, template);
      var cnt := 1;
      while outPath in fs
        invariant cnt >= 1 && outPath == Candidate(paths.outFolder, stem, template.extension, cnt - 1)
        invariant FreeIndexFrom(fs, paths.outFolder, stem, template.extension, 0)
                  == FreeIndexFrom(fs, paths.outFolder, stem, template.extension, cnt - 1)
        decreases |fs - Tried(paths.outFolder, stem, template.extension, cnt - 1)|
      {
        TriedGrows(fs, paths.outFolder, stem, template.extension, cnt - 1);
        outPath := Paths.PathJoin(paths.outFolder, stem + "-" + Numbers.NatToString(cnt) + template.extension);
        cnt := cnt + 1;
      }
      if outPath == paths.inPath {
        return Stop(RefuseOverwrite(outPath));
      }
      return Proceed(outPath);
    }

    /** After the result is back: filter, metadata, move or remove, remote delete. */
    method FinishJob(settings: Settings, paths: JobPaths, outPath: string, retrieved: string, template: Template,
                     outcome: JobOutcome)
      modifies this
      ensures queue == old(queue)
      ensures log == old(log) + Finish(props, settings, old(fs), paths, outPath, retrieved, template, outcome).effects
      ensures fs == Finish(props, settings, old(fs), paths, outPath, retrieved, template, outcome).fs
    {
      var code := outcome.scpCode;
      var seconds := DurationSeconds(outcome.encodeSeconds);
      if code == 0 {
        fs := fs + {retrieved};
        var filter := Utils.FilterThreshold(template.threshold, outcome.origSize, outcome.retrievedSize);
        if filter.Raise? {
          log := log + [Crash(filter.exception)];
          return;
        }
        if !filter.value {
          log := log + [Complete(paths.inPath, seconds)];
          fs := fs - {retrieved};
          log := log + [Remove(retrieved)];
          return;
        }
        log := log + [Complete(paths.inPath, seconds)];
        if settings.copyMetadata {
          log := log + [CopyMetadata(["exiftool", "-q", "-overwrite_original", "-tagsfromfile", paths.inPath, retrieved])];
          if outcome.exiftoolCode != 0 {
            log := log + [MetadataFailed(paths.inPath)];
            return;
          }
        }
        fs := fs - {retrieved} + {outPath};
        log := log + [Move(retrieved, outPath)];
      } else {
        log := log + [EncodeFailed(paths.inPath)];
      }
      log := log + [RemoteDelete(RemoteDeleteCommand(props, paths.remoteOut))];
    }

    /** Copy in, encode, copy back, then the outcome handling. */
    method TransferJob(settings: Settings, job: EncodeJob, paths: JobPaths, outPath: string, outcome: JobOutcome)
      modifies this
      ensures queue == old(queue)
      ensures log == old(log) + Transfer(props, convertedPath, settings, old(fs), job, paths, outPath, outcome).effects
      ensures fs == Transfer(props, convertedPath, settings, old(fs), job, paths, outPath, outcome).fs
    {
      var file := Paths.Basename(job.inPath);
      var targetDir := props.workingDir;
      if props.isWindows {
        targetDir := "/" + props.workingDir;
      }
      var rsync := ["rsync", paths.inPath, props.user + "@" + props.ip + ":" + targetDir];
      var copying := [Status(file, "Copying"), CopyIn(rsync)];
      log := log + copying;
      if outcome.rsyncCode != 0 {
        log := log + [CopyInFailed(paths.inPath)];
        return;
      }
      var cmd := EncoderArgs(job.template, convertedPath(paths.remoteIn), props.videoCli, outcome.streamMap,
                             convertedPath(paths.remoteOut));
      var code := outcome.encoderCode;
      var retrieved := Paths.PathJoin(props.tempDir, Paths.Basename(paths.remoteOut));
      var scp := ["scp", props.user + "@" + props.ip + ":" + paths.remoteOut, retrieved];
      var running := [Status(file, "Running"), Encode(cmd), Retrieve(scp)];
      log := log + running;
      ghost var started := log;
      FinishJob(settings, paths, outPath, retrieved, job.template, outcome);
      ghost var finish := Finish(props, settings, old(fs), paths, outPath, retrieved, job.template, outcome);
      AppendAssoc(old(log), copying, running);
      AppendAssoc(old(log), copying + running, finish.effects);
    }

    /** `os.makedirs` on the output folder when it is set and missing. */
    method PrepareOutFolder(settings: Settings)
      modifies this
      ensures queue == old(queue)
      ensures log == old(log) + Prepare(settings, old(fs)).effects && fs == Prepare(settings, old(fs)).fs
    {
      if settings.outputFolder != "" && settings.outputFolder !in fs {
        fs := fs + {settings.outputFolder};
        log := log + [MakeDirs(settings.outputFolder)];
      }
    }

    /** The decided job: a stop reason is logged, otherwise the transfer runs. */
    method Dispatch(settings: Settings, job: EncodeJob, paths: JobPaths, decision: Decision, outcome: JobOutcome)
      modifies this
      ensures queue == old(queue)
      ensures log == old(log) + Decided(props, convertedPath, settings, old(fs), job, paths, decision, outcome).effects
      ensures fs == Decided(props, convertedPath, settings, old(fs), job, paths, decision, outcome).fs
    {
      if decision.Stop? {
        log := log + [decision.reason];
      } else {
        TransferJob(settings, job, paths, decision.outPath, outcome);
      }
    }

    /** One iteration of the worker loop, up to (not including) `task_done`. */
    method ProcessJob(settings: Settings, job: EncodeJob, outcome: JobOutcome)
      modifies this
      ensures queue == old(queue)
      ensures log == old(log) + RunJob(props, convertedPath, settings, old(fs), job, outcome).effects
      ensures fs == RunJob(props, convertedPath, settings, old(fs), job, outcome).fs
    {
      var paths := ResolvePaths(props.workingDir, settings.outputFolder, job);
      PrepareOutFolder(settings);
      ghost var prep := Prepare(settings, old(fs));
      ghost var prepared := log;
      var decision := PickOutPath(settings, paths, job.template);
      ghost var tail := Decided(props, convertedPath, settings, prep.fs, job, paths, decision, outcome).effects;
      Dispatch(settings, job, paths, decision, outcome);
      assert log == prepared + tail;
      AppendAssoc(old(log), prep.effects, tail);
    }

    /** One turn of the worker loop: take the head job, process it, acknowledge it. */
    method Step(settings: Settings, outcomes: seq<JobOutcome>)
      requires queue != [] && |outcomes| == |queue|
      modifies this
      ensures queue == old(queue)[1..]
      ensures old(log) + GoSpec(props, convertedPath, settings, old(fs), old(queue), outcomes).effects
              == log + GoSpec(props, convertedPath, settings, fs, queue, outcomes[1..]).effects
      ensures GoSpec(props, convertedPath, settings, old(fs), old(queue), outcomes).fs
              == GoSpec(props, convertedPath, settings, fs, queue, outcomes[1..]).fs
    {
      var job := queue[0];
      queue := queue[1..];
      ProcessJob(settings, job, outcomes[0]);
      log := log + [TaskDone];
      ghost var r := RunJob(props, convertedPath, settings, old(fs), job, outcomes[0]);
      ghost var g := GoSpec(props, convertedPath, settings, r.fs, queue, outcomes[1..]);
      assert GoSpec(props, convertedPath, settings, old(fs), old(queue), outcomes)
             == Trace(r.effects + [TaskDone] + g.effects, g.fs);
      AppendAssoc(old(log), r.effects, [TaskDone]);
      AppendAssoc(old(log), r.effects + [TaskDone], g.effects);
    }

    /**
     * `go`: while the queue is not empty, take a job, process it, and
     * acknowledge it with `task_done` whatever happened.
     */
    method Go(settings: Settings, outcomes: seq<JobOutcome>)
      requires |outcomes| == |queue|
      modifies this
      ensures queue == []
      ensures log == old(log) + GoSpec(props, convertedPath, settings, old(fs), old(queue), outcomes).effects
      ensures fs == GoSpec(props, convertedPath, settings, old(fs), old(queue), outcomes).fs
    {
      var k := 0;
      while queue != []
        invariant 0 <= k <= |outcomes| && queue == old(queue)[k..]
        invariant old(log) + GoSpec(props, convertedPath, settings, old(fs), old(queue), outcomes).effects
                  == log + GoSpec(props, convertedPath, settings, fs, queue, outcomes[k..]).effects
        invariant GoSpec(props, convertedPath, settings, old(fs), old(queue), outcomes).fs
                  == GoSpec(props, convertedPath, settings, fs, queue, outcomes[k..]).fs
        decreases |queue|
      {
        Step(settings, outcomes[k..]);
        assert outcomes[k..][1..] == outcomes[k + 1..];
        k := k + 1;
      }
    }
  }
}
