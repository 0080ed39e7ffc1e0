/**
 * The arithmetic helpers of wandarr/utils.py: the savings-threshold veto,
 * the progress estimate, the local OS tag and the elapsed-time split of
 * the final statistics.
 */
module Utils {
  import opened Wrappers
  import Numbers
  import Strings

  /** `100 - floor(new * 100 / orig)`: the whole percentage of the original size saved. */
  function PercentSavings(origSize: nat, newSize: nat): int
    requires origSize > 0
  {
    100 - (newSize * 100) / origSize
  }

  /** `is_exceeded_threshold`: true unless the savings fall short of the threshold. */
  function IsExceededThreshold(pctThreshold: int, origSize: nat, newSize: nat): bool
    requires origSize > 0
  {
    !(PercentSavings(origSize, newSize) < pctThreshold)
  }

  /** A floor quotient is at most `k` exactly when the dividend is below the next multiple. */
  lemma FloorQuotientAtMost(x: nat, d: nat, k: int)
    requires d > 0
    ensures x / d <= k <==> x < (k + 1) * d
  {
    var q := x / d;
    Numbers.DivBounds(x, d);
    if q <= k {
      Numbers.MulLeMono(q + 1, k + 1, d);
    } else {
      Numbers.MulLeMono(k + 1, q, d);
    }
  }

  /**
   * The veto without division: a result is accepted exactly when
   * `new * 100 < (101 - threshold) * orig`.
   */
  lemma ThresholdWithoutDivision(pctThreshold: int, origSize: nat, newSize: nat)
    requires origSize > 0
    ensures IsExceededThreshold(pctThreshold, origSize, newSize)
            <==> newSize * 100 < (101 - pctThreshold) * origSize
  {
    FloorQuotientAtMost(newSize * 100, origSize, 100 - pctThreshold);
  }

  /** Shrinking the new file never turns an accepted result into a rejected one. */
  lemma ThresholdMonotone(pctThreshold: int, origSize: nat, newSize: nat, smaller: nat)
    requires origSize > 0 && smaller <= newSize
    requires IsExceededThreshold(pctThreshold, origSize, newSize)
    ensures IsExceededThreshold(pctThreshold, origSize, smaller)
  {
    ThresholdWithoutDivision(pctThreshold, origSize, newSize);
    ThresholdWithoutDivision(pctThreshold, origSize, smaller);
  }

  /** The two worked examples of the savings veto. */
  lemma ThresholdExamples()
    ensures PercentSavings(1000, 850) == 15 && IsExceededThreshold(10, 1000, 850)
    ensures PercentSavings(1000, 950) == 5 && !IsExceededThreshold(20, 1000, 950)
  {}

  /**
   * `filter_threshold`, with the two file sizes given: a threshold of zero or
   * less accepts without looking at sizes; otherwise the veto decides, and an
   * empty original raises ZeroDivisionError.
   */
  function FilterThreshold(threshold: int, origSize: nat, newSize: nat): (r: Result<bool>)
    ensures threshold <= 0 ==> r == Ok(true)
    ensures r.Raise? <==> threshold > 0 && origSize == 0
    ensures r.Raise? ==> r.exception == ZeroDivisionError
    ensures r == Ok(true) <==>
              threshold <= 0 || (origSize > 0 && newSize * 100 < (101 - threshold) * origSize)
  {
    if threshold > 0 then
      if origSize == 0 then Raise(ZeroDivisionError)
      else
        ThresholdWithoutDivision(threshold, origSize, newSize);
        Ok(IsExceededThreshold(threshold, origSize, newSize))
    else Ok(true)
  }

  /** `int(time / runtime * 100)`, or 0 when the runtime is unknown. */
  function PctDone(runtime: int, time: int): int {
    if runtime > 0 then Numbers.TruncDiv(time * 100, runtime) else 0
  }

  /** `int(filesize_mb * 1024000 * (pct_done / 100))`: source bytes consumed so far. */
  function PctSource(filesizeMb: int, pctDone: int): int {
    Numbers.TruncDiv(filesizeMb * 1024000 * pctDone, 100)
  }

  /**
   * `calculate_progress`: percent done and percent compression, by linear
   * extrapolation over the source size.  Nothing is estimated before any
   * progress is measured.
   */
  function CalculateProgress(runtime: int, filesizeMb: int, time: int, size: int): (progress: (int, int))
    ensures runtime <= 0 ==> progress == (0, 0)
    ensures progress.0 == 0 ==> progress == (0, 0)
    ensures PctSource(filesizeMb, PctDone(runtime, time)) <= 0 ==> progress == (0, 0)
    ensures PctSource(filesizeMb, PctDone(runtime, time)) > 0 ==> progress.0 == PctDone(runtime, time)
  {
    var done := PctDone(runtime, time);
    var source := PctSource(filesizeMb, done);
    if source <= 0 then (0, 0) else (done, 100 - Numbers.TruncDiv(size * 100, source))
  }

  /**
   * What the two percentages mean once an estimate is made: `done` is the
   * whole percentage of the runtime elapsed and `100 - comp` the whole
   * percentage of the consumed source bytes written so far.
   */
  lemma ProgressMeaning(runtime: int, filesizeMb: int, time: int, size: int)
    requires runtime > 0 && time >= 0 && size >= 0
    requires PctSource(filesizeMb, PctDone(runtime, time)) > 0
    ensures var (done, comp) := CalculateProgress(runtime, filesizeMb, time, size);
            var source := PctSource(filesizeMb, done);
            && done * runtime <= time * 100 < (done + 1) * runtime
            && (100 - comp) * source <= size * 100 < (100 - comp + 1) * source
  {
    var done := PctDone(runtime, time);
    var source := PctSource(filesizeMb, done);
    Numbers.TruncDivBounds(time * 100, runtime);
    Numbers.TruncDivBounds(size * 100, source);
  }

  /** While the elapsed time is within the runtime, the percent done is within 0..100. */
  lemma ProgressDoneBounds(runtime: int, filesizeMb: int, time: int, size: int)
    requires 0 <= time <= runtime
    ensures 0 <= CalculateProgress(runtime, filesizeMb, time, size).0 <= 100
  {
    if runtime > 0 {
      Numbers.TruncDivMonotone(time * 100, runtime * 100, runtime);
      assert (runtime * 100) / runtime == 100;
    }
  }

  /** A larger output so far never reports more compression. */
  lemma ProgressCompressionMonotone(runtime: int, filesizeMb: int, time: int, size: int, larger: int)
    requires 0 <= size <= larger
    ensures CalculateProgress(runtime, filesizeMb, time, larger).1
            <= CalculateProgress(runtime, filesizeMb, time, size).1
  {
    var source := PctSource(filesizeMb, PctDone(runtime, time));
    if source > 0 {
      Numbers.TruncDivMonotone(size * 100, larger * 100, source);
    }
  }

  /** The worked example: half the runtime elapsed, 4,000,000 bytes written of a 10 MB source. */
  lemma ProgressExample()
    ensures CalculateProgress(100, 10, 50, 4000000) == (50, 22)
  {
    assert PctDone(100, 50) == 50;
    assert PctSource(10, 50) == 5120000;
  }

  /** `get_local_os_type`, given the value of `platform.system()`. */
  function LocalOsType(system: string): (tag: string)
    ensures tag == "win10" <==> system == "Windows"
    ensures tag == "linux" <==> system == "Linux"
    ensures tag == "macos" <==> system == "Darwin"
    ensures tag == "unknown" <==> system != "Windows" && system != "Linux" && system != "Darwin"
  {
    var tags := map["Windows" := "win10", "Linux" := "linux", "Darwin" := "macos"];
    if system in tags then tags[system] else "unknown"
  }

  /** `int(elapsed / 60)` and `int(elapsed % 60)`: whole minutes and leftover seconds. */
  function ElapsedParts(elapsed: nat): (parts: (nat, nat))
    ensures parts.0 * 60 + parts.1 == elapsed && parts.1 < 60
  {
    (elapsed / 60, elapsed % 60)
  }

  /** One row of the final statistics: the right-aligned path, minutes and seconds. */
  datatype StatLine = StatLine(path: string, minutes: nat, seconds: nat)

  /** `len(max(paths, key=len))`. */
  function MaxLen(paths: seq<string>): (width: nat)
    requires |paths| > 0
    ensures forall i :: 0 <= i < |paths| ==> |paths[i]| <= width
    ensures exists i :: 0 <= i < |paths| && |paths[i]| == width
  {
    if |paths| == 1 then |paths[0]|
    else
      var rest := MaxLen(paths[1..]);
      if |paths[0]| >= rest then |paths[0]| else rest
  }

  function Paths(completed: seq<(string, nat)>): (paths: seq<string>)
    ensures |paths| == |completed|
    ensures forall i :: 0 <= i < |completed| ==> paths[i] == completed[i].0
  {
    seq(|completed|, i requires 0 <= i < |completed| => completed[i].0)
  }

  /** One row for a `(path, elapsed)` pair, the path right-aligned in `width` columns. */
  function StatLineOf(entry: (string, nat), width: nat): StatLine {
    var (minutes, seconds) := ElapsedParts(entry.1);
    StatLine(Strings.RJust(entry.0, width), minutes, seconds)
  }

  /**
   * A row splits the elapsed seconds into minutes and leftover seconds,
   * ends with the path, is padded in front with spaces only, and is exactly
   * `width` long when the path fits.
   */
  lemma StatLineLayout(entry: (string, nat), width: nat)
    ensures var line := StatLineOf(entry, width);
            && line.minutes * 60 + line.seconds == entry.1 && line.seconds < 60
            && (|entry.0| <= width ==> |line.path| == width)
            && |line.path| >= |entry.0| && line.path[|line.path| - |entry.0|..] == entry.0
            && forall k :: 0 <= k < |line.path| - |entry.0| ==> line.path[k] == ' '
  {}

  /**
   * `dump_stats`: nothing in a dry run; otherwise one row per completed job,
   * in order, its path padded on the left with spaces to the length of the
   * longest path and its elapsed seconds split into minutes and seconds.
   */
  method DumpStats(dryRun: bool, completed: seq<(string, nat)>) returns (lines: seq<StatLine>)
    requires dryRun || |completed| > 0
    ensures dryRun ==> lines == []
    ensures !dryRun ==> |lines| == |completed|
    ensures !dryRun ==> forall i :: 0 <= i < |lines| ==>
              && lines[i] == StatLineOf(completed[i], MaxLen(Paths(completed)))
              && |lines[i].path| == MaxLen(Paths(completed))
  {
    lines := [];
    if dryRun {
      return;
    }
    var paths := Paths(completed);
    var width := MaxLen(paths);
    var i := 0;
    while i < |completed|
      invariant 0 <= i <= |completed|
      invariant |lines| == i
      invariant forall k :: 0 <= k < i ==> lines[k] == StatLineOf(completed[k], width)
    {
      lines := lines + [StatLineOf(completed[i], width)];
      i := i + 1;
    }
    forall k | 0 <= k < |lines| ensures |lines[k].path| == width {
      assert |paths[k]| <= width;
      StatLineLayout(completed[k], width);
    }
  }
}
