/** The command line tool's progress reporter (`CLIProgressReporter`). It
    keeps the byte count of every file reported so far; the downloaded total
    is the sum of those counts, recomputed on every download report. Output
    to the terminal is returned as values, and the clock is a parameter. */
module CliProgress {
  import opened Wrappers
  import opened Text
  import opened Format

  // ---- sums over a map's values ----

  /** The sum of `m`'s values at the keys in `ks`, taken in any order. */
  ghost function SumOver(m: map<string, int>, ks: set<string>): int
    requires ks <= m.Keys
    decreases ks
  {
    if ks == {} then 0
    else
      var k :| k in ks;
      m[k] + SumOver(m, ks - {k})
  }

  ghost function SumValues(m: map<string, int>): int {
    SumOver(m, m.Keys)
  }

  /** The order of summation does not matter: any key can be taken first. */
  lemma SumOverRemove(m: map<string, int>, ks: set<string>, k: string)
    requires ks <= m.Keys && k in ks
    ensures SumOver(m, ks) == m[k] + SumOver(m, ks - {k})
    decreases ks
  {
    var j :| j in ks && SumOver(m, ks) == m[j] + SumOver(m, ks - {j});
    if j != k {
      SumOverRemove(m, ks - {j}, k);
      SumOverRemove(m, ks - {k}, j);
      assert ks - {j} - {k} == ks - {k} - {j};
    }
  }

  /** The sum only looks at the keys it is taken over. */
  lemma {:induction false} SumOverAgree(m1: map<string, int>, m2: map<string, int>, ks: set<string>)
    requires ks <= m1.Keys && ks <= m2.Keys
    requires forall k | k in ks :: m1[k] == m2[k]
    ensures SumOver(m1, ks) == SumOver(m2, ks)
    decreases ks
  {
    if ks != {} {
      var k :| k in ks && SumOver(m1, ks) == m1[k] + SumOver(m1, ks - {k});
      SumOverRemove(m2, ks, k);
      SumOverAgree(m1, m2, ks - {k});
    }
  }

  /** Setting one file's count changes the total by the difference: the
      latest report for a file replaces its earlier one. */
  lemma SumValuesUpdate(m: map<string, int>, k: string, v: int)
    ensures SumValues(m[k := v]) == SumValues(m) - (if k in m then m[k] else 0) + v
  {
    var m' := m[k := v];
    SumOverRemove(m', m'.Keys, k);
    assert m'.Keys - {k} == m.Keys - {k};
    SumOverAgree(m', m, m.Keys - {k});
    if k in m {
      SumOverRemove(m, m.Keys, k);
    } else {
      assert m'.Keys - {k} == m.Keys;
    }
  }

  /** With no negative counts the total is not negative. */
  lemma {:induction false} SumOverNonNegative(m: map<string, int>, ks: set<string>)
    requires ks <= m.Keys && forall k | k in ks :: m[k] >= 0
    ensures SumOver(m, ks) >= 0
    decreases ks
  {
    if ks != {} {
      var k :| k in ks && SumOver(m, ks) == m[k] + SumOver(m, ks - {k});
      SumOverNonNegative(m, ks - {k});
    }
  }

  // ---- the progress line ----

  /** Go's conversion of a float to an integer: truncation toward zero. */
  function Trunc(x: real): (n: int)
    ensures x >= 0.0 ==> 0 <= n && n as real <= x < n as real + 1.0
    ensures x < 0.0 ==> n <= 0 && n as real - 1.0 < x <= n as real
  {
    if x >= 0.0 then x.Floor else -((-x).Floor)
  }

  /** The ETA of `printProgress`, in whole seconds: the time the download
      would take at the average rate so far, minus the time elapsed; zero
      before any byte has arrived. */
  function EtaSeconds(downloaded: int, total: int, elapsed: real): (eta: int)
    requires total != 0
    ensures downloaded <= 0 || elapsed <= 0.0 ==> eta == 0
    ensures downloaded > 0 && elapsed > 0.0 ==>
      eta == Trunc(elapsed * (total - downloaded) as real / downloaded as real)
  {
    if downloaded > 0 && elapsed > 0.0 then
      var rate := downloaded as real / total as real;
      assert elapsed / rate - elapsed == elapsed * (total - downloaded) as real / downloaded as real;
      Trunc(elapsed / rate - elapsed)
    else 0
  }

  /** While the download is within its announced size the ETA is never
      negative, so it is never shown as "unknown"; it is zero once all bytes
      have arrived. */
  lemma EtaWithinSize(downloaded: int, total: int, elapsed: real)
    requires 0 < downloaded <= total && elapsed > 0.0
    ensures EtaSeconds(downloaded, total, elapsed) >= 0
    ensures FormatDuration(EtaSeconds(downloaded, total, elapsed)) != Unknown
    ensures downloaded == total ==> EtaSeconds(downloaded, total, elapsed) == 0
  {
    assert elapsed * (total - downloaded) as real >= 0.0;
  }

  /** More bytes than announced give a negative remaining time, which is
      shown as "unknown" once it reaches a whole second. */
  lemma EtaBeyondSize(downloaded: int, total: int, elapsed: real)
    requires 0 < total < downloaded && elapsed > 0.0
    ensures EtaSeconds(downloaded, total, elapsed) <= 0
    ensures elapsed * (downloaded - total) as real >= downloaded as real ==>
      FormatDuration(EtaSeconds(downloaded, total, elapsed)) == Unknown
  {
    var x := elapsed * (total - downloaded) as real / downloaded as real;
    assert elapsed * (total - downloaded) as real < 0.0;
    if elapsed * (downloaded - total) as real >= downloaded as real {
      assert elapsed * (total - downloaded) as real <= -(downloaded as real);
      assert x <= -1.0;
    }
  }

  /** The percentage and the ETA of a download within its announced size. */
  /** The percentage of `printProgress` is the share of the total, in percent. */
  lemma PercentageFacts(downloaded: int, total: int, percentage: real)
    requires total != 0 && percentage == downloaded as real / total as real * 100.0
    ensures percentage * total as real == downloaded as real * 100.0
    ensures 0 <= downloaded <= total ==> 0.0 <= percentage <= 100.0
    ensures downloaded == total ==> percentage == 100.0
  {
    if 0 <= downloaded <= total {
      assert 0.0 <= downloaded as real / total as real <= 1.0;
    }
  }

  /** The ETA of `printProgress` is shown within the size, and is 00:00
      when nothing is known yet or everything has arrived. */
  lemma EtaFacts(downloaded: int, total: int, elapsed: real, eta: Clock)
    requires total != 0 && eta == FormatDuration(EtaSeconds(downloaded, total, elapsed))
    ensures 0 < downloaded <= total && elapsed > 0.0 ==> eta != Unknown
    ensures downloaded == total > 0 && elapsed > 0.0 ==> eta == MinSec(0, 0)
    ensures downloaded <= 0 || elapsed <= 0.0 ==> eta == MinSec(0, 0)
  {
    if 0 < downloaded <= total && elapsed > 0.0 {
      EtaWithinSize(downloaded, total, elapsed);
    }
  }

  /** What `printProgress` writes: the percentage, the two byte counts
      (printed with `formatBytes`) and the ETA. */
  datatype ProgressLine = ProgressLine(percentage: real, downloaded: int, total: int, eta: Clock)

  class CliProgressReporter {
    var gameTitle: Bytes
    var totalSize: int
    var downloadedSize: int
    var startTime: int
    var cancelled: bool
    var fileProgress: map<string, int>
    var totalFiles: int
    var completedFiles: int

    /** `NewCLIProgressReporter`: every field at its zero value. */
    constructor ()
      ensures gameTitle == [] && totalSize == 0 && downloadedSize == 0 && startTime == 0
      ensures !cancelled && fileProgress == map[] && totalFiles == 0 && completedFiles == 0
    {
      gameTitle := [];
      totalSize := 0;
      downloadedSize := 0;
      startTime := 0;
      cancelled := false;
      fileProgress := map[];
      totalFiles := 0;
      completedFiles := 0;
    }

    /** `SetGameTitle`; the "Downloading:" line is output only. */
    method SetGameTitle(title: Bytes)
      modifies this`gameTitle
      ensures gameTitle == title
    {
      gameTitle := title;
    }

    /** `printProgress`: nothing while the total size is unknown (zero);
        otherwise the share of the total that has arrived, in percent, the
        two counts, and the ETA at the average rate so far. */
    function Progress(elapsed: real): (line: Option<ProgressLine>)
      reads this
      ensures line.None? <==> totalSize == 0
      ensures line.Some? ==>
        && line.value.percentage * totalSize as real == downloadedSize as real * 100.0
        && line.value.downloaded == downloadedSize && line.value.total == totalSize
      ensures line.Some? && 0 <= downloadedSize <= totalSize ==> 0.0 <= line.value.percentage <= 100.0
      ensures line.Some? && 0 < downloadedSize <= totalSize && elapsed > 0.0 ==> line.value.eta != Unknown
      ensures line.Some? && (downloadedSize <= 0 || elapsed <= 0.0) ==> line.value.eta == MinSec(0, 0)
      ensures downloadedSize == totalSize > 0 && elapsed > 0.0 ==>
        line == Some(ProgressLine(100.0, totalSize, totalSize, MinSec(0, 0)))
    {
      if totalSize == 0 then None
      else
        var percentage := downloadedSize as real / totalSize as real * 100.0;
        var eta := FormatDuration(EtaSeconds(downloadedSize, totalSize, elapsed));
        PercentageFacts(downloadedSize, totalSize, percentage);
        EtaFacts(downloadedSize, totalSize, elapsed, eta);
        Some(ProgressLine(percentage, downloadedSize, totalSize, eta))
    }

    /** `UpdateDownloadProgress`: record the file's latest count, make the
        downloaded total the sum over all files, and print the progress
        line. `elapsed` is the time since the start time, in seconds. */
    method UpdateDownloadProgress(downloaded: int, filename: string, elapsed: real) returns (line: Option<ProgressLine>)
      modifies this`fileProgress, this`downloadedSize
      ensures fileProgress == old(fileProgress)[filename := downloaded]
      ensures downloadedSize == SumValues(fileProgress)
      ensures line == Progress(elapsed)
    {
      fileProgress := fileProgress[filename := downloaded];
      var total := 0;
      var remaining := fileProgress.Keys;
      while remaining != {}
        invariant fileProgress == old(fileProgress)[filename := downloaded]
        invariant remaining <= fileProgress.Keys
        invariant total + SumOver(fileProgress, remaining) == SumValues(fileProgress)
        decreases remaining
      {
        var name :| name in remaining;
        SumOverRemove(fileProgress, remaining, name);
        total := total + fileProgress[name];
        remaining := remaining - {name};
      }
      downloadedSize := total;
      line := Progress(elapsed);
    }

    /** `Cancelled`. */
    predicate Cancelled()
      reads this
    {
      cancelled
    }

    /** `SetCancelled`. */
    method SetCancelled()
      modifies this`cancelled
      ensures Cancelled()
    {
      cancelled := true;
    }

    /** `SetDownloadSize`. */
    method SetDownloadSize(size: int)
      modifies this`totalSize
      ensures totalSize == size
    {
      totalSize := size;
    }

    /** `ResetTotals`: counts, sizes and the per-file table start over. */
    method ResetTotals()
      modifies this`downloadedSize, this`totalSize, this`completedFiles, this`totalFiles, this`fileProgress
      ensures downloadedSize == 0 && totalSize == 0 && completedFiles == 0 && totalFiles == 0
      ensures fileProgress == map[]
      ensures downloadedSize == SumValues(fileProgress)
    {
      downloadedSize := 0;
      totalSize := 0;
      completedFiles := 0;
      totalFiles := 0;
      fileProgress := map[];
    }

    /** `MarkFileAsDone`: one more file completed; returns the two numbers
        of the "Completed:" line. */
    method MarkFileAsDone(filename: string) returns (completed: int, outOf: int)
      modifies this`completedFiles
      ensures completedFiles == old(completedFiles) + 1
      ensures completed == completedFiles && outOf == totalFiles
    {
      completedFiles := completedFiles + 1;
      completed, outOf := completedFiles, totalFiles;
    }

    /** `SetTotalDownloadedForFile`: records a file's count (a resumed
        file) without recomputing the total, which catches up on the next
        download report. */
    method SetTotalDownloadedForFile(filename: string, downloaded: int)
      modifies this`fileProgress
      ensures fileProgress == old(fileProgress)[filename := downloaded]
    {
      fileProgress := fileProgress[filename := downloaded];
    }

    /** `SetStartTime`: also fixes the number of files to the number seen
        so far. */
    method SetStartTime(startTime: int)
      modifies this`startTime, this`totalFiles
      ensures this.startTime == startTime && totalFiles == |fileProgress|
    {
      this.startTime := startTime;
      totalFiles := |fileProgress|;
    }
  }

  /** A run seen from the download library: two files, one resumed at 300
      bytes, then reports for both; the total counts each file once, at its
      latest count. */
  lemma ScenarioLineValues()
    ensures 1200 as real / 2000 as real * 100.0 == 60.0
    ensures EtaSeconds(1200, 2000, 3.0) == 2
    ensures FormatDuration(2) == MinSec(0, 2)
  {
    assert 3.0 * (2000 - 1200) as real / 1200 as real == 2.0;
  }

  method ResumedDownloadScenario() returns (downloaded: int, files: int, line: Option<ProgressLine>)
    ensures downloaded == 1200 && files == 2
    ensures line == Some(ProgressLine(60.0, 1200, 2000, MinSec(0, 2)))
  {
    var a, b := "00000000.app", "00000001.app";
    var reporter := new CliProgressReporter();
    reporter.ResetTotals();
    reporter.SetDownloadSize(2000);
    reporter.SetTotalDownloadedForFile(a, 300);
    reporter.SetTotalDownloadedForFile(b, 0);
    reporter.SetStartTime(100);
    var m0: map<string, int> := map[];
    SumValuesUpdate(m0, a, 300);
    SumValuesUpdate(m0[a := 300], b, 0);
    assert |m0[a := 300][b := 0]| == 2 by {
      assert m0[a := 300][b := 0].Keys == {a, b};
    }
    var first := reporter.UpdateDownloadProgress(500, a, 1.0);
    SumValuesUpdate(m0[a := 300][b := 0], a, 500);
    line := reporter.UpdateDownloadProgress(700, b, 3.0);
    SumValuesUpdate(m0[a := 300][b := 0][a := 500], b, 700);
    assert reporter.downloadedSize == 1200;
    ScenarioLineValues();
    downloaded, files := reporter.downloadedSize, reporter.totalFiles;
  }
}
