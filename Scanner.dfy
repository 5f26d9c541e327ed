/**
 * `ScanManager`: the registry of scans keyed by id, and the steps a scan goes
 * through. The subprocess is not run: each step takes what the process gave
 * (exit code and standard output, or the exception its launch raised), the
 * stderr lines it produced, and the clock readings, as parameters. Steps that
 * the source runs concurrently (`_run_scan` in a background task, `cancel_scan`
 * from a request) are separate methods, so any interleaving at an `await` is a
 * sequence of calls.
 */
module Scanner {
  import opened Wrappers
  import opened Text
  import opened Json
  import opened Models
  import Findings
  import TextOutput
  import Command
  import Progress
  import Sorting

  const RunningMessage := "A scan is already running. Please wait or cancel it first."

  /** How starting `czkawka_cli` ended: it exited, or the launch raised (`FileNotFoundError`, or another exception). */
  datatype Launch = Exited(code: int, stdout: string) | NotFound(message: string) | Raised(message: string)

  /** What a finished process does to its record. */
  datatype Outcome = Untouched | Done(results: Value) | Fail(error: string) | RetryText

  function NotFoundMessage(bin: string): string {
    "czkawka_cli binary not found at " + bin
  }

  function ExitMessage(code: int): string {
    "czkawka_cli exited with code " + IntToString(code)
  }

  /** The exit code can be read back from the error message. */
  lemma ExitMessageNamesCode(code: int)
    ensures var m := ExitMessage(code);
      StartsWith(m, "czkawka_cli exited with code ")
      && ParseInt(m[|"czkawka_cli exited with code "|..]) == Some(code)
  {
    var m := ExitMessage(code);
    assert m[|"czkawka_cli exited with code "|..] == IntToString(code);
    IntToStringParses(code);
  }

  /** Different codes give different messages. */
  lemma ExitMessageInjective(a: int, b: int)
    requires ExitMessage(a) == ExitMessage(b)
    ensures a == b
  {
    ExitMessageNamesCode(a);
    ExitMessageNamesCode(b);
  }

  /** The retry test on the collected stderr lines: "--json" in their join, or "unknown" in its lower-case form. */
  predicate WantsTextMode(stderrLines: seq<string>) {
    var text := Join("\n", stderrLines);
    Contains(text, "--json") || Contains(Lower(text), "unknown")
  }

  /** The retry test, line by line: some line mentions "--json", or "unknown" in any case. */
  lemma WantsTextModePerLine(stderrLines: seq<string>)
    ensures WantsTextMode(stderrLines) <==>
      exists k :: 0 <= k < |stderrLines| && (Contains(stderrLines[k], "--json") || Contains(Lower(stderrLines[k]), "unknown"))
  {
    var lowered := seq(|stderrLines|, k requires 0 <= k < |stderrLines| => Lower(stderrLines[k]));
    ContainsJoin('\n', stderrLines, "--json");
    LowerJoin('\n', stderrLines);
    assert Lower(Join("\n", stderrLines)) == Join("\n", lowered);
    ContainsJoin('\n', lowered, "unknown");
    if exists k :: 0 <= k < |lowered| && Contains(lowered[k], "unknown") {
      var k :| 0 <= k < |lowered| && Contains(lowered[k], "unknown");
      assert Contains(Lower(stderrLines[k]), "unknown");
    }
    if exists k :: 0 <= k < |stderrLines| && Contains(Lower(stderrLines[k]), "unknown") {
      var k :| 0 <= k < |stderrLines| && Contains(Lower(stderrLines[k]), "unknown");
      assert Contains(lowered[k], "unknown");
    }
  }

  /**
   * The results of a successful JSON-mode run: nothing for empty output, the
   * document `loads` decodes, or the text parse when it is not valid JSON.
   */
  function JsonResults(stdout: string, scanType: ScanType, loads: string -> Option<Value>): Value {
    var text := Strip(stdout);
    if text == [] then Null
    else match loads(text)
      case Some(v) => v
      case None => List(TextOutput.ParseText(text, scanType))
  }

  /** The outcome logic of `_run_scan`, for the record as it stands when the process has finished. */
  function JsonOutcome(scan: ScanResult, bin: string, launch: Launch, stderrLines: seq<string>, loads: string -> Option<Value>): Outcome {
    match launch
    case NotFound(_) => Fail(NotFoundMessage(bin))
    case Raised(m) => Fail(m)
    case Exited(code, stdout) =>
      if scan.status == Cancelled then Untouched
      else if code == 0 then Done(JsonResults(stdout, scan.scanType, loads))
      else if WantsTextMode(stderrLines) then RetryText
      else Fail(ExitMessage(code))
  }

  /** The outcome logic of `_run_scan_text_mode`: the same, with the text parse and no retry. */
  function TextOutcome(scan: ScanResult, launch: Launch): Outcome {
    match launch
    case NotFound(m) => Fail(m)
    case Raised(m) => Fail(m)
    case Exited(code, stdout) =>
      if scan.status == Cancelled then Untouched
      else if code == 0 then Done(List(TextOutput.ParseText(Strip(stdout), scan.scanType)))
      else Fail(ExitMessage(code))
  }

  /**
   * An outcome applied to the record, in the source's order of assignments:
   * the results are stored first, so a `TypeError` from counting or sizing
   * leaves them in place and fails the scan with that error.
   */
  function Settle(scan: ScanResult, outcome: Outcome): (r: ScanResult)
    ensures r == scan.(results := r.results, findingsCount := r.findingsCount, totalSize := r.totalSize,
                       status := r.status, error := r.error)
  {
    match outcome
    case Done(results) =>
      (match Findings.FindingsCount(results)
       case Err(e) => scan.(results := results, status := Failed, error := Some(e))
       case Ok(n) =>
         match Findings.TotalSize(results)
         case Err(e) => scan.(results := results, findingsCount := n, status := Failed, error := Some(e))
         case Ok(t) => scan.(results := results, findingsCount := n, totalSize := t, status := Completed))
    case Fail(e) => scan.(status := Failed, error := Some(e))
    case _ => scan
  }

  /** The `finally` block: the completion time and the final elapsed time. */
  function Stamp(scan: ScanResult, now: Instant, elapsed: real): (r: ScanResult)
    ensures r.completedAt == Some(now) && r.progress.elapsedSeconds == elapsed
    ensures r == scan.(completedAt := r.completedAt, progress := r.progress)
    ensures r.progress == scan.progress.(elapsedSeconds := elapsed)
  {
    scan.(completedAt := Some(now), progress := scan.progress.(elapsedSeconds := elapsed))
  }

  /** Storing results, counting them and summing their sizes, as the exit-0 branch does. */
  method Complete(scan: ScanResult, results: Value) returns (s: ScanResult)
    ensures s == Settle(scan, Done(results))
  {
    s := scan.(results := results);
    var count := Findings.CountFindings(results);
    if count.Err? {
      return s.(status := Failed, error := Some(count.error));
    }
    s := s.(findingsCount := count.value);
    var size := Findings.CalcTotalSize(results);
    if size.Err? {
      return s.(status := Failed, error := Some(size.error));
    }
    s := s.(totalSize := size.value, status := Completed);
  }

  method StampRecord(scan: ScanResult, now: Instant, elapsed: real) returns (s: ScanResult)
    ensures s == Stamp(scan, now, elapsed)
  {
    s := scan.(completedAt := Some(now));
    s := s.(progress := s.progress.(elapsedSeconds := elapsed));
  }

  /** The record after `_run_scan`'s `try` block, or `retry` when it hands over to text mode. */
  method JsonRunResult(scan: ScanResult, bin: string, launch: Launch, stderrLines: seq<string>,
                       loads: string -> Option<Value>) returns (retry: bool, s: ScanResult)
    ensures retry == (JsonOutcome(scan, bin, launch, stderrLines, loads) == RetryText)
    ensures !retry ==> s == Settle(scan, JsonOutcome(scan, bin, launch, stderrLines, loads))
  {
    retry, s := false, scan;
    match launch {
      case NotFound(_) =>
        s := scan.(status := Failed, error := Some(NotFoundMessage(bin)));
      case Raised(m) =>
        s := scan.(status := Failed, error := Some(m));
      case Exited(code, stdout) =>
        if scan.status == Cancelled {
        } else if code == 0 {
          var text := Strip(stdout);
          var results := Null;
          if text != [] {
            match loads(text) {
              case Some(v) =>
                results := v;
              case None =>
                var items := TextOutput.ParseTextOutput(text, scan.scanType);
                results := List(items);
            }
          }
          s := Complete(scan, results);
        } else if WantsTextMode(stderrLines) {
          retry := true;
        } else {
          s := scan.(status := Failed, error := Some(ExitMessage(code)));
        }
    }
  }

  /** The record after `_run_scan_text_mode`'s `try` block. */
  method TextRunResult(scan: ScanResult, launch: Launch) returns (s: ScanResult)
    ensures s == Settle(scan, TextOutcome(scan, launch))
  {
    match launch {
      case NotFound(m) =>
        s := scan.(status := Failed, error := Some(m));
      case Raised(m) =>
        s := scan.(status := Failed, error := Some(m));
      case Exited(code, stdout) =>
        if scan.status == Cancelled {
          s := scan;
        } else if code == 0 {
          var items := TextOutput.ParseTextOutput(Strip(stdout), scan.scanType);
          s := Complete(scan, List(items));
        } else {
          s := scan.(status := Failed, error := Some(ExitMessage(code)));
        }
    }
  }

  // ---------------------------------------------------------------------
  // Properties of the outcome step
  // ---------------------------------------------------------------------

  /** A scan cancelled while its process ran stays cancelled and gets no results, in either mode. */
  lemma CancelledStaysCancelled(scan: ScanResult, bin: string, code: int, stdout: string, stderrLines: seq<string>,
                                loads: string -> Option<Value>)
    requires scan.status == Cancelled
    ensures JsonOutcome(scan, bin, Exited(code, stdout), stderrLines, loads) == Untouched
    ensures TextOutcome(scan, Exited(code, stdout)) == Untouched
    ensures Settle(scan, Untouched) == scan
  {
  }

  /**
   * Exit 0 without a cancellation completes the scan: a count that can be taken
   * always comes with a size, and both are those of the stored results.
   */
  lemma ExitZeroCompletes(scan: ScanResult, bin: string, stdout: string, stderrLines: seq<string>, loads: string -> Option<Value>)
    requires scan.status != Cancelled
    ensures var results := JsonResults(stdout, scan.scanType, loads);
      var r := Settle(scan, JsonOutcome(scan, bin, Exited(0, stdout), stderrLines, loads));
      && r.results == results
      && (Findings.FindingsCount(results).Ok? ==>
            r.status == Completed && r.findingsCount == Findings.FindingsCount(results).value
            && r.totalSize == Findings.TotalSize(results).value && r.error == scan.error)
      && (Findings.FindingsCount(results).Err? ==>
            r.status == Failed && r.error == Some(Findings.FindingsCount(results).error))
  {
    var results := JsonResults(stdout, scan.scanType, loads);
    if Findings.FindingsCount(results).Ok? {
      Findings.CountOkThenSizeOk(results);
    }
  }

  /** Empty output with exit 0 is a completed scan with nothing found. */
  lemma EmptyOutputCompletes(scan: ScanResult, bin: string, stdout: string, stderrLines: seq<string>, loads: string -> Option<Value>)
    requires scan.status != Cancelled && Strip(stdout) == []
    ensures var r := Settle(scan, JsonOutcome(scan, bin, Exited(0, stdout), stderrLines, loads));
      r.status == Completed && r.results == Null && r.findingsCount == 0 && r.totalSize == 0
  {
    assert JsonResults(stdout, scan.scanType, loads) == Null;
    assert JsonOutcome(scan, bin, Exited(0, stdout), stderrLines, loads) == Done(Null);
    NullSettles(scan);
  }

  /** No results complete the scan with nothing found and no size. */
  lemma NullSettles(scan: ScanResult)
    ensures var r := Settle(scan, Done(Null));
      r.status == Completed && r.results == Null && r.findingsCount == 0 && r.totalSize == 0
  {
    assert Findings.FindingsCount(Null) == Ok(0) && Findings.TotalSize(Null) == Ok(0);
  }

  /**
   * Output that is not valid JSON is parsed as text, which can always be counted:
   * the scan completes with one finding per kept line.
   */
  lemma InvalidJsonFallsBack(scan: ScanResult, bin: string, stdout: string, stderrLines: seq<string>, loads: string -> Option<Value>)
    requires scan.status != Cancelled && Strip(stdout) != [] && loads(Strip(stdout)).None?
    ensures var r := Settle(scan, JsonOutcome(scan, bin, Exited(0, stdout), stderrLines, loads));
      && r.status == Completed
      && r.results == List(TextOutput.ParseText(Strip(stdout), scan.scanType))
      && r.findingsCount == |TextOutput.Kept(TextOutput.Lines(Strip(stdout)))|
  {
    TextOutput.ParseCount(Strip(stdout), scan.scanType);
    Findings.CountOkThenSizeOk(List(TextOutput.ParseText(Strip(stdout), scan.scanType)));
  }

  /** A text-mode run that exits 0 completes with one finding per kept line. */
  lemma TextModeCompletes(scan: ScanResult, stdout: string)
    requires scan.status != Cancelled
    ensures var r := Settle(scan, TextOutcome(scan, Exited(0, stdout)));
      && r.status == Completed
      && r.results == List(TextOutput.ParseText(Strip(stdout), scan.scanType))
      && r.findingsCount == |TextOutput.Kept(TextOutput.Lines(Strip(stdout)))|
  {
    TextOutput.ParseCount(Strip(stdout), scan.scanType);
    Findings.CountOkThenSizeOk(List(TextOutput.ParseText(Strip(stdout), scan.scanType)));
  }

  /**
   * A non-zero exit retries in text mode exactly when stderr asks for it, and
   * otherwise fails the scan with the exit code.
   */
  lemma NonZeroExit(scan: ScanResult, bin: string, code: int, stdout: string, stderrLines: seq<string>, loads: string -> Option<Value>)
    requires scan.status != Cancelled && code != 0
    ensures var o := JsonOutcome(scan, bin, Exited(code, stdout), stderrLines, loads);
      && (o == RetryText <==> WantsTextMode(stderrLines))
      && (!WantsTextMode(stderrLines) ==> Settle(scan, o) == scan.(status := Failed, error := Some(ExitMessage(code))))
  {
  }

  /** The text-mode rerun never asks for another rerun; a non-zero exit fails it. */
  lemma TextModeNeverRetries(scan: ScanResult, launch: Launch)
    ensures TextOutcome(scan, launch) != RetryText
    ensures launch.Exited? && launch.code != 0 && scan.status != Cancelled ==>
      Settle(scan, TextOutcome(scan, launch)).status == Failed
      && Settle(scan, TextOutcome(scan, launch)).error == Some(ExitMessage(launch.code))
  {
  }

  /**
   * A launch that raises fails the scan whatever its status: with the fixed
   * message for a missing binary in JSON mode, and with the exception's text otherwise.
   */
  lemma LaunchErrorFails(scan: ScanResult, bin: string, launch: Launch, stderrLines: seq<string>, loads: string -> Option<Value>)
    requires !launch.Exited?
    ensures var r := Settle(scan, JsonOutcome(scan, bin, launch, stderrLines, loads));
      r.status == Failed && r.error == Some(if launch.NotFound? then NotFoundMessage(bin) else launch.message)
    ensures var r := Settle(scan, TextOutcome(scan, launch));
      r.status == Failed && r.error == Some(launch.message)
  {
  }

  // ---------------------------------------------------------------------
  // Stderr lines
  // ---------------------------------------------------------------------

  /** `stderr_lines`: the stripped, non-blank lines, in order. */
  function Collected(raws: seq<string>): (lines: seq<string>)
    ensures |lines| <= |raws|
    ensures forall k :: 0 <= k < |lines| ==> lines[k] != []
  {
    if raws == [] then []
    else
      var text := Strip(raws[|raws| - 1]);
      Collected(raws[..|raws| - 1]) + (if text == [] then [] else [text])
  }

  /** The progress record after a sequence of lines, each with its elapsed time. */
  function ApplyLines(progress: ScanProgress, raws: seq<string>, elapsed: seq<real>): ScanProgress
    requires |elapsed| == |raws|
  {
    if raws == [] then progress
    else Progress.ApplyLine(ApplyLines(progress, raws[..|raws| - 1], elapsed[..|raws| - 1]), raws[|raws| - 1], elapsed[|raws| - 1])
  }

  /** After reading stderr, the stage is the last non-blank line, if there was one. */
  lemma {:induction false} StageIsLastLine(progress: ScanProgress, raws: seq<string>, elapsed: seq<real>)
    requires |elapsed| == |raws|
    ensures var lines := Collected(raws);
      ApplyLines(progress, raws, elapsed).currentStage == if lines == [] then progress.currentStage else lines[|lines| - 1]
    ensures ApplyLines(progress, raws, elapsed).kind == progress.kind
  {
    if raws != [] {
      StageIsLastLine(progress, raws[..|raws| - 1], elapsed[..|raws| - 1]);
    }
  }

  /** The newer-or-same order on records used by `list_scans`. */
  predicate Newer(a: ScanResult, b: ScanResult) {
    a.createdAt >= b.createdAt
  }

  lemma NewerIsTotalOrder()
    ensures Sorting.Total(Newer) && Sorting.Transitive(Newer)
  {
  }

  /** The records of `keys`, looked up in `m`, in the order of `keys`. */
  function Records(keys: seq<string>, m: map<string, ScanResult>): (r: seq<ScanResult>)
    requires forall k :: 0 <= k < |keys| ==> keys[k] in m
    ensures |r| == |keys| && forall k :: 0 <= k < |keys| ==> r[k] == m[keys[k]]
  {
    if keys == [] then [] else [m[keys[0]]] + Records(keys[1..], m)
  }

  class ScanManager {
    /** `CZKAWKA_BIN`, read from the environment at start-up. */
    const bin: string
    /** `_scans`. */
    var scans: map<string, ScanResult>
    /** The insertion order of `_scans`, which Python's dict keeps. */
    var order: seq<string>

    ghost predicate Valid()
      reads this
    {
      && (forall i, j :: 0 <= i < j < |order| ==> order[i] != order[j])
      && (forall k :: k in scans <==> k in order)
      && (forall k :: k in scans ==> scans[k].id == k)
    }

    /** A fresh manager; history loading from disk is not part of this model. */
    constructor(bin: string)
      ensures Valid() && this.bin == bin && scans == map[] && order == []
    {
      this.bin := bin;
      scans := map[];
      order := [];
    }

    predicate AnyRunning()
      reads this
    {
      exists k :: k in scans && scans[k].status == Running
    }

    /**
     * `start_scan`: refused while any stored scan is running; otherwise a new
     * pending record under `id` (the first 12 hex digits of a fresh UUID), created at `now`.
     */
    method StartScan(request: ScanRequest, id: string, now: Instant) returns (r: Result<ScanResult>)
      requires Valid()
      modifies this
      ensures Valid()
      ensures old(AnyRunning()) ==> r == Err(RunningMessage) && scans == old(scans) && order == old(order)
      ensures !old(AnyRunning()) ==>
        && r == Ok(NewScanResult(id, request.scanType, Pending, request.directories,
                                 request.excludedDirectories, request.options, now))
        && scans == old(scans)[id := r.value]
        && order == if id in old(scans) then old(order) else old(order) + [id]
    {
      if AnyRunning() {
        return Err(RunningMessage);
      }
      var scan := NewScanResult(id, request.scanType, Pending, request.directories,
                                request.excludedDirectories, request.options, now);
      if id !in scans {
        order := order + [id];
      }
      scans := scans[id := scan];
      r := Ok(scan);
    }

    /** `get_scan`. */
    function GetScan(id: string): (r: Option<ScanResult>)
      reads this
      ensures r.Some? <==> id in scans
      ensures r.Some? ==> r.value == scans[id]
    {
      if id in scans then Some(scans[id]) else None
    }

    /** `list_scans`: every record, newest first. */
    function ListScans(): (r: seq<ScanResult>)
      reads this
      requires Valid()
      ensures multiset(r) == multiset(Records(order, scans))
      ensures Sorting.Descending(r, Newer)
    {
      NewerIsTotalOrder();
      Sorting.SortDescending(Records(order, scans), Newer);
      Sorting.Sort(Records(order, scans), Newer)
    }

    /** Every stored record is listed, and nothing else is. */
    lemma ListScansHoldsEveryRecord()
      requires Valid()
      ensures |ListScans()| == |scans|
      ensures forall k :: k in scans ==> scans[k] in ListScans()
      ensures forall x :: x in ListScans() ==> x.id in scans && scans[x.id] == x
    {
      var rs := Records(order, scans);
      var r := ListScans();
      assert |multiset(r)| == |multiset(rs)|;
      OrderHoldsKeys();
      forall k | k in scans
        ensures scans[k] in r
      {
        var i :| 0 <= i < |order| && order[i] == k;
        SameMembers(r, rs, rs[i]);
      }
      forall x | x in r
        ensures x.id in scans && scans[x.id] == x
      {
        SameMembers(r, rs, x);
        var i :| 0 <= i < |rs| && rs[i] == x;
      }
    }

    /** The insertion order lists every key exactly once. */
    lemma OrderHoldsKeys()
      requires Valid()
      ensures |order| == |scans|
    {
      var ks := set i | 0 <= i < |order| :: order[i];
      assert ks == scans.Keys;
      DistinctCard(order);
    }

    /**
     * `cancel_scan`: an unknown id gives `None` and changes nothing; a known one
     * is marked cancelled at `now` from whatever status it had.
     */
    method CancelScan(id: string, now: Instant) returns (r: Option<ScanResult>)
      requires Valid()
      modifies this
      ensures Valid() && order == old(order)
      ensures id !in old(scans) ==> r.None? && scans == old(scans)
      ensures id in old(scans) ==>
        && r == Some(old(scans)[id].(status := Cancelled, completedAt := Some(now)))
        && scans == old(scans)[id := r.value]
    {
      if id !in scans {
        return None;
      }
      var scan := scans[id];
      scan := scan.(status := Cancelled);
      scan := scan.(completedAt := Some(now));
      scans := scans[id := scan];
      r := Some(scan);
    }

    /** The start of `_run_scan`: running from `now`, whatever the status was. */
    method BeginRun(id: string, now: Instant)
      requires Valid() && id in scans
      modifies this
      ensures Valid() && order == old(order)
      ensures scans == old(scans)[id := old(scans[id]).(status := Running, startedAt := Some(now))]
    {
      var scan := scans[id];
      scan := scan.(status := Running, startedAt := Some(now));
      scans := scans[id := scan];
    }

    /**
     * `_read_progress`: every raw stderr line, with the elapsed time at which it
     * arrived, updates the record's progress; the non-blank ones are collected.
     */
    method ReadStderr(id: string, raws: seq<string>, elapsed: seq<real>) returns (lines: seq<string>)
      requires Valid() && id in scans && |elapsed| == |raws|
      modifies this
      ensures Valid() && order == old(order)
      ensures lines == Collected(raws)
      ensures scans == old(scans)[id := old(scans[id]).(progress := ApplyLines(old(scans[id]).progress, raws, elapsed))]
    {
      var scan := scans[id];
      lines := [];
      for i := 0 to |raws|
        invariant lines == Collected(raws[..i])
        invariant scan == old(scans[id]).(progress := ApplyLines(old(scans[id]).progress, raws[..i], elapsed[..i]))
      {
        assert raws[..i + 1][..i] == raws[..i];
        assert elapsed[..i + 1][..i] == elapsed[..i];
        var text := Strip(raws[i]);
        if text != [] {
          lines := lines + [text];
        }
        scan := scan.(progress := Progress.ApplyLine(scan.progress, raws[i], elapsed[i]));
      }
      assert raws[..|raws|] == raws;
      assert elapsed[..|raws|] == elapsed;
      scans := scans[id := scan];
    }

    /**
     * The rest of `_run_scan` once the process has finished. When it asks for
     * text mode it returns `retry` and leaves the record alone: the caller runs
     * `FinishTextRun` and then `Finalize`, as the outer `finally` does.
     */
    method FinishJsonRun(id: string, launch: Launch, stderrLines: seq<string>, loads: string -> Option<Value>,
                         now: Instant, elapsed: real) returns (retry: bool)
      requires Valid() && id in scans
      modifies this
      ensures Valid() && order == old(order)
      ensures retry == (JsonOutcome(old(scans[id]), bin, launch, stderrLines, loads) == RetryText)
      ensures scans == old(scans)[id := if retry then old(scans[id])
                                         else Stamp(Settle(old(scans[id]), JsonOutcome(old(scans[id]), bin, launch, stderrLines, loads)), now, elapsed)]
    {
      var scan;
      retry, scan := JsonRunResult(scans[id], bin, launch, stderrLines, loads);
      if !retry {
        scan := StampRecord(scan, now, elapsed);
        scans := scans[id := scan];
      }
    }

    /** `_run_scan_text_mode` once its process (run with `Command.TextCommandLine`) has finished. */
    method FinishTextRun(id: string, launch: Launch, now: Instant, elapsed: real)
      requires Valid() && id in scans
      modifies this
      ensures Valid() && order == old(order)
      ensures scans == old(scans)[id := Stamp(Settle(old(scans[id]), TextOutcome(old(scans[id]), launch)), now, elapsed)]
    {
      var scan := TextRunResult(scans[id], launch);
      scan := StampRecord(scan, now, elapsed);
      scans := scans[id := scan];
    }

    /** The outer `finally` after a text-mode rerun: completion and elapsed time are stamped again. */
    method Finalize(id: string, now: Instant, elapsed: real)
      requires Valid() && id in scans
      modifies this
      ensures Valid() && order == old(order)
      ensures scans == old(scans)[id := Stamp(old(scans[id]), now, elapsed)]
    {
      var scan := StampRecord(scans[id], now, elapsed);
      scans := scans[id := scan];
    }
  }

  /** Two sequences with the same multiset have the same members. */
  lemma SameMembers(a: seq<ScanResult>, b: seq<ScanResult>, x: ScanResult)
    requires multiset(a) == multiset(b)
    ensures x in a <==> x in b
  {
    assert x in a <==> x in multiset(a);
    assert x in b <==> x in multiset(b);
  }

  /** A sequence without repeats has as many elements as its set. */
  lemma {:induction false} DistinctCard(s: seq<string>)
    requires forall i, j :: 0 <= i < j < |s| ==> s[i] != s[j]
    ensures |set i | 0 <= i < |s| :: s[i]| == |s|
  {
    if s != [] {
      var init := s[..|s| - 1];
      DistinctCard(init);
      var a := set i | 0 <= i < |init| :: init[i];
      var b := set i | 0 <= i < |s| :: s[i];
      assert b == a + {s[|s| - 1]};
      assert s[|s| - 1] !in a;
    }
  }
}
