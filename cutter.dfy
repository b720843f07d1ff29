/** Cut mode: `processVideoFile` (scan one file, cut it when the header is
    long enough) and `doCutVideoFiles` (load the database once, then visit
    every input file in order until Ctrl+C, tallying successes and
    failures). */
module Cutter {
  import opened Wrappers
  import opened Frames
  import opened Extensions
  import opened HashDB
  import opened Scanner
  import opened Batch

  /** A scan result must be strictly above this for a cut to be made. */
  const MIN_CUT_MS: int := 3000

  /** What to do with a scanned file: leave it, or cut it `seconds` in. */
  datatype Action = Pass | CutAt(seconds: real)

  /** The decision of `processVideoFile`: cut exactly when the scan result is
      above 3000 ms, at `end / 1000` seconds. */
  function Decide(end: int): (a: Action)
    ensures a.CutAt? <==> end > MIN_CUT_MS
    ensures a.CutAt? ==> a.seconds * 1000.0 == end as real && a.seconds > 3.0
  {
    if end > MIN_CUT_MS then CutAt(end as real / 1000.0) else Pass
  }

  /** What `processVideoFile` returns: `None` for a path that is not a
      regular file, `False` for a file passed over, `None` when `ffmpeg`
      fails, `True` after a cut. Only `True` counts as a success. */
  datatype FileOutcome = NotAFile | Passed | CutFailed | CutDone

  datatype Processed = Processed(outcome: FileOutcome, scanCancelled: bool, clock: nat)

  /** `processVideoFile` on `src`, with `clock` polls made so far. */
  function Process(cfg: Config, hashes: set<nat>, fs: FileSystem, src: string, clock: nat): Processed {
    if src !in fs then Processed(NotAFile, false, clock)
    else
      var r := Scan(cfg, hashes, fs[src].capture, clock);
      var outcome :=
        match Decide(r.ms)
        case Pass => Passed
        case CutAt(_) => if fs[src].extractSucceeds then CutDone else CutFailed;
      Processed(outcome, r.stop == Cancelled, r.clock)
  }

  method ProcessVideoFile(cfg: Config, hashes: set<nat>, fs: FileSystem, src: string, clock0: nat)
    returns (outcome: FileOutcome, clock: nat)
    ensures Process(cfg, hashes, fs, src, clock0).outcome == outcome
    ensures Process(cfg, hashes, fs, src, clock0).clock == clock
  {
    if src !in fs {
      return NotAFile, clock0;
    }
    var end;
    end, clock := FindCutPoint(cfg, hashes, fs[src].capture, clock0);
    var action := Decide(end);
    if action.CutAt? {
      outcome := if fs[src].extractSucceeds then CutDone else CutFailed;
    } else {
      outcome := Passed;
    }
  }

  /** A file succeeds exactly when it is a regular file, its scan ends above
      3000 ms and the cut succeeds. */
  lemma ProcessSucceedsIff(cfg: Config, hashes: set<nat>, fs: FileSystem, src: string, clock: nat)
    ensures Process(cfg, hashes, fs, src, clock).outcome == CutDone <==>
      src in fs && Scan(cfg, hashes, fs[src].capture, clock).ms > MIN_CUT_MS && fs[src].extractSucceeds
  {
  }

  /** A scan cut short by Ctrl+C returns -1, so its file is passed over and
      counted as a failure, not dropped from the tally. */
  lemma CancelledScanIsPassed(cfg: Config, hashes: set<nat>, fs: FileSystem, src: string, clock: nat)
    requires src in fs && Scan(cfg, hashes, fs[src].capture, clock).stop == Cancelled
    ensures Process(cfg, hashes, fs, src, clock).outcome == Passed
  {
    var cap := fs[src].capture;
    ScanEdges(cfg, hashes, cap, clock);
    if cap.isOpen {
      ScanSpec(cfg, hashes, cap, clock);
    }
  }

  /** Processing polls forward, and a cancelled scan leaves the flag seen. */
  lemma ProcessClock(cfg: Config, hashes: set<nat>, fs: FileSystem, src: string, clock: nat)
    ensures var p := Process(cfg, hashes, fs, src, clock);
      p.clock >= clock && (p.scanCancelled ==> IsCancelled(cfg.irq, p.clock))
  {
    if src in fs {
      ScanClock(cfg, hashes, fs[src].capture, clock);
    }
  }

  /** One visited file: its path, the poll made just before it was started,
      its outcome, whether its scan saw Ctrl+C. */
  datatype Visit = Visit(path: string, poll: nat, outcome: FileOutcome, scanCancelled: bool)

  /** The counters of `doCutVideoFiles`, the files visited so far and the
      number of polls so far. */
  datatype Tally = Tally(success: nat, fail: nat, visits: seq<Visit>, clock: nat)

  /** The tally after visiting `files[0]`, as the inner loop builds it. */
  function Step(cfg: Config, hashes: set<nat>, fs: FileSystem, files: seq<string>, acc: Tally): Tally
    requires files != []
  {
    var p := Process(cfg, hashes, fs, files[0], acc.clock + 1);
    var visit := Visit(files[0], acc.clock, p.outcome, p.scanCancelled);
    var counted := if p.outcome == CutDone then acc.(success := acc.success + 1) else acc.(fail := acc.fail + 1);
    counted.(visits := acc.visits + [visit], clock := p.clock)
  }

  /** The inner loop: one poll before each file, stop on Ctrl+C. */
  function RunFiles(cfg: Config, hashes: set<nat>, fs: FileSystem, files: seq<string>, acc: Tally): Tally
    decreases |files|
  {
    if files == [] then acc
    else if IsCancelled(cfg.irq, acc.clock) then acc.(clock := acc.clock + 1)
    else RunFiles(cfg, hashes, fs, files[1..], Step(cfg, hashes, fs, files, acc))
  }

  /** The outer loop: one poll before each input path, stop on Ctrl+C. */
  function RunSources(cfg: Config, hashes: set<nat>, fs: FileSystem, exts: Option<set<string>>,
                      sources: seq<Source>, acc: Tally): Tally
    decreases |sources|
  {
    if sources == [] then acc
    else if IsCancelled(cfg.irq, acc.clock) then acc.(clock := acc.clock + 1)
    else
      var files := VideoFiles(exts, sources[0]);
      RunSources(cfg, hashes, fs, exts, sources[1..], RunFiles(cfg, hashes, fs, files, acc.(clock := acc.clock + 1)))
  }

  /** The tally of a whole cut run; no poll precedes it. */
  function CutRun(cfg: Config, hashes: set<nat>, fs: FileSystem, exts: Option<set<string>>, sources: seq<Source>): Tally {
    RunSources(cfg, hashes, fs, exts, sources, Tally(0, 0, [], 0))
  }

  /** The inner loop of `doCutVideoFiles` over the files of one input path,
      carrying the counters and the poll count. */
  method CutFiles(cfg: Config, hashes: set<nat>, fs: FileSystem, files: seq<string>,
                  success0: nat, fail0: nat, clock0: nat, ghost visits0: seq<Visit>)
    returns (success: nat, fail: nat, clock: nat, ghost visits: seq<Visit>)
    ensures success == RunFiles(cfg, hashes, fs, files, Tally(success0, fail0, visits0, clock0)).success
    ensures fail == RunFiles(cfg, hashes, fs, files, Tally(success0, fail0, visits0, clock0)).fail
    ensures clock == RunFiles(cfg, hashes, fs, files, Tally(success0, fail0, visits0, clock0)).clock
    ensures visits == RunFiles(cfg, hashes, fs, files, Tally(success0, fail0, visits0, clock0)).visits
  {
    success, fail, clock, visits := success0, fail0, clock0, visits0;
    ghost var goal := RunFiles(cfg, hashes, fs, files, Tally(success0, fail0, visits0, clock0));
    var j := 0;
    while j < |files|
      invariant j <= |files|
      invariant RunFiles(cfg, hashes, fs, files[j..], Tally(success, fail, visits, clock)) == goal
    {
      ghost var before := Tally(success, fail, visits, clock);
      var cancelled := IsCancelled(cfg.irq, clock);
      clock := clock + 1;
      if cancelled {
        break;
      }
      ghost var p := Process(cfg, hashes, fs, files[j], clock);
      var outcome;
      outcome, clock := ProcessVideoFile(cfg, hashes, fs, files[j], clock);
      if outcome == CutDone {
        success := success + 1;
      } else {
        fail := fail + 1;
      }
      visits := visits + [Visit(files[j], before.clock, outcome, p.scanCancelled)];
      assert files[j..][1..] == files[j + 1..];
      j := j + 1;
    }
  }

  /** `doCutVideoFiles`: fail with 1 when there is no database; otherwise
      load it once and run both loops, returning 0 and the two counters. */
  method DoCutVideoFiles(store: HashStore, cfg: Config, exts: Option<set<string>>, sources: seq<Source>, fs: FileSystem)
    returns (exit: Exit, success: nat, fail: nat)
    ensures store.file.None? ==> exit == Exit(1) && success == 0 && fail == 0
    ensures store.file.Some? && LoadedDB(store.file).Err? ==> exit == Crash(LoadedDB(store.file).error)
    ensures store.file.Some? && LoadedDB(store.file).Ok? ==>
      var t := CutRun(cfg, LoadedDB(store.file).value, fs, exts, sources);
      exit == Exit(0) && success == t.success && fail == t.fail
  {
    success, fail := 0, 0;
    if store.file.None? {
      return Exit(1), success, fail;
    }
    var loaded := LoadHashDB(store);
    if loaded.Err? {
      return Crash(loaded.error), success, fail;
    }
    var hashes := loaded.value;
    var clock: nat := 0;
    ghost var visits: seq<Visit> := [];
    ghost var goal := CutRun(cfg, hashes, fs, exts, sources);
    var i := 0;
    while i < |sources|
      invariant i <= |sources|
      invariant RunSources(cfg, hashes, fs, exts, sources[i..], Tally(success, fail, visits, clock)) == goal
    {
      var cancelled := IsCancelled(cfg.irq, clock);
      clock := clock + 1;
      if cancelled {
        break;
      }
      var files := GetAllVideoFiles(exts, sources[i]);
      assert sources[i..][1..] == sources[i + 1..];
      success, fail, clock, visits := CutFiles(cfg, hashes, fs, files, success, fail, clock, visits);
      i := i + 1;
    }
    return Exit(0), success, fail;
  }

  function Paths(visits: seq<Visit>): seq<string> {
    seq(|visits|, k requires 0 <= k < |visits| => visits[k].path)
  }

  /** The number of visits that ended in a cut. */
  function CountCuts(visits: seq<Visit>): nat {
    if visits == [] then 0
    else CountCuts(visits[..|visits| - 1]) + (if visits[|visits| - 1].outcome == CutDone then 1 else 0)
  }

  /** The counters agree with the visits: every visit is counted once,
      as a success exactly when it ended in a cut. */
  predicate Counted(t: Tally) {
    t.success == CountCuts(t.visits) && t.success + t.fail == |t.visits|
  }

  /** Every visit was started at a poll that did not see Ctrl+C and holds
      what `processVideoFile` returns for that file; only the last visit can
      have had its scan cut short, and if it was, the flag is seen from now
      on. */
  predicate Chronicle(cfg: Config, hashes: set<nat>, fs: FileSystem, t: Tally) {
    && (forall k :: 0 <= k < |t.visits| ==>
          !IsCancelled(cfg.irq, t.visits[k].poll) &&
          t.visits[k].outcome == Process(cfg, hashes, fs, t.visits[k].path, t.visits[k].poll + 1).outcome)
    && (forall k :: 0 <= k < |t.visits| - 1 ==> !t.visits[k].scanCancelled)
    && (|t.visits| > 0 && t.visits[|t.visits| - 1].scanCancelled ==> IsCancelled(cfg.irq, t.clock))
  }

  lemma VisitAppended(t: Tally, v: Visit, success: nat, fail: nat, clock: nat)
    requires Counted(t)
    requires success == t.success + (if v.outcome == CutDone then 1 else 0)
    requires success + fail == t.success + t.fail + 1
    ensures Counted(Tally(success, fail, t.visits + [v], clock))
  {
    assert (t.visits + [v])[..|t.visits|] == t.visits;
  }

  /** The inner loop keeps the counters honest. */
  lemma {:induction false} RunFilesCounted(cfg: Config, hashes: set<nat>, fs: FileSystem, files: seq<string>, acc: Tally)
    requires Counted(acc)
    ensures Counted(RunFiles(cfg, hashes, fs, files, acc))
    decreases |files|
  {
    if files != [] && !IsCancelled(cfg.irq, acc.clock) {
      var next := Step(cfg, hashes, fs, files, acc);
      VisitAppended(acc, next.visits[|acc.visits|], next.success, next.fail, next.clock);
      RunFilesCounted(cfg, hashes, fs, files[1..], next);
    }
  }

  lemma StepChronicle(cfg: Config, hashes: set<nat>, fs: FileSystem, files: seq<string>, acc: Tally)
    requires files != [] && !IsCancelled(cfg.irq, acc.clock) && Chronicle(cfg, hashes, fs, acc)
    ensures Chronicle(cfg, hashes, fs, Step(cfg, hashes, fs, files, acc))
    ensures Step(cfg, hashes, fs, files, acc).clock > acc.clock
  {
    var p := Process(cfg, hashes, fs, files[0], acc.clock + 1);
    ProcessClock(cfg, hashes, fs, files[0], acc.clock + 1);
    var next := Step(cfg, hashes, fs, files, acc);
    var vs := next.visits;
    assert vs == acc.visits + [Visit(files[0], acc.clock, p.outcome, p.scanCancelled)];
    forall k | 0 <= k < |vs| - 1 ensures !vs[k].scanCancelled {
      assert vs[k] == acc.visits[k];
    }
  }

  /** The inner loop keeps the visits in order (see `Chronicle`). */
  lemma {:induction false} RunFilesChronicle(cfg: Config, hashes: set<nat>, fs: FileSystem, files: seq<string>, acc: Tally)
    requires Chronicle(cfg, hashes, fs, acc)
    ensures Chronicle(cfg, hashes, fs, RunFiles(cfg, hashes, fs, files, acc))
    ensures RunFiles(cfg, hashes, fs, files, acc).clock >= acc.clock
    decreases |files|
  {
    if files != [] && !IsCancelled(cfg.irq, acc.clock) {
      StepChronicle(cfg, hashes, fs, files, acc);
      RunFilesChronicle(cfg, hashes, fs, files[1..], Step(cfg, hashes, fs, files, acc));
    }
  }

  /** The inner loop visits a prefix of its files, all of them unless a poll
      saw Ctrl+C. */
  lemma {:induction false} RunFilesProgress(cfg: Config, hashes: set<nat>, fs: FileSystem, files: seq<string>, acc: Tally)
    ensures var r := RunFiles(cfg, hashes, fs, files, acc);
      |acc.visits| <= |r.visits| <= |acc.visits| + |files| &&
      Paths(r.visits) == Paths(acc.visits) + files[..|r.visits| - |acc.visits|] &&
      (|r.visits| < |acc.visits| + |files| ==> IsCancelled(cfg.irq, r.clock)) &&
      (IsCancelled(cfg.irq, acc.clock) ==> r.visits == acc.visits && IsCancelled(cfg.irq, r.clock))
    decreases |files|
  {
    if files != [] && !IsCancelled(cfg.irq, acc.clock) {
      var next := Step(cfg, hashes, fs, files, acc);
      RunFilesProgress(cfg, hashes, fs, files[1..], next);
      assert Paths(next.visits) == Paths(acc.visits) + [files[0]];
      var r := RunFiles(cfg, hashes, fs, files[1..], next);
      var m := |r.visits| - |next.visits|;
      assert [files[0]] + files[1..][..m] == files[..m + 1];
    }
  }

  lemma ChronicleLater(cfg: Config, hashes: set<nat>, fs: FileSystem, t: Tally, clock: nat)
    requires Chronicle(cfg, hashes, fs, t) && clock >= t.clock
    ensures Chronicle(cfg, hashes, fs, t.(clock := clock))
  {
  }

  lemma RunSourcesUnfold(cfg: Config, hashes: set<nat>, fs: FileSystem, exts: Option<set<string>>,
                         sources: seq<Source>, acc: Tally)
    requires sources != [] && !IsCancelled(cfg.irq, acc.clock)
    ensures RunSources(cfg, hashes, fs, exts, sources, acc) ==
      RunSources(cfg, hashes, fs, exts, sources[1..],
                 RunFiles(cfg, hashes, fs, VideoFiles(exts, sources[0]), acc.(clock := acc.clock + 1)))
  {
  }

  /** Both loops keep the counters honest and the visits in order. */
  lemma {:induction false} RunSourcesKeeps(cfg: Config, hashes: set<nat>, fs: FileSystem, exts: Option<set<string>>,
                                           sources: seq<Source>, acc: Tally)
    requires Counted(acc) && Chronicle(cfg, hashes, fs, acc)
    ensures var r := RunSources(cfg, hashes, fs, exts, sources, acc);
      Counted(r) && Chronicle(cfg, hashes, fs, r)
    decreases |sources|
  {
    if sources != [] && !IsCancelled(cfg.irq, acc.clock) {
      var files := VideoFiles(exts, sources[0]);
      var start := acc.(clock := acc.clock + 1);
      ChronicleLater(cfg, hashes, fs, acc, acc.clock + 1);
      RunFilesCounted(cfg, hashes, fs, files, start);
      RunFilesChronicle(cfg, hashes, fs, files, start);
      var mid := RunFiles(cfg, hashes, fs, files, start);
      RunSourcesKeeps(cfg, hashes, fs, exts, sources[1..], mid);
      RunSourcesUnfold(cfg, hashes, fs, exts, sources, acc);
    }
  }

  /** Both loops visit a prefix of all the files, in order. */
  lemma {:induction false} RunSourcesPaths(cfg: Config, hashes: set<nat>, fs: FileSystem, exts: Option<set<string>>,
                                           sources: seq<Source>, acc: Tally)
    ensures var r := RunSources(cfg, hashes, fs, exts, sources, acc);
      var all := AllFiles(exts, sources);
      |acc.visits| <= |r.visits| <= |acc.visits| + |all| &&
      Paths(r.visits) == Paths(acc.visits) + all[..|r.visits| - |acc.visits|]
    decreases |sources|
  {
    if sources != [] && !IsCancelled(cfg.irq, acc.clock) {
      var files := VideoFiles(exts, sources[0]);
      var start := acc.(clock := acc.clock + 1);
      RunFilesProgress(cfg, hashes, fs, files, start);
      var mid := RunFiles(cfg, hashes, fs, files, start);
      RunSourcesPaths(cfg, hashes, fs, exts, sources[1..], mid);
      RunSourcesUnfold(cfg, hashes, fs, exts, sources, acc);
      var r := RunSources(cfg, hashes, fs, exts, sources[1..], mid);
      var rest := AllFiles(exts, sources[1..]);
      assert AllFiles(exts, sources) == files + rest;
      var m := |mid.visits| - |acc.visits|;
      if m < |files| {
        assert r.visits == mid.visits;
      }
      PrefixOfConcat(Paths(acc.visits), files, rest, m, |r.visits| - |mid.visits|, Paths(mid.visits), Paths(r.visits));
    }
  }

  lemma PrefixOfConcat(p0: seq<string>, x: seq<string>, y: seq<string>, m: nat, k: nat, p1: seq<string>, p2: seq<string>)
    requires m <= |x| && k <= |y| && (m < |x| ==> k == 0)
    requires p1 == p0 + x[..m] && p2 == p1 + y[..k]
    ensures p2 == p0 + (x + y)[..m + k]
  {
    if m < |x| {
      assert (x + y)[..m] == x[..m];
    } else {
      assert x[..m] == x;
      assert (x + y)[..m + k] == x + y[..k];
    }
  }

  /** Both loops visit all the files unless a poll saw Ctrl+C, and visit
      nothing once one has. */
  lemma {:induction false} RunSourcesProgress(cfg: Config, hashes: set<nat>, fs: FileSystem, exts: Option<set<string>>,
                                              sources: seq<Source>, acc: Tally)
    ensures var r := RunSources(cfg, hashes, fs, exts, sources, acc);
      (|r.visits| < |acc.visits| + |AllFiles(exts, sources)| ==> IsCancelled(cfg.irq, r.clock)) &&
      (IsCancelled(cfg.irq, acc.clock) ==> r.visits == acc.visits && IsCancelled(cfg.irq, r.clock))
    decreases |sources|
  {
    if sources != [] && !IsCancelled(cfg.irq, acc.clock) {
      var files := VideoFiles(exts, sources[0]);
      var start := acc.(clock := acc.clock + 1);
      RunFilesProgress(cfg, hashes, fs, files, start);
      var mid := RunFiles(cfg, hashes, fs, files, start);
      RunSourcesProgress(cfg, hashes, fs, exts, sources[1..], mid);
      RunSourcesUnfold(cfg, hashes, fs, exts, sources, acc);
      assert AllFiles(exts, sources) == files + AllFiles(exts, sources[1..]);
    }
  }

  /** Every file visited is counted exactly once: `success + fail` is the
      number of visits, and `success` the number of visits that were cut. */
  lemma CutRunCounts(cfg: Config, hashes: set<nat>, fs: FileSystem, exts: Option<set<string>>, sources: seq<Source>)
    ensures var t := CutRun(cfg, hashes, fs, exts, sources);
      t.success + t.fail == |t.visits| && t.success == CountCuts(t.visits)
  {
    assert Chronicle(cfg, hashes, fs, Tally(0, 0, [], 0));
    RunSourcesKeeps(cfg, hashes, fs, exts, sources, Tally(0, 0, [], 0));
  }

  /** No file is started once a poll has seen Ctrl+C; each visit is
      `processVideoFile` on that file; only the last file visited can have
      had its scan cut short. */
  lemma CutRunStopsOnCancel(cfg: Config, hashes: set<nat>, fs: FileSystem, exts: Option<set<string>>, sources: seq<Source>)
    ensures var t := CutRun(cfg, hashes, fs, exts, sources);
      (forall k :: 0 <= k < |t.visits| ==>
         !IsCancelled(cfg.irq, t.visits[k].poll) &&
         t.visits[k].outcome == Process(cfg, hashes, fs, t.visits[k].path, t.visits[k].poll + 1).outcome) &&
      (forall k :: 0 <= k < |t.visits| - 1 ==> !t.visits[k].scanCancelled)
  {
    assert Chronicle(cfg, hashes, fs, Tally(0, 0, [], 0));
    RunSourcesKeeps(cfg, hashes, fs, exts, sources, Tally(0, 0, [], 0));
  }

  /** Files are visited in the order the input paths expand to; a run that
      stops early has seen Ctrl+C, and a run without Ctrl+C visits them all. */
  lemma CutRunOrder(cfg: Config, hashes: set<nat>, fs: FileSystem, exts: Option<set<string>>, sources: seq<Source>)
    ensures var t := CutRun(cfg, hashes, fs, exts, sources);
      var all := AllFiles(exts, sources);
      Paths(t.visits) <= all &&
      (|t.visits| < |all| ==> IsCancelled(cfg.irq, t.clock)) &&
      (cfg.irq == NoInterrupt ==> Paths(t.visits) == all)
  {
    RunSourcesPaths(cfg, hashes, fs, exts, sources, Tally(0, 0, [], 0));
    RunSourcesProgress(cfg, hashes, fs, exts, sources, Tally(0, 0, [], 0));
    assert Paths([]) == [];
  }

  /** The two header scenarios with fingerprints 0 and 0x3ff: a header
      that ends at three seconds is too short and the file is passed over;
      one that ends at five seconds is cut at five seconds. */
  lemma HeaderScenarios(extract: bool)
    ensures Process(DefaultConfig(), {0}, map["a" := Video(TwoSecondStream(0, 0x3ff), extract)], "a", 0).outcome == Passed
    ensures Process(DefaultConfig(), {0}, map["b" := Video(FiveSecondStream(0, 0x3ff), extract)], "b", 0).outcome ==
      (if extract then CutDone else CutFailed)
    ensures Decide(3000) == Pass && Decide(5000) == CutAt(5.0)
  {
    DistanceTen();
    HeaderOfTwoSeconds(0, 0x3ff);
    HeaderOfFourSeconds(0, 0x3ff);
  }
}
