/** `findCutPoint`: the per-file scan that samples one frame per second and
    stops at the first sample that is not part of the known header, at the
    end of the stream, past the header window, or on Ctrl+C. */
module Scanner {
  import opened Fingerprint
  import opened Frames

  /** The gap between two sampled frames. */
  const SAMPLE_INTERVAL_MS: int := 1000

  /** `Configs.max_header_length_ms`: five minutes. */
  const DEFAULT_MAX_HEADER_LENGTH_MS: int := 5 * 60 * 1000

  /** The parts of `Configs` the scan reads. */
  datatype Config = Config(threshold: int, maxHeaderMs: int, irq: Interrupt)

  /** Why the scan stopped. The program returns only `ms`; the tag records
      which exit of the loop was taken. */
  datatype Stop = FrameNovel | WindowExceeded | StreamEnded | Cancelled | NotOpened

  /** The returned position and the number of `isCancelled()` calls made so
      far in the run. */
  datatype ScanResult = ScanResult(stop: Stop, ms: int, clock: nat)

  /** The loop of `findCutPoint` from read `i`, with `t` the position of the
      next sample. */
  function ScanFrom(cfg: Config, hashes: set<nat>, cap: Capture, clock: nat, i: nat, t: int): ScanResult
    decreases |cap.frames| - i
  {
    if IsCancelled(cfg.irq, clock) then ScanResult(Cancelled, -1, clock + 1)
    else
      var f := Read(cap, i);
      if !f.ok then ScanResult(StreamEnded, f.ms, clock + 1)
      else if f.ms > cfg.maxHeaderMs then ScanResult(WindowExceeded, f.ms, clock + 1)
      else if f.ms >= t then
        if !Similar(hashes, f.hash, cfg.threshold) then ScanResult(FrameNovel, f.ms, clock + 1)
        else ScanFrom(cfg, hashes, cap, clock + 1, i + 1, t + SAMPLE_INTERVAL_MS)
      else ScanFrom(cfg, hashes, cap, clock + 1, i + 1, t)
  }

  /** What `findCutPoint` returns: 0 for a capture that never opened. */
  function Scan(cfg: Config, hashes: set<nat>, cap: Capture, clock: nat): ScanResult {
    if !cap.isOpen then ScanResult(NotOpened, 0, clock)
    else ScanFrom(cfg, hashes, cap, clock, 0, SAMPLE_INTERVAL_MS)
  }

  /** `findCutPoint`, with `ms` and `t` as in the program. */
  method FindCutPoint(cfg: Config, hashes: set<nat>, cap: Capture, clock0: nat) returns (ms: int, clock: nat)
    ensures ms == Scan(cfg, hashes, cap, clock0).ms
    ensures clock == Scan(cfg, hashes, cap, clock0).clock
  {
    ghost var result := Scan(cfg, hashes, cap, clock0);
    var t := SAMPLE_INTERVAL_MS;
    ms, clock := 0, clock0;
    var i := 0;
    while cap.isOpen
      invariant !cap.isOpen ==> ms == 0 && clock == clock0
      invariant cap.isOpen ==> ScanFrom(cfg, hashes, cap, clock, i, t) == result
      invariant i <= |cap.frames|
      decreases |cap.frames| - i
    {
      var cancelled := IsCancelled(cfg.irq, clock);
      clock := clock + 1;
      if cancelled {
        ms := -1;
        break;
      }
      var frame := Read(cap, i);
      i := i + 1;
      ms := frame.ms;
      if !frame.ok || ms > cfg.maxHeaderMs {
        break;
      }
      if ms >= t {
        t := t + SAMPLE_INTERVAL_MS;
        var similar := IsSimilar(hashes, frame.hash, cfg.threshold);
        if !similar {
          break;
        }
      }
    }
  }

  /** The value of `t` before read `k`, from the positions of the frames read
      before it: it starts at 1000 and rises by 1000 at every sampled frame. */
  function NextSampleAt(cap: Capture, k: nat): int {
    if k == 0 then SAMPLE_INTERVAL_MS
    else
      var prev := NextSampleAt(cap, k - 1);
      if Read(cap, k - 1).ms >= prev then prev + SAMPLE_INTERVAL_MS else prev
  }

  /** Read `k` is hashed and matched. */
  predicate IsSampled(cap: Capture, k: nat) {
    Read(cap, k).ms >= NextSampleAt(cap, k)
  }

  /** The number of sampled reads before read `k`. */
  function SamplesBefore(cap: Capture, k: nat): nat {
    if k == 0 then 0 else SamplesBefore(cap, k - 1) + (if IsSampled(cap, k - 1) then 1 else 0)
  }

  /** `t` is 1000 more than 1000 per sample taken. */
  lemma {:induction false} NextSampleAtCounts(cap: Capture, k: nat)
    ensures NextSampleAt(cap, k) == SAMPLE_INTERVAL_MS * (1 + SamplesBefore(cap, k))
  {
    if k > 0 {
      NextSampleAtCounts(cap, k - 1);
    }
  }

  /** Read `k` ends the scan (Ctrl+C aside): it failed, it lies past the
      window, or it is a sample unlike every known fingerprint. */
  predicate StopsAt(cfg: Config, hashes: set<nat>, cap: Capture, k: nat) {
    var f := Read(cap, k);
    !f.ok || f.ms > cfg.maxHeaderMs || (IsSampled(cap, k) && !Similar(hashes, f.hash, cfg.threshold))
  }

  /** The first read from `i` on that ends the scan. */
  function FirstStop(cfg: Config, hashes: set<nat>, cap: Capture, i: nat): (k: nat)
    ensures i <= k && StopsAt(cfg, hashes, cap, k)
    ensures forall j :: i <= j < k ==> !StopsAt(cfg, hashes, cap, j)
    decreases |cap.frames| - i
  {
    if StopsAt(cfg, hashes, cap, i) then i else FirstStop(cfg, hashes, cap, i + 1)
  }

  /** The tag the scan carries when it stops at read `k` without Ctrl+C. */
  function StopKind(cfg: Config, cap: Capture, k: nat): Stop {
    var f := Read(cap, k);
    if !f.ok then StreamEnded else if f.ms > cfg.maxHeaderMs then WindowExceeded else FrameNovel
  }

  lemma {:induction false} ScanFromSpec(cfg: Config, hashes: set<nat>, cap: Capture, clock: nat, i: nat)
    ensures
      var k := FirstStop(cfg, hashes, cap, i);
      var r := ScanFrom(cfg, hashes, cap, clock, i, NextSampleAt(cap, i));
      if IsCancelled(cfg.irq, clock + (k - i)) then
        r.stop == Cancelled && r.ms == -1 && clock < r.clock <= clock + (k - i) + 1 && IsCancelled(cfg.irq, r.clock - 1)
      else
        r == ScanResult(StopKind(cfg, cap, k), Read(cap, k).ms, clock + (k - i) + 1)
    decreases |cap.frames| - i
  {
    var k := FirstStop(cfg, hashes, cap, i);
    if !IsCancelled(cfg.irq, clock) && !StopsAt(cfg, hashes, cap, i) {
      ScanFromSpec(cfg, hashes, cap, clock + 1, i + 1);
    }
  }

  /** The whole scan of an opened capture, stated without the loop: with k
      the first read that fails, lies past the window or is a novel sample,
      the result is -1 if Ctrl+C was seen by one of the k + 1 polls, and the
      position of read k otherwise. Reads are polled once each, so the run's
      poll count advances by k + 1 unless the scan was cut short. */
  lemma ScanSpec(cfg: Config, hashes: set<nat>, cap: Capture, clock: nat)
    requires cap.isOpen
    ensures
      var k := FirstStop(cfg, hashes, cap, 0);
      var r := Scan(cfg, hashes, cap, clock);
      if IsCancelled(cfg.irq, clock + k) then
        r.stop == Cancelled && r.ms == -1 && clock < r.clock <= clock + k + 1 && IsCancelled(cfg.irq, r.clock - 1)
      else
        r == ScanResult(StopKind(cfg, cap, k), Read(cap, k).ms, clock + k + 1)
  {
    ScanFromSpec(cfg, hashes, cap, clock, 0);
  }

  /** A capture that does not open gives 0 and polls nothing; one that is
      cancelled before its first read gives -1. */
  lemma ScanEdges(cfg: Config, hashes: set<nat>, cap: Capture, clock: nat)
    ensures !cap.isOpen ==> Scan(cfg, hashes, cap, clock) == ScanResult(NotOpened, 0, clock)
    ensures cap.isOpen && IsCancelled(cfg.irq, clock) ==> Scan(cfg, hashes, cap, clock) == ScanResult(Cancelled, -1, clock + 1)
  {
  }

  /** Whatever the frames, a scan polls the flag at least once when the
      capture is open, and a cancelled scan has seen the flag set. */
  lemma ScanClock(cfg: Config, hashes: set<nat>, cap: Capture, clock: nat)
    ensures var r := Scan(cfg, hashes, cap, clock);
      (cap.isOpen ==> r.clock > clock) && (!cap.isOpen ==> r.clock == clock) &&
      (r.stop == Cancelled ==> IsCancelled(cfg.irq, r.clock - 1)) &&
      (cfg.irq == NoInterrupt ==> r.stop != Cancelled)
  {
    if cap.isOpen {
      ScanSpec(cfg, hashes, cap, clock);
    }
  }

  /** A novel sample is a fingerprint unlike the known ones, read no earlier
      than one second in and inside the window. */
  lemma NovelFrameIsSampled(cfg: Config, hashes: set<nat>, cap: Capture, clock: nat)
    requires cap.isOpen && Scan(cfg, hashes, cap, clock).stop == FrameNovel
    ensures
      var k := FirstStop(cfg, hashes, cap, 0);
      var f := Read(cap, k);
      f.ok && Scan(cfg, hashes, cap, clock).ms == f.ms && SAMPLE_INTERVAL_MS <= f.ms <= cfg.maxHeaderMs &&
      IsSampled(cap, k) && !Similar(hashes, f.hash, cfg.threshold)
  {
    ScanSpec(cfg, hashes, cap, clock);
    var k := FirstStop(cfg, hashes, cap, 0);
    NextSampleAtCounts(cap, k);
  }

  /** Read `k` would end a scan against the empty database: it failed, lies
      past the window, or is the first frame at one second or later. */
  predicate EndsEmptyScan(cfg: Config, cap: Capture, k: nat) {
    var f := Read(cap, k);
    !f.ok || f.ms > cfg.maxHeaderMs || f.ms >= SAMPLE_INTERVAL_MS
  }

  function FirstSecond(cfg: Config, cap: Capture, i: nat): (k: nat)
    ensures i <= k && EndsEmptyScan(cfg, cap, k)
    ensures forall j :: i <= j < k ==> !EndsEmptyScan(cfg, cap, j)
    decreases |cap.frames| - i
  {
    if EndsEmptyScan(cfg, cap, i) then i else FirstSecond(cfg, cap, i + 1)
  }

  lemma {:induction false} NoSampleBeforeFirstSecond(cfg: Config, cap: Capture, j: nat)
    requires j <= FirstSecond(cfg, cap, 0)
    ensures NextSampleAt(cap, j) == SAMPLE_INTERVAL_MS
  {
    if j > 0 {
      NoSampleBeforeFirstSecond(cfg, cap, j - 1);
      assert !EndsEmptyScan(cfg, cap, j - 1);
    }
  }

  /** Against an empty database the first sample is always novel: the scan
      returns the position of the first frame at one second or later, unless
      the stream ends or leaves the window first (or Ctrl+C comes). */
  lemma EmptyDatabaseScan(cfg: Config, cap: Capture, clock: nat)
    requires cap.isOpen && !IsCancelled(cfg.irq, clock + FirstSecond(cfg, cap, 0))
    ensures
      var k := FirstSecond(cfg, cap, 0);
      var r := Scan(cfg, {}, cap, clock);
      r.ms == Read(cap, k).ms &&
      (r.stop == FrameNovel <==> Read(cap, k).ok && Read(cap, k).ms <= cfg.maxHeaderMs)
  {
    var c := FirstSecond(cfg, cap, 0);
    forall j | j <= c ensures NextSampleAt(cap, j) == SAMPLE_INTERVAL_MS {
      NoSampleBeforeFirstSecond(cfg, cap, j);
    }
    assert StopsAt(cfg, {}, cap, c);
    forall j | j < c ensures !StopsAt(cfg, {}, cap, j) {
      assert !EndsEmptyScan(cfg, cap, j);
    }
    assert FirstStop(cfg, {}, cap, 0) == c;
    ScanSpec(cfg, {}, cap, clock);
  }

  /** The default configuration without Ctrl+C: threshold 7, a five-minute
      window. */
  function DefaultConfig(): Config {
    Config(DEFAULT_MAX_HAMMING_DISTANCE, DEFAULT_MAX_HEADER_LENGTH_MS, NoInterrupt)
  }

  /** Two one-second samples of `h0`, then `h1` at three seconds; the frame
      at 500 ms, between samples, also has `h1`. */
  function TwoSecondStream(h0: Hash, h1: Hash): Capture {
    Capture(true, [Frame(true, 0, h0), Frame(true, 500, h1), Frame(true, 1000, h0), Frame(true, 2000, h0), Frame(true, 3000, h1)], 3500)
  }

  /** Four one-second samples of `h0`, then `h1` at five seconds. */
  function FiveSecondStream(h0: Hash, h1: Hash): Capture {
    Capture(true, [Frame(true, 1000, h0), Frame(true, 2000, h0), Frame(true, 3000, h0), Frame(true, 4000, h0), Frame(true, 5000, h1)], 5500)
  }

  /** A known header of two one-second samples of fingerprint `h0` followed
      by a sample `h1` at least the default threshold away from it: the scan
      stops at 3000 ms, and the differing frame at 500 ms, which falls
      between samples, is never compared. */
  lemma HeaderOfTwoSeconds(h0: Hash, h1: Hash)
    requires Hamming(h0, h1) >= DEFAULT_MAX_HAMMING_DISTANCE
    ensures Scan(DefaultConfig(), {h0}, TwoSecondStream(h0, h1), 0) == ScanResult(FrameNovel, 3000, 5)
  {
    var cfg := DefaultConfig();
    var cap := TwoSecondStream(h0, h1);
    MemberIsSimilar({h0}, h0, DEFAULT_MAX_HAMMING_DISTANCE);
    HammingZeroIff(h0, h1);
    ScanFromStep(cfg, {h0}, cap, 0, 0, 1000);
    ScanFromStep(cfg, {h0}, cap, 1, 1, 1000);
    ScanFromStep(cfg, {h0}, cap, 2, 2, 1000);
    ScanFromStep(cfg, {h0}, cap, 3, 3, 2000);
    assert !Similar({h0}, h1, DEFAULT_MAX_HAMMING_DISTANCE);
  }

  /** A database holding one fingerprint `h0`, and a stream whose first four
      one-second samples are `h0` and whose fifth is at least the default
      threshold away from it: the scan stops as novel at 5000 ms. */
  lemma HeaderOfFourSeconds(h0: Hash, h1: Hash)
    requires Hamming(h0, h1) >= DEFAULT_MAX_HAMMING_DISTANCE
    ensures Scan(DefaultConfig(), {h0}, FiveSecondStream(h0, h1), 0) == ScanResult(FrameNovel, 5000, 5)
  {
    var cfg := DefaultConfig();
    var cap := FiveSecondStream(h0, h1);
    MemberIsSimilar({h0}, h0, DEFAULT_MAX_HAMMING_DISTANCE);
    HammingZeroIff(h0, h1);
    ScanFromStep(cfg, {h0}, cap, 0, 0, 1000);
    ScanFromStep(cfg, {h0}, cap, 1, 1, 2000);
    ScanFromStep(cfg, {h0}, cap, 2, 2, 3000);
    ScanFromStep(cfg, {h0}, cap, 3, 3, 4000);
    assert !Similar({h0}, h1, DEFAULT_MAX_HAMMING_DISTANCE);
  }

  /** One read of the loop that neither stops it nor is cancelled. */
  lemma ScanFromStep(cfg: Config, hashes: set<nat>, cap: Capture, clock: nat, i: nat, t: int)
    requires !IsCancelled(cfg.irq, clock) && Read(cap, i).ok && Read(cap, i).ms <= cfg.maxHeaderMs
    requires Read(cap, i).ms >= t ==> Similar(hashes, Read(cap, i).hash, cfg.threshold)
    ensures ScanFrom(cfg, hashes, cap, clock, i, t) ==
      ScanFrom(cfg, hashes, cap, clock + 1, i + 1, if Read(cap, i).ms >= t then t + SAMPLE_INTERVAL_MS else t)
  {
  }

  /** Fingerprints 0 and 0x3ff are ten bits apart, so they meet the
      requirement of `HeaderOfTwoSeconds` and `HeaderOfFourSeconds`. */
  lemma DistanceTen()
    ensures Hamming(0, 0x3ff) == 10
  {
    XorZeroLeft(0x3ff);
    assert Pow2(10) == 1024;
    PopCountOnes(10);
  }
}
