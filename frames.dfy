/** The outside world the scanner and the database builder look at: a
    decoded frame stream in place of `cv2.VideoCapture` plus `pHash`, and the
    Ctrl+C flag in place of the signal handler. */
module Frames {
  import opened Fingerprint

  /** One `video.read()`: whether a frame came back, the position
      `floor(CAP_PROP_POS_MSEC)` read right after it, and the frame's
      fingerprint (meaningful only when `ok`). */
  datatype Frame = Frame(ok: bool, ms: int, hash: Hash)

  /** An opened (or not) capture: the results of its successive reads, and
      the position it reports once the stream is exhausted. */
  datatype Capture = Capture(isOpen: bool, frames: seq<Frame>, endMs: int)

  /** The `i`-th read (from 0). Reading past the last frame fails. */
  function Read(cap: Capture, i: nat): (f: Frame)
    ensures f.ok ==> i < |cap.frames|
  {
    if i < |cap.frames| then cap.frames[i] else Frame(false, cap.endMs, 0)
  }

  /** When Ctrl+C arrives, counted in calls of `isCancelled()` since the
      start of the run; the flag is never cleared. */
  datatype Interrupt = NoInterrupt | InterruptAt(poll: nat)

  /** What the `clock`-th call of `isCancelled()` returns. */
  predicate IsCancelled(irq: Interrupt, clock: nat) {
    irq.InterruptAt? && irq.poll <= clock
  }

  /** Once a poll has seen the flag, every later poll sees it too. */
  lemma CancelledStaysCancelled(irq: Interrupt, c1: nat, c2: nat)
    requires c1 <= c2 && IsCancelled(irq, c1)
    ensures IsCancelled(irq, c2)
  {
  }
}
