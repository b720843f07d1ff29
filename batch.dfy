/** What cut mode and build mode share: the regular files and their
    streams, how the input paths expand to files, and how a run ends. */
module Batch {
  import opened Wrappers
  import opened Frames
  import opened Extensions
  import opened HashDB

  /** A regular file: its decoded stream, and whether the `ffmpeg` run (and
      the optional move back) succeeds on it. */
  datatype Video = Video(capture: Capture, extractSucceeds: bool)

  /** The regular files, by path: the `os.path.isfile` tests of
      `processVideoFile` and `appendSampleVideoToHashDB` are membership. */
  type FileSystem = map<string, Video>

  /** Every file the input paths expand to, in order. */
  function AllFiles(exts: Option<set<string>>, sources: seq<Source>): seq<string> {
    if sources == [] then [] else VideoFiles(exts, sources[0]) + AllFiles(exts, sources[1..])
  }

  lemma {:induction false} AllFilesAppend(exts: Option<set<string>>, a: seq<Source>, b: seq<Source>)
    ensures AllFiles(exts, a + b) == AllFiles(exts, a) + AllFiles(exts, b)
  {
    if a == [] {
      assert a + b == b;
    } else {
      assert (a + b)[1..] == a[1..] + b;
      AllFilesAppend(exts, a[1..], b);
    }
  }

  lemma AllFilesSnoc(exts: Option<set<string>>, sources: seq<Source>, i: nat)
    requires i < |sources|
    ensures AllFiles(exts, sources[..i + 1]) == AllFiles(exts, sources[..i]) + VideoFiles(exts, sources[i])
  {
    assert sources[..i + 1] == sources[..i] + [sources[i]];
    AllFilesAppend(exts, sources[..i], [sources[i]]);
    assert AllFiles(exts, [sources[i]]) == VideoFiles(exts, sources[i]) + [];
  }

  /** How a run ends, as `main`'s return value; a database line that is not
      a number raises out of the run. */
  datatype Exit = Exit(code: int) | Crash(error: LoadError)
}
