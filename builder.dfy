/** Build and append modes: `appendSampleVideoToHashDB` folds the
    fingerprint of every frame of one file into the in-memory set, and
    `doAppendHash` picks the time bound, runs it over every input file and
    rewrites the database. */
module Builder {
  import opened Wrappers
  import opened Fingerprint
  import opened Frames
  import opened Extensions
  import opened HashDB
  import opened Batch

  /** The set `loadHashDB` returned, which `appendSampleVideoToHashDB`
      grows in place. */
  class HashSet {
    var elems: set<nat>

    constructor(elems: set<nat>)
      ensures this.elems == elems
    {
      this.elems := elems;
    }

    /** `db.add(hash)`. */
    method Add(hash: nat)
      modifies this
      ensures elems == old(elems) + {hash}
    {
      elems := elems + {hash};
    }
  }

  /** The fingerprints one path contributes: none unless it is a file. */
  function FileCollected(fs: FileSystem, src: string, max: int): set<nat> {
    if src in fs then Collected(fs[src].capture, max) else {}
  }

  /** Read `k` ends the loop: it failed, or a positive bound is set and the
      frame lies past it. */
  predicate EndsSampling(cap: Capture, max: int, k: nat) {
    var f := Read(cap, k);
    !f.ok || (max > 0 && f.ms > max)
  }

  /** The first read from `i` on that ends the loop. */
  function StopIndex(cap: Capture, max: int, i: nat): (k: nat)
    ensures i <= k && EndsSampling(cap, max, k)
    ensures forall j :: i <= j < k ==> !EndsSampling(cap, max, j)
    ensures i <= |cap.frames| ==> k <= |cap.frames|
    decreases |cap.frames| - i
  {
    if EndsSampling(cap, max, i) then i else StopIndex(cap, max, i + 1)
  }

  /** How many frames of a file are hashed: none if it does not open. */
  function FramesRead(cap: Capture, max: int): nat {
    if !cap.isOpen then 0 else StopIndex(cap, max, 0)
  }

  /** The fingerprints of the first `i` reads. */
  function Hashed(cap: Capture, i: nat): set<nat> {
    if i == 0 then {} else Hashed(cap, i - 1) + {Read(cap, i - 1).hash}
  }

  lemma {:induction false} HashedMember(cap: Capture, i: nat, x: nat)
    ensures x in Hashed(cap, i) <==> exists k :: 0 <= k < i && Read(cap, k).hash == x
  {
    if i > 0 {
      HashedMember(cap, i - 1, x);
      assert Read(cap, i - 1).hash == x ==> exists k :: 0 <= k < i && Read(cap, k).hash == x;
    }
  }

  /** The fingerprints of the frames hashed. */
  function Collected(cap: Capture, max: int): set<nat> {
    Hashed(cap, FramesRead(cap, max))
  }

  lemma StopIndexIs(cap: Capture, max: int, i: nat)
    requires EndsSampling(cap, max, i)
    requires forall j :: 0 <= j < i ==> !EndsSampling(cap, max, j)
    ensures StopIndex(cap, max, 0) == i
  {
  }

  /** `appendSampleVideoToHashDB`: a path that is not a regular file is
      skipped; otherwise its frames are hashed (see `HashFrames`). */
  method AppendSampleVideoToHashDB(db: HashSet, fs: FileSystem, src: string, max: int)
    modifies db
    ensures db.elems == old(db.elems) + FileCollected(fs, src, max)
  {
    if src !in fs {
      return;
    }
    var n := HashFrames(db, fs[src].capture, max);  // only logged
  }

  /** The loop of `appendSampleVideoToHashDB`: read every frame and add its
      fingerprint, until a read fails or, with a positive bound, a frame
      lies past it. */
  method HashFrames(db: HashSet, cap: Capture, max: int) returns (n: nat)
    modifies db
    ensures db.elems == old(db.elems) + Collected(cap, max)
    ensures n == |db.elems| - |old(db.elems)|
  {
    ghost var start := db.elems;
    n := 0;
    var i := 0;
    while cap.isOpen
      invariant i <= |cap.frames|
      invariant !cap.isOpen ==> i == 0
      invariant db.elems == start + Hashed(cap, i)
      invariant forall j :: 0 <= j < i ==> !EndsSampling(cap, max, j)
      invariant n == |db.elems| - |start|
      decreases |cap.frames| - i
    {
      var frame := Read(cap, i);
      if !frame.ok || (max > 0 && frame.ms > max) {
        StopIndexIs(cap, max, i);
        break;
      }
      assert !EndsSampling(cap, max, i);
      ghost var before := db.elems;
      if frame.hash !in db.elems {
        n := n + 1;
      }
      db.Add(frame.hash);
      CountAdded(before, frame.hash);
      i := i + 1;
    }
  }

  lemma CountAdded(s: set<nat>, x: nat)
    ensures x in s ==> |s + {x}| == |s|
    ensures x !in s ==> |s + {x}| == |s| + 1
  {
    if x in s {
      assert s + {x} == s;
    }
  }

  /** Without a positive bound every frame up to the first failed read is
      hashed, whatever its position. */
  lemma {:induction false} UnboundedReadsToEnd(cap: Capture, max: int, i: nat)
    requires max <= 0
    ensures var k := StopIndex(cap, max, i);
      !Read(cap, k).ok && forall j :: i <= j < k ==> Read(cap, j).ok
    decreases |cap.frames| - i
  {
    if !EndsSampling(cap, max, i) {
      UnboundedReadsToEnd(cap, max, i + 1);
    }
  }

  /** With a positive bound, every fingerprint added comes from a frame read
      successfully at or before the bound. */
  lemma CollectedWithinBound(cap: Capture, max: int, hash: nat)
    requires max > 0 && hash in Collected(cap, max)
    ensures exists k :: 0 <= k < |cap.frames| && cap.frames[k].ok && cap.frames[k].ms <= max && cap.frames[k].hash == hash
  {
    HashedMember(cap, FramesRead(cap, max), hash);
    var k :| 0 <= k < FramesRead(cap, max) && Read(cap, k).hash == hash;
    assert StopIndex(cap, max, 0) == FramesRead(cap, max);
    assert !EndsSampling(cap, max, k);
  }

  /** A stream whose frames all hash alike adds exactly one fingerprint, if
      it yields any frame at all. */
  lemma UniformStream(cap: Capture, max: int, hash: Hash)
    requires forall k :: 0 <= k < |cap.frames| ==> cap.frames[k].hash == hash
    requires FramesRead(cap, max) > 0
    ensures Collected(cap, max) == {hash}
  {
    assert Read(cap, 0).ok;
    forall x ensures x in Collected(cap, max) <==> x == hash {
      HashedMember(cap, FramesRead(cap, max), x);
    }
  }

  /** The operation `doAppendHash` runs for. */
  datatype Mode = Build | Append

  /** The bound of `doAppendHash`: append mode needs `-t` of at least one
      second and bounds by it in milliseconds; build mode has no bound. */
  function AppendBound(mode: Mode, end: int): (max: Option<int>)
    ensures max.None? <==> mode == Append && end < 1
    ensures mode == Append && max.Some? ==> max.value == end * 1000
    ensures mode == Build ==> max == Some(-1)
  {
    if mode == Append && end < 1 then None
    else if mode == Append then Some(end * 1000)
    else Some(-1)
  }

  /** In append mode the bound is in force: nothing past `end` seconds is
      added. */
  lemma AppendModeBounded(end: int, cap: Capture, hash: nat)
    requires AppendBound(Append, end).Some? && hash in Collected(cap, AppendBound(Append, end).value)
    ensures exists k :: 0 <= k < |cap.frames| && cap.frames[k].ok && cap.frames[k].ms <= end * 1000 && cap.frames[k].hash == hash
  {
    CollectedWithinBound(cap, end * 1000, hash);
  }

  /** In build mode every frame before the stream ends is added. */
  lemma BuildModeUnbounded(end: int, cap: Capture)
    requires cap.isOpen
    ensures var k := FramesRead(cap, AppendBound(Build, end).value);
      !Read(cap, k).ok && forall j :: 0 <= j < k ==> Read(cap, j).ok
  {
    UnboundedReadsToEnd(cap, -1, 0);
  }

  /** The fingerprints all of `files` contribute. */
  function CollectedAll(fs: FileSystem, files: seq<string>, max: int): set<nat> {
    if files == [] then {}
    else FileCollected(fs, files[0], max) + CollectedAll(fs, files[1..], max)
  }

  lemma {:induction false} CollectedAllAppend(fs: FileSystem, a: seq<string>, b: seq<string>, max: int)
    ensures CollectedAll(fs, a + b, max) == CollectedAll(fs, a, max) + CollectedAll(fs, b, max)
  {
    if a == [] {
      assert a + b == b;
    } else {
      assert (a + b)[1..] == a[1..] + b;
      CollectedAllAppend(fs, a[1..], b, max);
    }
  }

  lemma CollectedAllSnoc(fs: FileSystem, files: seq<string>, j: nat, max: int)
    requires j < |files|
    ensures CollectedAll(fs, files[..j + 1], max) == CollectedAll(fs, files[..j], max) + FileCollected(fs, files[j], max)
  {
    CollectedAllAppend(fs, files[..j], [files[j]], max);
    assert files[..j] + [files[j]] == files[..j + 1];
    assert CollectedAll(fs, [files[j]], max) == FileCollected(fs, files[j], max);
  }

  /** The inner loop of `doAppendHash` over the files of one input path. */
  method AppendFiles(db: HashSet, fs: FileSystem, files: seq<string>, max: int)
    modifies db
    ensures db.elems == old(db.elems) + CollectedAll(fs, files, max)
  {
    ghost var start := db.elems;
    for j := 0 to |files|
      invariant db.elems == start + CollectedAll(fs, files[..j], max)
    {
      AppendSampleVideoToHashDB(db, fs, files[j], max);
      CollectedAllSnoc(fs, files, j, max);
    }
    assert files[..|files|] == files;
  }

  lemma CollectedAllSources(fs: FileSystem, exts: Option<set<string>>, sources: seq<Source>, i: nat, max: int)
    requires i < |sources|
    ensures CollectedAll(fs, AllFiles(exts, sources[..i + 1]), max) ==
            CollectedAll(fs, AllFiles(exts, sources[..i]), max) + CollectedAll(fs, VideoFiles(exts, sources[i]), max)
  {
    AllFilesSnoc(exts, sources, i);
    CollectedAllAppend(fs, AllFiles(exts, sources[..i]), VideoFiles(exts, sources[i]), max);
  }

  /** The outer loop of `doAppendHash` over the input paths. */
  method AppendSources(db: HashSet, fs: FileSystem, exts: Option<set<string>>, sources: seq<Source>, max: int)
    modifies db
    ensures db.elems == old(db.elems) + CollectedAll(fs, AllFiles(exts, sources), max)
  {
    ghost var start := db.elems;
    for i := 0 to |sources|
      invariant db.elems == start + CollectedAll(fs, AllFiles(exts, sources[..i]), max)
    {
      var files := GetAllVideoFiles(exts, sources[i]);
      AppendFiles(db, fs, files, max);
      CollectedAllSources(fs, exts, sources, i, max);
    }
    assert sources[..|sources|] == sources;
  }

  /** `doAppendHash`: reject append mode without a positive `-t`; otherwise
      load the database, fold in the fingerprints of every input file and
      rewrite the file with the result. `added` is the number of
      fingerprints that were new. */
  method DoAppendHash(store: HashStore, mode: Mode, end: int, exts: Option<set<string>>,
                      sources: seq<Source>, fs: FileSystem) returns (exit: Exit, added: int)
    modifies store
    ensures AppendBound(mode, end).None? ==> exit == Exit(1) && store.file == old(store.file)
    ensures AppendBound(mode, end).Some? && LoadedDB(old(store.file)).Err? ==>
      exit == Crash(LoadedDB(old(store.file)).error) && store.file == old(store.file)
    ensures AppendBound(mode, end).Some? && LoadedDB(old(store.file)).Ok? ==>
      var loaded := LoadedDB(old(store.file)).value;
      var all := loaded + CollectedAll(fs, AllFiles(exts, sources), AppendBound(mode, end).value);
      exit == Exit(0) && LoadedDB(store.file) == Ok(all) && added == |all| - |loaded| &&
      exists hs: seq<nat> :: store.file == Some(Serialize(hs)) && Elements(hs) == all && Distinct(hs)
  {
    added := 0;
    var bound := AppendBound(mode, end);
    if bound.None? {
      return Exit(1), added;
    }
    var max := bound.value;
    var loaded := LoadHashDB(store);
    if loaded.Err? {
      return Crash(loaded.error), added;
    }
    var db := new HashSet(loaded.value);
    var n := |db.elems|;
    AppendSources(db, fs, exts, sources, max);
    added := |db.elems| - n;
    WriteHashDB(store, db.elems);
    return Exit(0), added;
  }
}
