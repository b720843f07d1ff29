# vtrim decision core in Dafny

`vtrim.py` removes a recurring intro from video files. It keeps a database
of perceptual hashes of intro frames, one decimal per line. In cut mode it
reads each input video frame by frame. A frame is sampled when its position
reaches the sample mark `t`, which starts at 1000 ms and rises by 1000 ms
per sample, so after a gap in the timestamps consecutive frames can both be
sampled. Every sample is compared with the database. The scan stops at the first sample it does not recognise, at the
end of the stream, or at the first frame past a five-minute window. When
the position it stops at is above three seconds, the file is cut there with
`ffmpeg`. In build and append mode it hashes the frames of the sample
videos into the database: in build mode every frame up to the first failed
read, in append mode only the frames up to `-t` seconds, again stopping at
the first failed read.

This project models the decision core of that program over an abstract
frame stream. A decoded video is a sequence of `(ok, ms, hash)` records,
together with whether the capture opened and the position reported after
the last frame. Ctrl+C is an input: the poll count from which
`isCancelled()` answers true.

Modules, one per concern of the program:

- `Wrappers`: `Option` and `Result`.
- `Fingerprint`: 64-bit hashes, `hamming` as the popcount of XOR, the
  default threshold `ceil(32 * (1 - 0.8)) = 7`, and `isSimilar`.
- `Frames`: the frame stream, and the Ctrl+C flag polled at numbered points.
- `Extensions`: the `-e` option parser, `hasValidExtension` and
  `getAllVideoFiles`.
- `HashDB`: the database file as text (`clearHashDB`, `appendHashDB`,
  `loadHashDB`, `writeHashDB`), with the write-then-load round trip.
- `Scanner`: `findCutPoint`. It is a loop method proved equal to a
  recursive specification function, and that function is characterised
  without a loop.
- `Batch`: what both modes share: the regular files by path, how the input
  paths expand to files, and how a run ends.
- `Cutter`: `processVideoFile` and `doCutVideoFiles`.
- `Builder`: `appendSampleVideoToHashDB` over an in-place hash set, and
  `doAppendHash`.

Three behaviours of the code a reader might not expect, which the model
keeps:

- A file whose scan is cut short by Ctrl+C is not left out of the counts.
  `findCutPoint` returns -1, `processVideoFile` then passes the file over
  and returns `False`, and `doCutVideoFiles` counts it as a failure
  (vtrim.py:147-149, 198-204, 134-137). See `Cutter.CancelledScanIsPassed`.
- The current file does not run to completion after Ctrl+C. Its scan stops
  at the next poll.
- A path that is not a regular file is also counted as a failure.

## Model

| member | source | states |
|---|---|---|
| Fingerprint.Xor | vtrim.py:289 | `a ^ b` on non-negative integers, one bit at a time; `XorBit` ties it to the bits of the operands |
| Fingerprint.PopCount | vtrim.py:289 | `bin(x).count('1')`, one bit at a time; `PopCountOnes`, `PopCountZeroIff` and `PopCountBelow` state its properties |
| Fingerprint.Hamming | vtrim.py:288-289 | `hamming` as the popcount of the XOR; `HammingSymmetric`, `HammingZeroIff` and `HammingAtMost64` state its properties |
| Fingerprint.XorBit | vtrim.py:288-289 | each bit of `a ^ b` is set exactly when the bits of `a` and `b` differ |
| Fingerprint.XorSymmetric | vtrim.py:288-289 | `a ^ b == b ^ a` |
| Fingerprint.XorZeroIff | vtrim.py:288-289 | `a ^ b == 0` exactly when `a == b` |
| Fingerprint.XorZeroLeft | vtrim.py:288-289 | `0 ^ b == b` |
| Fingerprint.PopCountOnes | vtrim.py:289 | the number of ones in `2^k - 1` is `k` |
| Fingerprint.PopCountZeroIff | vtrim.py:289 | a number has no one bit exactly when it is 0 |
| Fingerprint.HammingSymmetric | vtrim.py:288-289 | the distance is symmetric |
| Fingerprint.HammingZeroIff | vtrim.py:288-289 | the distance is 0 exactly when the hashes are equal |
| Fingerprint.XorBelow | vtrim.py:288-289 | XOR of two values below `2^k` stays below `2^k` |
| Fingerprint.PopCountBelow | vtrim.py:289 | a value below `2^k` has at most `k` one bits |
| Fingerprint.Pow2Is64 | vtrim.py:295-296 | the range of an 8-byte hash is `2^64` |
| Fingerprint.HammingAtMost64 | vtrim.py:288-289 | two 8-byte hashes differ in at most 64 bits |
| Fingerprint.MaxHammingDistance | vtrim.py:42 | the threshold `ceil(8 * 4 * (1 - similarity))` over exact reals; `DefaultThreshold` evaluates it |
| Fingerprint.Ceil | vtrim.py:42 | `math.ceil`: the least integer not below `x` |
| Fingerprint.DefaultThreshold | vtrim.py:42 | with exact arithmetic, `ceil(8 * 4 * (1 - 0.8))` is 7 |
| Fingerprint.Similar | vtrim.py:56-68 | the meaning of `isSimilar`: the hash is a member, or some member is closer than the threshold; `IsSimilar` is proved to compute it |
| Fingerprint.IsSimilar | vtrim.py:56-68 | the loop answers true exactly when the hash is a member, or some member is closer than the threshold |
| Fingerprint.MemberIsSimilar | vtrim.py:57-59 | an exact member is similar whatever the threshold |
| Fingerprint.EmptyNeverSimilar | vtrim.py:56-68 | nothing is similar to the empty set |
| Fingerprint.SimilarIffClose | vtrim.py:56-68 | for a positive threshold, similar exactly when some member is closer than the threshold |
| Fingerprint.SimilarNonPositive | vtrim.py:56-68 | for a threshold of 0 or less, similar exactly when the hash is a member |
| Fingerprint.SimilarMonotone | vtrim.py:61-65 | raising the threshold never loses a match |
| Fingerprint.SimilarSubset | vtrim.py:61-65 | adding hashes to the set never loses a match |
| Frames.Read | vtrim.py:150-151 | a read succeeds only inside the stream |
| Frames.IsCancelled | vtrim.py:53-54 | `isCancelled()` at a given poll: true from the Ctrl+C poll on, never cleared |
| Frames.CancelledStaysCancelled | vtrim.py:48-54 | once `isCancelled()` answers true, it answers true at every later poll |
| Extensions.Lower | vtrim.py:111 | `path.lower()` on ASCII letters; `LowerIsLower` states its properties |
| Extensions.EndsWith | vtrim.py:113 | `s.endswith(suffix)`: the last characters of `s` are `suffix` |
| Extensions.ValidExtension | vtrim.py:108-115 | the meaning of `hasValidExtension`: no allow-list, or the lowered path ends with an allowed suffix; `HasValidExtension` is proved to compute it |
| Extensions.LowerIsLower | vtrim.py:111 | a lowered string has no upper-case letter, and lowering is idempotent |
| Extensions.HasValidExtension | vtrim.py:108-115 | true without an allow-list; otherwise true exactly when the lowered path ends with an allowed suffix |
| Extensions.IsSeparator | vtrim.py:369 | the separators of the split pattern: space, comma and dot |
| Extensions.Split | vtrim.py:369 | splitting always yields at least one piece |
| Extensions.SplitJoin | vtrim.py:369 | joining the pieces gives back the input up to the choice of separator |
| Extensions.SplitPieces | vtrim.py:369 | each piece is made of characters of the input and holds no separator |
| Extensions.ParseExtensions | vtrim.py:368-369 | every allowed suffix is a dot and at least one more character, none of them a separator or upper-case |
| Extensions.ParseExtensionsMembers | vtrim.py:368-369 | `"." + p` is allowed exactly when `p` is a non-empty piece of the lowered value |
| Extensions.WalkFiles | vtrim.py:251-255 | the walked files whose names are allowed, in walk order; `WalkFilesSound`, `WalkFilesComplete` and `WalkFilesUnfiltered` state its properties |
| Extensions.VideoFiles | vtrim.py:244-256 | the meaning of `getAllVideoFiles`: an allowed file path, or the allowed walked files of a directory |
| Extensions.GetAllVideoFiles | vtrim.py:244-256 | the loop returns the filtered path of a file, or the filtered walk of a directory |
| Extensions.WalkFilesSound | vtrim.py:251-255 | every kept path comes from a walked file whose name is allowed |
| Extensions.WalkFilesComplete | vtrim.py:251-255 | every walked file whose name is allowed is kept |
| Extensions.WalkFilesUnfiltered | vtrim.py:251-255 | without an allow-list every walked file is kept, in walk order |
| HashDB.ParseInt | vtrim.py:215 | `int(line)`: the value of the digits before an optional final newline, or an error naming the line |
| HashDB.ReadLines | vtrim.py:214 | `readlines()`: the text cut after each newline, the last line without one if the text does not end in a newline; `ReadLinesCons` states it on written files |
| HashDB.ParseLines | vtrim.py:214-215 | the set of the lines' values, or the error of the first bad line; `ParseLinesSnoc` and `ParseLinesErrPrefix` state its properties |
| HashDB.LoadedDB | vtrim.py:207-217 | the meaning of `loadHashDB`: the empty set for a missing file, else its lines parsed; `LoadHashDB` is proved to compute it |
| HashDB.Serialize | vtrim.py:281-286 | the text of a file written one decimal per line in the given order; `LoadSerialized` is its inverse |
| HashDB.Decimal | vtrim.py:105 | `str(n)` is a non-empty string of digits without a leading zero |
| HashDB.DecimalValue | vtrim.py:105 | the digits `str` writes read back as the number |
| HashDB.ParseWrittenLine | vtrim.py:103-106 | `int()` of a written line, newline included, is the number written |
| HashDB.ReadLinesCons | vtrim.py:214 | the first line of a written file is the first number written, with its newline |
| HashDB.LoadSerialized | vtrim.py:281-286 | a file written one decimal per line, as `clearHashDB` and `appendHashDB` do, loads back through `loadHashDB` as the set of the numbers written |
| HashDB.ParseLinesSnoc | vtrim.py:214-215 | parsing one more line adds its number, or raises on it |
| HashDB.ParseLinesErrPrefix | vtrim.py:214-215 | a line that is not a number makes the whole load raise, whatever follows it |
| HashDB.HashStore.ClearHashDB | vtrim.py:99-101 | the file exists and is empty |
| HashDB.HashStore.AppendHashDB | vtrim.py:103-106 | the file, created if missing, gains the decimal and a newline at its end |
| HashDB.LoadStep | vtrim.py:214-215 | one iteration of the load loop either adds the line's number or decides the result as that line's error |
| HashDB.LoadHashDB | vtrim.py:207-217 | the loop's result is the loaded set: empty for a missing file, else every line's number, or the first bad line's error |
| HashDB.WriteStep | vtrim.py:284-285 | writing one more not-yet-written member keeps the written lines distinct and still covering what was written |
| HashDB.WriteHashDB | vtrim.py:281-286 | the file holds each member on exactly one line and loads back as the set |
| Scanner.DefaultConfig | vtrim.py:31-42 | the default scan settings: threshold 7, a five-minute window, no Ctrl+C |
| Scanner.ScanFrom | vtrim.py:146-161 | the loop of `findCutPoint` from a given read, as a recursive function; `ScanFromSpec` states its result without the recursion |
| Scanner.Scan | vtrim.py:142-163 | the meaning of `findCutPoint`: 0 for a capture that never opens, else the loop from the first read; `ScanSpec` and `ScanEdges` characterise it |
| Scanner.FindCutPoint | vtrim.py:142-163 | the loop returns the position and poll count of the scan specification |
| Scanner.NextSampleAtCounts | vtrim.py:145-157 | the next sample position is 1000 plus 1000 per sample taken |
| Scanner.NextSampleAt | vtrim.py:145-157 | the value of `t` before a given read: 1000, raised by 1000 at each read with `ms >= t` |
| Scanner.IsSampled | vtrim.py:156-157 | a read is hashed and matched exactly when its position reaches `t` |
| Scanner.StopsAt | vtrim.py:152-161 | a read ends the scan when it fails, lies past the window, or is a sample unlike every known hash |
| Scanner.StopKind | vtrim.py:152-161 | which of those three exits a stopping read takes |
| Scanner.FirstStop | vtrim.py:150-161 | the first read that fails, lies past the window, or is a sample unlike every known hash |
| Scanner.ScanFromSpec | vtrim.py:146-163 | from any read, the loop ends at the first stopping read, or at -1 when a poll before it sees Ctrl+C |
| Scanner.ScanSpec | vtrim.py:146-163 | an opened scan returns -1 if one of its polls sees Ctrl+C, and otherwise the position of the first stopping read, with every read polled once |
| Scanner.ScanEdges | vtrim.py:145-149 | a capture that never opens gives 0 without polling; Ctrl+C before the first read gives -1 |
| Scanner.ScanClock | vtrim.py:146-149 | an open scan polls at least once; a cancelled scan has seen the flag; without Ctrl+C no scan is cancelled |
| Scanner.NovelFrameIsSampled | vtrim.py:152-161 | a novel stop is a sampled frame read successfully, at one second or later within the window, that is unlike every known hash |
| Scanner.FirstSecond | vtrim.py:145-156 | the first read that fails, lies past the window, or is at one second or later |
| Scanner.NoSampleBeforeFirstSecond | vtrim.py:145-157 | no frame before the first one at one second or later is sampled |
| Scanner.EmptyDatabaseScan | vtrim.py:145-161 | against an empty database the scan returns the position of the first frame at one second or later, and stops as novel exactly when that frame was read inside the window |
| Scanner.ScanFromStep | vtrim.py:150-161 | a read that is inside the window and, if sampled, similar moves on to the next read, advancing `t` exactly when sampled |
| Scanner.HeaderOfTwoSeconds | vtrim.py:145-161 | a two-second known header followed by a distant hash stops at 3000 ms, and a distant frame between samples is never compared |
| Scanner.HeaderOfFourSeconds | vtrim.py:145-161 | a header of four one-second samples of the known hash followed by a distant hash stops as novel at 5000 ms |
| Scanner.DistanceTen | vtrim.py:288-289 | hashes 0 and 0x3ff are ten bits apart |
| Cutter.Decide | vtrim.py:198-201 | a cut is made exactly when the result is above 3000 ms, at `ms / 1000` seconds |
| Cutter.Process | vtrim.py:191-204 | the meaning of `processVideoFile`: not a file, passed over, cut failed or cut done; `ProcessSucceedsIff` states when it succeeds |
| Cutter.ProcessVideoFile | vtrim.py:191-204 | the outcome and poll count are those of the per-file specification |
| Cutter.ProcessSucceedsIff | vtrim.py:179-204 | a file succeeds exactly when it is a regular file, its scan ends above 3000 ms and the cut succeeds |
| Cutter.CancelledScanIsPassed | vtrim.py:198-204 | a scan cut short by Ctrl+C passes its file over, so the file counts as a failure |
| Cutter.ProcessClock | vtrim.py:197 | processing never moves the poll count backwards, and a cancelled scan leaves the flag seen |
| Cutter.RunFiles | vtrim.py:131-137 | the inner loop of `doCutVideoFiles`: one poll before each file, stop on Ctrl+C, one count per visit; `RunFilesCounted`, `RunFilesChronicle` and `RunFilesProgress` state its properties |
| Cutter.RunSources | vtrim.py:128-137 | the outer loop: one poll before each input path, stop on Ctrl+C; `RunSourcesKeeps`, `RunSourcesPaths` and `RunSourcesProgress` state its properties |
| Cutter.CutRun | vtrim.py:127-138 | the counters and visits of a whole cut run; `CutRunCounts`, `CutRunStopsOnCancel` and `CutRunOrder` state its properties |
| Batch.AllFiles | vtrim.py:128-131 | every file the input paths expand to, in order; `CutRunOrder` and `DoAppendHash` are stated against it |
| Cutter.CutFiles | vtrim.py:131-137 | the inner loop's counters and poll count are those of the batch specification |
| Cutter.DoCutVideoFiles | vtrim.py:118-139 | a missing database gives 1 without processing; a bad database line raises; otherwise 0 with the batch specification's counters |
| Cutter.RunFilesCounted | vtrim.py:134-137 | the inner loop keeps every visited file counted once, as a success exactly when it was cut |
| Cutter.RunFilesChronicle | vtrim.py:131-137 | the inner loop starts files only at polls without Ctrl+C, and each visit is the file's `processVideoFile` outcome |
| Cutter.RunFilesProgress | vtrim.py:131-133 | the inner loop visits a prefix of its files, all of them unless a poll sees Ctrl+C, and none once the flag is seen |
| Cutter.RunSourcesKeeps | vtrim.py:128-137 | the outer loop keeps every visit counted once, and each visit started at a poll without Ctrl+C with its file's outcome |
| Cutter.RunSourcesPaths | vtrim.py:128-133 | the outer loop visits a prefix of the expanded file list |
| Cutter.RunSourcesProgress | vtrim.py:128-133 | an outer loop that stops short has seen Ctrl+C; without Ctrl+C it visits every file |
| Cutter.CutRunCounts | vtrim.py:127-138 | every visited file is counted exactly once: `success + fail` is the number of visits, and `success` the number of cuts |
| Cutter.CutRunStopsOnCancel | vtrim.py:128-133 | no file is started after a poll sees Ctrl+C; each visit is `processVideoFile` on that file; only the last visit can have been cut short |
| Cutter.CutRunOrder | vtrim.py:128-133 | files are visited in the order the input paths expand to, all of them without Ctrl+C, and an early stop has seen the flag |
| Cutter.HeaderScenarios | vtrim.py:197-201 | with fingerprints 0 and 0x3ff, a header whose scan ends at 3000 ms passes the file over, and one whose scan ends at 5000 ms is cut at five seconds |
| Builder.FileCollected | vtrim.py:220-223 | the hashes one path contributes: none unless it is a regular file |
| Builder.FramesRead | vtrim.py:228-233 | how many frames are hashed: none if the capture does not open, else up to the first stopping read |
| Builder.Hashed | vtrim.py:234-239 | the hashes of the first reads; `HashedMember` characterises it |
| Builder.Collected | vtrim.py:228-239 | the hashes of the frames read before the stop; `CollectedWithinBound`, `UniformStream` and `UnboundedReadsToEnd` state its properties |
| Builder.CollectedAll | vtrim.py:273-275 | the hashes all the given files contribute |
| Builder.HashSet.Add | vtrim.py:239 | `db.add(hash)`: the set gains the hash and nothing else |
| Builder.EndsSampling | vtrim.py:232 | a read ends the loop when it fails, or a positive bound is set and the frame lies past it |
| Builder.StopIndex | vtrim.py:230-233 | the first read that fails, or lies past a positive bound; no earlier read does |
| Builder.HashedMember | vtrim.py:234-239 | a hash has been added exactly when some frame read so far has it |
| Builder.HashFrames | vtrim.py:226-239 | the set becomes the old set plus the hashes of every frame read before the stop; `n` is its growth |
| Builder.AppendSampleVideoToHashDB | vtrim.py:220-241 | a path that is not a file leaves the set alone; otherwise its frame hashes are added and none removed |
| Builder.UnboundedReadsToEnd | vtrim.py:232-233 | without a positive bound, reading stops only at the first failed read |
| Builder.CollectedWithinBound | vtrim.py:232-234 | with a positive bound, only hashes of frames at or before the bound are added |
| Builder.UniformStream | vtrim.py:234-239 | a stream whose frames all have one hash adds exactly that hash, if any frame is read |
| Builder.AppendBound | vtrim.py:263-269 | append mode with `end < 1` is rejected; append mode bounds at `end * 1000`; build mode is unbounded |
| Builder.AppendModeBounded | vtrim.py:263-267 | an accepted append run adds only hashes of frames read successfully at or before `end` seconds |
| Builder.BuildModeUnbounded | vtrim.py:268-269 | in build mode an opened file is hashed frame by frame up to its first failed read, whatever the positions |
| Builder.AppendFiles | vtrim.py:274-275 | the set gains the collected hashes of each file of one input path |
| Builder.AppendSources | vtrim.py:273-275 | the set gains the collected hashes of every expanded file |
| Builder.DoAppendHash | vtrim.py:259-278 | a rejected append run gives 1 and leaves the file alone; a bad database line raises and leaves the file alone; otherwise 0, the file holds each member of the old set plus every collected hash on exactly one line and loads back as that set, and the added count is its growth |

## Left out

- OpenCV decoding and `pHash` (vtrim.py:143-151, 227-234, 292-297) are foreign library calls. Their results are the input frames, each with its position already floored to milliseconds.
- The `ffmpeg` run and the optional move back (vtrim.py:166-188) are one boolean per file, `extractSucceeds`. The output path and the command line are not modelled.
- The `os.path.isfile` tests of `processVideoFile` and `appendSampleVideoToHashDB` (vtrim.py:192, 221) are membership in a map from paths to videos. The test in `getAllVideoFiles` (vtrim.py:246) is the separate field `Source.isFile`. The database tests (vtrim.py:122, 210) are whether the database file exists. Nothing ties these together, so a source marked as a file can still be found not to be a regular file when it is processed. For directories, `os.walk` is a given list of walked entries.
- The Ctrl+C handler (vtrim.py:46-51) is not modelled as a signal. Instead the model takes the poll count from which the flag reads true.
- Logging, the log file and `jsonpickle` (vtrim.py:70-97, 119-120) are output only, so they are not modelled.
- The logged frame counters `count` of `findCutPoint` and `appendSampleVideoToHashDB` are not modelled.
- Builder.AppendSampleVideoToHashDB: its count `n` is only logged and is not returned. It is stated on `Builder.HashFrames`. The total of newly added hashes (vtrim.py:276) is stated on `Builder.DoAppendHash` as `added`.
- `getopt` parsing, the `-i`, `-o`, `-d` and `-t` options and `main` (vtrim.py:300-389) are not modelled. The only part modelled is the `-e` split expression (vtrim.py:368-369). The append bound takes `end` as an already parsed integer.
- The similarity ratio 0.8 is exact. `DefaultThreshold` evaluates the formula over exact reals, not binary floating point. The model passes the resulting threshold as an integer.
- Exceptions from decoding or hashing a corrupt file are not modelled; only the frame stream decides what happens. In cut mode such an exception inside `findCutPoint` is caught at vtrim.py:202-204, and the file would be counted as a failure like any other falsy result. In build and append mode an exception inside `appendSampleVideoToHashDB` (vtrim.py:234) is not caught. It would abort `doAppendHash` before `writeHashDB` (vtrim.py:277), leaving the database file as it was.
- HashDB.ReadLines: it ends lines only at `\n`. Python reads the database in text mode, so `readlines()` also ends lines at `\r` and `\r\n`. Every file the program writes uses `\n` only.
- HashDB.ParseInt: it accepts only plain digits before the newline. Python's `int()` also allows surrounding whitespace, signs and underscores. Every file the program writes holds only plain digits.
- Extensions.Lower: it changes only ASCII letters, while Python's `lower()` follows full Unicode case mapping.
- Fingerprint.IsSimilar: the order in which the loop visits the set is not modelled, because the result does not depend on it.
- HashDB.WriteHashDB: it states that each member is written exactly once, in some order, rather than in Python's set iteration order.
- The default source `in` (vtrim.py:35) is not modelled. Neither is its removal when `-i` or `--in` is given (vtrim.py:350-351). Both are part of option parsing; the model takes the source list as given.
- The file system is one fixed map for the whole run. With `-m`, `shutil.move` replaces the source file with its cut (vtrim.py:182-185), so a path that appears twice among the expanded files is scanned the second time as the cut file in Python, while the model scans the original stream both times.
