/** The extension allow-list: parsing the `-e` option into a set of suffixes
    (vtrim.py:368-369), the suffix test `Configs.hasValidExtension`, and the
    filtering of candidate files done by `getAllVideoFiles`. */
module Extensions {
  import opened Wrappers

  predicate IsUpper(c: char) {
    'A' <= c <= 'Z'
  }

  /** `str.lower()` on one character, for the ASCII letters. */
  function LowerChar(c: char): char {
    if IsUpper(c) then (c as int + 32) as char else c
  }

  function Lower(s: string): string {
    seq(|s|, i requires 0 <= i < |s| => LowerChar(s[i]))
  }

  predicate NoUpper(s: string) {
    forall i :: 0 <= i < |s| ==> !IsUpper(s[i])
  }

  /** A lowered string has no upper-case letter left, and lowering it again
      changes nothing. */
  lemma LowerIsLower(s: string)
    ensures NoUpper(Lower(s))
    ensures Lower(Lower(s)) == Lower(s)
  {
  }

  /** `s.endswith(suffix)`. */
  predicate EndsWith(s: string, suffix: string) {
    |suffix| <= |s| && s[|s| - |suffix|..] == suffix
  }

  /** What `hasValidExtension` decides: no allow-list, or the lowered path
      ends with one of its elements. */
  predicate ValidExtension(exts: Option<set<string>>, path: string) {
    exts.None? || exists e :: e in exts.value && EndsWith(Lower(path), e)
  }

  /** `Configs.hasValidExtension`: a loop over the allow-list that returns at
      the first suffix that matches. */
  method HasValidExtension(exts: Option<set<string>>, path: string) returns (valid: bool)
    ensures valid <==> ValidExtension(exts, path)
  {
    if exts.None? {
      return true;
    }
    var lower := Lower(path);
    var rest := exts.value;
    while rest != {}
      invariant rest <= exts.value
      invariant forall e :: e in exts.value && e !in rest ==> !EndsWith(lower, e)
      decreases |rest|
    {
      var e :| e in rest;
      if EndsWith(lower, e) {
        return true;
      }
      rest := rest - {e};
    }
    return false;
  }

  /** The characters the pattern `' |,|\.'` splits on. */
  predicate IsSeparator(c: char) {
    c == ' ' || c == ',' || c == '.'
  }

  /** `re.split(r' |,|\.', s)`: the pieces between separators, including the
      empty ones; n separators give n + 1 pieces. */
  function Split(s: string): (pieces: seq<string>)
    ensures |pieces| >= 1
  {
    if s == [] then [[]]
    else
      var rest := Split(s[1..]);
      if IsSeparator(s[0]) then [[]] + rest
      else [[s[0]] + rest[0]] + rest[1..]
  }

  /** The pieces joined back with one space between neighbours. */
  function Join(pieces: seq<string>): string
    requires |pieces| >= 1
  {
    if |pieces| == 1 then pieces[0] else pieces[0] + " " + Join(pieces[1..])
  }

  /** `s` with every separator replaced by a space. */
  function Normalize(s: string): string {
    seq(|s|, i requires 0 <= i < |s| => if IsSeparator(s[i]) then ' ' else s[i])
  }

  /** Splitting loses nothing but the choice of separator: joining the
      pieces again gives back the input, up to which separator stood where. */
  lemma {:induction false} SplitJoin(s: string)
    ensures Join(Split(s)) == Normalize(s)
  {
    if s != [] {
      var rest := Split(s[1..]);
      SplitJoin(s[1..]);
      assert Normalize(s) == [Normalize(s)[0]] + Normalize(s[1..]);
      if !IsSeparator(s[0]) {
        JoinCons(s[0], rest);
      }
    }
  }

  lemma JoinCons(c: char, pieces: seq<string>)
    requires |pieces| >= 1
    ensures Join([[c] + pieces[0]] + pieces[1..]) == [c] + Join(pieces)
  {
    var ps := [[c] + pieces[0]] + pieces[1..];
    if |pieces| > 1 {
      assert ps[1..] == pieces[1..];
    }
  }

  /** Every character of a piece comes from `s` and is not a separator. */
  predicate PieceOf(p: string, s: string) {
    forall i :: 0 <= i < |p| ==> p[i] in s && !IsSeparator(p[i])
  }

  lemma {:induction false} SplitPieces(s: string)
    ensures forall k :: 0 <= k < |Split(s)| ==> PieceOf(Split(s)[k], s)
  {
    if s != [] {
      SplitPieces(s[1..]);
      var rest := Split(s[1..]);
      forall k | 0 <= k < |rest|
        ensures PieceOf(rest[k], s)
      {
        assert PieceOf(rest[k], s[1..]);
        forall i | 0 <= i < |rest[k]|
          ensures rest[k][i] in s
        {
          assert rest[k][i] in s[1..];
        }
      }
    }
  }

  /** The `-e` option value turned into the allow-list:
      `set(["." + x for x in re.split(r' |,|\.', value.lower()) if x])`.
      Every element is a dot followed by at least one character, and after the
      dot holds no separator and no upper-case letter. */
  function ParseExtensions(value: string): (exts: set<string>)
    ensures forall e :: e in exts ==>
      |e| >= 2 && e[0] == '.' && forall i :: 1 <= i < |e| ==> !IsSeparator(e[i]) && !IsUpper(e[i])
  {
    var lower := Lower(value);
    LowerIsLower(value);
    SplitPieces(lower);
    set x | x in Split(lower) && x != [] :: "." + x
  }

  /** An element of the allow-list is exactly a dot before a non-empty piece
      of the lowered option value. */
  lemma ParseExtensionsMembers(value: string, piece: string)
    ensures "." + piece in ParseExtensions(value) <==> piece in Split(Lower(value)) && piece != []
  {
    if "." + piece in ParseExtensions(value) {
      var x :| x in Split(Lower(value)) && x != [] && "." + x == "." + piece;
      assert x == ("." + x)[1..] == ("." + piece)[1..] == piece;
    }
  }

  /** One entry of a recursive directory walk: the file's own name, which the
      extension test looks at, and the joined path that is returned. */
  datatype WalkEntry = WalkEntry(name: string, fullPath: string)

  /** An input path: whether it is a regular file, and what walking it as a
      directory yields (nothing, when it does not exist). */
  datatype Source = Source(path: string, isFile: bool, walk: seq<WalkEntry>)

  function WalkFiles(exts: Option<set<string>>, entries: seq<WalkEntry>): seq<string> {
    if entries == [] then []
    else
      var last := entries[|entries| - 1];
      WalkFiles(exts, entries[..|entries| - 1]) + (if ValidExtension(exts, last.name) then [last.fullPath] else [])
  }

  /** The files `getAllVideoFiles` yields for one input path. */
  function VideoFiles(exts: Option<set<string>>, src: Source): seq<string> {
    if src.isFile then (if ValidExtension(exts, src.path) then [src.path] else [])
    else WalkFiles(exts, src.walk)
  }

  /** `getAllVideoFiles`: a file is kept when its extension is allowed; a
      directory contributes its walked files whose names are allowed. */
  method GetAllVideoFiles(exts: Option<set<string>>, src: Source) returns (files: seq<string>)
    ensures files == VideoFiles(exts, src)
  {
    files := [];
    if src.isFile {
      var valid := HasValidExtension(exts, src.path);
      if valid {
        files := files + [src.path];
      }
      return;
    }
    for i := 0 to |src.walk|
      invariant files == WalkFiles(exts, src.walk[..i])
    {
      var entry := src.walk[i];
      var valid := HasValidExtension(exts, entry.name);
      if valid {
        files := files + [entry.fullPath];
      }
      assert src.walk[..i + 1][..i] == src.walk[..i];
    }
    assert src.walk[..|src.walk|] == src.walk;
  }

  /** Every walked file kept has an allowed name. */
  lemma {:induction false} WalkFilesSound(exts: Option<set<string>>, entries: seq<WalkEntry>, p: string)
    requires p in WalkFiles(exts, entries)
    ensures exists k :: 0 <= k < |entries| && entries[k].fullPath == p && ValidExtension(exts, entries[k].name)
  {
    var last := entries[|entries| - 1];
    var init := entries[..|entries| - 1];
    if p in WalkFiles(exts, init) {
      WalkFilesSound(exts, init, p);
      var k :| 0 <= k < |init| && init[k].fullPath == p && ValidExtension(exts, init[k].name);
      assert entries[k] == init[k];
    } else {
      assert entries[|entries| - 1] == last;
    }
  }

  /** Every walked file whose name is allowed is kept. */
  lemma {:induction false} WalkFilesComplete(exts: Option<set<string>>, entries: seq<WalkEntry>, k: nat)
    requires k < |entries| && ValidExtension(exts, entries[k].name)
    ensures entries[k].fullPath in WalkFiles(exts, entries)
  {
    if k < |entries| - 1 {
      var init := entries[..|entries| - 1];
      assert init[k] == entries[k];
      WalkFilesComplete(exts, init, k);
    }
  }

  /** Without an allow-list every walked file is kept, in walk order. */
  lemma {:induction false} WalkFilesUnfiltered(entries: seq<WalkEntry>)
    ensures WalkFiles(None, entries) == seq(|entries|, i requires 0 <= i < |entries| => entries[i].fullPath)
  {
    if entries != [] {
      WalkFilesUnfiltered(entries[..|entries| - 1]);
    }
  }
}
