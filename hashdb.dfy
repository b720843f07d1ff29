/** The fingerprint database file: one decimal integer per line, written by
    `writeHashDB` (truncate, then append one line per member) and read back
    by `loadHashDB` (one `int(line)` per line into a set). The file is
    modelled by its text, or `None` when it does not exist. */
module HashDB {
  import opened Wrappers

  predicate IsDigit(c: char) {
    '0' <= c <= '9'
  }

  predicate AllDigits(s: string) {
    forall i :: 0 <= i < |s| ==> IsDigit(s[i])
  }

  function DigitChar(d: nat): (c: char)
    requires d < 10
    ensures IsDigit(c) && c as int - '0' as int == d
  {
    ('0' as int + d) as char
  }

  /** `str(n)` for a non-negative integer: its decimal digits, most
      significant first, without leading zeros. */
  function Decimal(n: nat): (s: string)
    ensures |s| >= 1 && AllDigits(s)
    ensures |s| > 1 ==> s[0] != '0'
  {
    if n < 10 then [DigitChar(n)] else Decimal(n / 10) + [DigitChar(n % 10)]
  }

  /** The number a string of decimal digits denotes. */
  function DigitsValue(s: string): nat
    requires AllDigits(s)
  {
    if s == [] then 0 else 10 * DigitsValue(s[..|s| - 1]) + (s[|s| - 1] as int - '0' as int)
  }

  /** Reading back the digits `str` writes gives the number. */
  lemma {:induction false} DecimalValue(n: nat)
    ensures DigitsValue(Decimal(n)) == n
  {
    if n >= 10 {
      DecimalValue(n / 10);
      var s := Decimal(n);
      assert s[..|s| - 1] == Decimal(n / 10);
    }
  }

  /** Why a database line was refused: `int(line)` raised `ValueError`. */
  datatype LoadError = InvalidLiteral(line: string)

  /** `int(line)` on a line as `readlines` returns it: the digits, with the
      line's own newline if it has one. */
  function ParseInt(line: string): Result<nat, LoadError> {
    var body := if |line| > 0 && line[|line| - 1] == '\n' then line[..|line| - 1] else line;
    if |body| > 0 && AllDigits(body) then Ok(DigitsValue(body)) else Err(InvalidLiteral(line))
  }

  /** Every number written as a line reads back as itself. */
  lemma ParseWrittenLine(n: nat)
    ensures ParseInt(Decimal(n) + "\n") == Ok(n)
  {
    var line := Decimal(n) + "\n";
    assert line[..|line| - 1] == Decimal(n);
    DecimalValue(n);
  }

  /** The length of the first line of `text` without its newline. */
  function LineLength(text: string): (k: nat)
    ensures k <= |text|
    ensures forall i :: 0 <= i < k ==> text[i] != '\n'
    ensures k < |text| ==> text[k] == '\n'
  {
    if text == [] || text[0] == '\n' then 0 else 1 + LineLength(text[1..])
  }

  /** `f.readlines()`: the lines of the text, each with its newline except
      possibly the last. */
  function ReadLines(text: string): seq<string>
    decreases |text|
  {
    if text == [] then []
    else
      var k := LineLength(text);
      if k < |text| then [text[..k + 1]] + ReadLines(text[k + 1..]) else [text]
  }

  /** The loop of `loadHashDB`: every line parsed and added; the first line
      that does not parse raises. */
  function ParseLines(lines: seq<string>): Result<set<nat>, LoadError> {
    if lines == [] then Ok({})
    else
      var head := ParseInt(lines[0]);
      if head.Err? then Err(head.error)
      else
        var tail := ParseLines(lines[1..]);
        if tail.Err? then tail else Ok({head.value} + tail.value)
  }

  /** What `loadHashDB` returns for the file's contents: a missing file is an
      empty database. */
  function LoadedDB(file: Option<string>): Result<set<nat>, LoadError> {
    match file
    case None => Ok({})
    case Some(text) => ParseLines(ReadLines(text))
  }

  /** The text of a file to which the numbers `hs` were appended, in order,
      one line each. */
  function Serialize(hs: seq<nat>): string {
    if hs == [] then "" else Decimal(hs[0]) + "\n" + Serialize(hs[1..])
  }

  function Elements(hs: seq<nat>): set<nat> {
    set i | 0 <= i < |hs| :: hs[i]
  }

  lemma {:induction false} SerializeSnoc(hs: seq<nat>, h: nat)
    ensures Serialize(hs + [h]) == Serialize(hs) + Decimal(h) + "\n"
  {
    if hs != [] {
      assert (hs + [h])[1..] == hs[1..] + [h];
      SerializeSnoc(hs[1..], h);
    }
  }

  lemma DecimalNoNewline(n: nat)
    ensures forall i :: 0 <= i < |Decimal(n)| ==> Decimal(n)[i] != '\n'
  {
  }

  /** The first line of a written file is the first number written. */
  lemma ReadLinesCons(n: nat, rest: string)
    ensures ReadLines(Decimal(n) + "\n" + rest) == [Decimal(n) + "\n"] + ReadLines(rest)
  {
    var d := Decimal(n);
    var text := d + "\n" + rest;
    DecimalNoNewline(n);
    LineLengthIs(text, |d|);
    assert text[..|d| + 1] == d + "\n";
    assert text[|d| + 1..] == rest;
  }

  lemma {:induction false} LineLengthIs(text: string, k: nat)
    requires k < |text| && text[k] == '\n'
    requires forall i :: 0 <= i < k ==> text[i] != '\n'
    ensures LineLength(text) == k
  {
    if k > 0 {
      LineLengthIs(text[1..], k - 1);
    }
  }

  /** Round trip: a file written one decimal per line loads back as exactly
      the set of the numbers written. */
  lemma {:induction false} LoadSerialized(hs: seq<nat>)
    ensures ParseLines(ReadLines(Serialize(hs))) == Ok(Elements(hs))
  {
    if hs != [] {
      var line := Decimal(hs[0]) + "\n";
      var tail := Serialize(hs[1..]);
      assert Serialize(hs) == line + tail;
      ReadLinesCons(hs[0], tail);
      var lines := [line] + ReadLines(tail);
      assert lines[0] == line && lines[1..] == ReadLines(tail);
      ParseWrittenLine(hs[0]);
      LoadSerialized(hs[1..]);
      ElementsCons(hs);
      assert ReadLines(Serialize(hs)) == lines;
      assert ParseInt(lines[0]) == Ok(hs[0]);
      assert ParseLines(lines[1..]) == Ok(Elements(hs[1..]));
      assert ParseLines(lines) == Ok({hs[0]} + Elements(hs[1..]));
      assert ParseLines(ReadLines(Serialize(hs))) == Ok({hs[0]} + Elements(hs[1..]));
      assert Elements(hs) == {hs[0]} + Elements(hs[1..]);
    } else {
      assert Elements(hs) == {};
    }
  }

  lemma ElementsCons(hs: seq<nat>)
    requires hs != []
    ensures Elements(hs) == {hs[0]} + Elements(hs[1..])
  {
    forall x | x in Elements(hs) ensures x in {hs[0]} + Elements(hs[1..]) {
      var i :| 0 <= i < |hs| && hs[i] == x;
      if i > 0 {
        assert hs[1..][i - 1] == x;
      }
    }
  }

  lemma ElementsSnoc(hs: seq<nat>, h: nat)
    ensures Elements(hs + [h]) == Elements(hs) + {h}
  {
    var ext := hs + [h];
    assert ext[|hs|] == h;
    forall x | x in Elements(ext) ensures x in Elements(hs) + {h} {
      var i :| 0 <= i < |ext| && ext[i] == x;
      if i < |hs| {
        assert hs[i] == x;
      }
    }
    forall x | x in Elements(hs) ensures x in Elements(ext) {
      var i :| 0 <= i < |hs| && hs[i] == x;
      assert ext[i] == x;
    }
  }

  lemma DistinctSnoc(hs: seq<nat>, h: nat)
    requires Distinct(hs) && h !in Elements(hs)
    ensures Distinct(hs + [h])
  {
    var ext := hs + [h];
    forall i, j | 0 <= i < j < |ext| ensures ext[i] != ext[j] {
      if j == |hs| {
        assert hs[i] in Elements(hs);
      }
    }
  }

  /** Parsing one more line adds its number, or raises on it. */
  lemma {:induction false} ParseLinesSnoc(lines: seq<string>, line: string)
    ensures ParseLines(lines + [line]) ==
      if ParseLines(lines).Err? then ParseLines(lines)
      else if ParseInt(line).Err? then Err(ParseInt(line).error)
      else Ok(ParseLines(lines).value + {ParseInt(line).value})
  {
    if lines == [] {
      assert lines + [line] == [line];
      assert [line][1..] == [];
      assert ParseLines([]) == Ok({});
      if ParseInt(line).Ok? {
        assert ParseLines([line]) == Ok({ParseInt(line).value} + {});
        assert {ParseInt(line).value} + {} == {} + {ParseInt(line).value};
      }
    } else {
      var ext := lines + [line];
      assert ext[0] == lines[0];
      assert ext[1..] == lines[1..] + [line];
      ParseLinesSnoc(lines[1..], line);
      var head := ParseInt(lines[0]);
      if head.Ok? {
        var tail := ParseLines(lines[1..]);
        if tail.Ok? && ParseInt(line).Ok? {
          assert ParseLines(ext[1..]) == Ok(tail.value + {ParseInt(line).value});
          assert {head.value} + (tail.value + {ParseInt(line).value}) == ({head.value} + tail.value) + {ParseInt(line).value};
        }
      }
    }
  }

  /** A line that raises makes the whole load raise, whatever follows it. */
  lemma {:induction false} ParseLinesErrPrefix(a: seq<string>, b: seq<string>)
    requires ParseLines(a).Err?
    ensures ParseLines(a + b) == ParseLines(a)
  {
    assert a != [];
    assert (a + b)[0] == a[0];
    assert (a + b)[1..] == a[1..] + b;
    if ParseInt(a[0]).Ok? {
      ParseLinesErrPrefix(a[1..], b);
    }
  }

  /** The database file. `clearHashDB` and `appendHashDB` are the two ways
      the program writes it. */
  class HashStore {
    var file: Option<string>

    constructor(file: Option<string>)
      ensures this.file == file
    {
      this.file := file;
    }

    /** `open(db, "w")`: creates the file, or empties it. */
    method ClearHashDB()
      modifies this
      ensures file == Some("")
    {
      file := Some("");
    }

    /** `open(db, "a+")` and one line: creates the file if needed and adds
        the decimal of `hash` and a newline at its end. */
    method AppendHashDB(hash: nat)
      modifies this
      ensures file == Some(old(file).GetOr("") + Decimal(hash) + "\n")
    {
      file := Some(file.GetOr("") + Decimal(hash) + "\n");
    }
  }

  lemma SplitAt(lines: seq<string>, i: nat)
    requires i < |lines|
    ensures lines[..i] + [lines[i]] == lines[..i + 1]
    ensures lines[..i + 1] + lines[i + 1..] == lines
  {
  }

  /** One pass of the loop of `loadHashDB`: line `i` is added, or it
      raises and so does the whole file. */
  lemma LoadStep(lines: seq<string>, i: nat, db: set<nat>)
    requires i < |lines| && ParseLines(lines[..i]) == Ok(db)
    ensures ParseInt(lines[i]).Ok? ==> ParseLines(lines[..i + 1]) == Ok(db + {ParseInt(lines[i]).value})
    ensures ParseInt(lines[i]).Err? ==> ParseLines(lines) == Err(ParseInt(lines[i]).error)
  {
    SplitAt(lines, i);
    ParseLinesSnoc(lines[..i], lines[i]);
    if ParseInt(lines[i]).Err? {
      ParseLinesErrPrefix(lines[..i + 1], lines[i + 1..]);
    }
  }

  /** `loadHashDB`: a missing file gives the empty set; otherwise every line
      is parsed and added, and a line that is not a number raises. */
  method LoadHashDB(store: HashStore) returns (r: Result<set<nat>, LoadError>)
    ensures r == LoadedDB(store.file)
  {
    if store.file.None? {
      return Ok({});
    }
    var lines := ReadLines(store.file.value);
    var db: set<nat> := {};
    for i := 0 to |lines|
      invariant ParseLines(lines[..i]) == Ok(db)
    {
      var parsed := ParseInt(lines[i]);
      LoadStep(lines, i, db);
      if parsed.Err? {
        return Err(parsed.error);
      }
      db := db + {parsed.value};
    }
    assert lines[..|lines|] == lines;
    return Ok(db);
  }

  predicate Distinct(hs: seq<nat>) {
    forall i, j :: 0 <= i < j < |hs| ==> hs[i] != hs[j]
  }

  /** `written` lists, each once, the members of `db` not in `rest`. */
  predicate WrittenSoFar(written: seq<nat>, rest: set<nat>, db: set<nat>) {
    Elements(written) + rest == db && Elements(written) !! rest && Distinct(written)
  }

  lemma WriteStep(written: seq<nat>, rest: set<nat>, db: set<nat>, hash: nat)
    requires WrittenSoFar(written, rest, db) && hash in rest
    ensures WrittenSoFar(written + [hash], rest - {hash}, db)
  {
    ElementsSnoc(written, hash);
    DistinctSnoc(written, hash);
  }

  /** `writeHashDB`: empties the file and appends every member once. The file
      then holds each member on exactly one line and loads back as `db`. */
  method WriteHashDB(store: HashStore, db: set<nat>)
    modifies store
    ensures exists hs: seq<nat> :: store.file == Some(Serialize(hs)) && Elements(hs) == db && Distinct(hs)
    ensures LoadedDB(store.file) == Ok(db)
  {
    store.ClearHashDB();
    var rest := db;
    ghost var written: seq<nat> := [];
    assert Elements(written) == {};
    while rest != {}
      invariant store.file == Some(Serialize(written))
      invariant WrittenSoFar(written, rest, db)
      decreases |rest|
    {
      var hash :| hash in rest;
      store.AppendHashDB(hash);
      SerializeSnoc(written, hash);
      WriteStep(written, rest, db, hash);
      written := written + [hash];
      rest := rest - {hash};
    }
    LoadSerialized(written);
    assert store.file == Some(Serialize(written)) && Elements(written) == db && Distinct(written);
  }
}
