/**
 * Segment file names `<sortKey>_p<part>_r<rows>_b<bytes>[.<format>]`
 * (src/rows_to_files.ts) and the row-count parser
 * `ClickhouseBuffer.getRowsInFiles` (src/index.ts) that reads them back.
 */
module FileNames {
  import opened Wrappers
  import opened Strings
  import opened Codec
  import Rows

  /** A token matching `/^r\d+$/`. */
  predicate IsRowToken(t: string) {
    |t| >= 2 && t[0] == 'r' && IsDigits(t[1..])
  }

  /** The first token that passes the `filter`, if any (`parts[0]`). */
  function FirstRowToken(tokens: seq<string>): (r: Option<string>)
    ensures r.Some? ==> IsRowToken(r.value)
    ensures r.None? <==> forall i :: 0 <= i < |tokens| ==> !IsRowToken(tokens[i])
  {
    if tokens == [] then None
    else if IsRowToken(tokens[0]) then Some(tokens[0])
    else FirstRowToken(tokens[1..])
  }

  /** The token found is the first of the list that matches: `parts[0]` after the `filter`. */
  lemma {:induction false} FirstRowTokenIsFirst(tokens: seq<string>)
    requires FirstRowToken(tokens).Some?
    ensures exists i :: 0 <= i < |tokens| && tokens[i] == FirstRowToken(tokens).value
                        && forall j :: 0 <= j < i ==> !IsRowToken(tokens[j])
  {
    if !IsRowToken(tokens[0]) {
      FirstRowTokenIsFirst(tokens[1..]);
      var i :| 0 <= i < |tokens[1..]| && tokens[1..][i] == FirstRowToken(tokens[1..]).value
               && forall j :: 0 <= j < i ==> !IsRowToken(tokens[1..][j]);
      assert tokens[i + 1] == FirstRowToken(tokens).value;
      forall j | 0 <= j < i + 1
        ensures !IsRowToken(tokens[j])
      {
        if j > 0 {
          assert tokens[j] == tokens[1..][j - 1];
        }
      }
    } else {
      assert tokens[0] == FirstRowToken(tokens).value;
    }
  }

  /**
   * The row count of one name: the part before the first `.`, split on `_`,
   * the digits of the first `r<digits>` token. None where the source's
   * `parts[0].slice(1)` throws a TypeError because no token matches.
   */
  function ParseRowCount(name: string): Option<nat> {
    var prefix := Split(name, '.')[0];
    match FirstRowToken(Split(prefix, '_'))
    case None => None
    case Some(t) => Some(ParseDecimal(t[1..]))
  }

  /** The row count of each name, in order. */
  function Counts(files: seq<string>): (r: seq<Option<nat>>)
    ensures |r| == |files|
  {
    seq(|files|, i requires 0 <= i < |files| => ParseRowCount(files[i]))
  }

  /** The sum of the counts, None as soon as one is missing. */
  function Total(counts: seq<Option<nat>>): Option<nat> {
    if counts == [] then Some(0)
    else
      match (Total(counts[..|counts| - 1]), counts[|counts| - 1])
      case (Some(a), Some(b)) => Some(a + b)
      case _ => None
  }

  /** The sum of the row counts of all names, None if any name has none. */
  function RowsInFiles(files: seq<string>): Option<nat> {
    Total(Counts(files))
  }

  lemma {:induction false} TotalAppend(a: seq<Option<nat>>, b: seq<Option<nat>>)
    ensures Total(a + b) ==
      (if Total(a).Some? && Total(b).Some? then Some(Total(a).value + Total(b).value) else None)
  {
    if b == [] {
      assert a + b == a;
    } else {
      var b' := b[..|b| - 1];
      assert (a + b)[..|a + b| - 1] == a + b';
      assert (a + b)[|a + b| - 1] == b[|b| - 1];
      TotalAppend(a, b');
    }
  }

  /** A total exists exactly when every count does. */
  lemma {:induction false} TotalDefined(counts: seq<Option<nat>>)
    ensures Total(counts).Some? <==> forall i :: 0 <= i < |counts| ==> counts[i].Some?
  {
    if counts != [] {
      TotalDefined(counts[..|counts| - 1]);
    }
  }

  /** Counting a concatenation adds the counts of its halves. */
  lemma RowsInFilesAppend(a: seq<string>, b: seq<string>)
    ensures RowsInFiles(a + b) ==
      (if RowsInFiles(a).Some? && RowsInFiles(b).Some?
       then Some(RowsInFiles(a).value + RowsInFiles(b).value) else None)
  {
    CountsAppend(a, b);
    TotalAppend(Counts(a), Counts(b));
  }

  lemma CountsAppend(a: seq<string>, b: seq<string>)
    ensures Counts(a + b) == Counts(a) + Counts(b)
  {
    var ca, cb := Counts(a), Counts(b);
    forall i | 0 <= i < |a + b|
      ensures Counts(a + b)[i] == (ca + cb)[i]
    {
      if i < |a| {
        assert (a + b)[i] == a[i] && (ca + cb)[i] == ca[i];
      } else {
        assert (a + b)[i] == b[i - |a|] && (ca + cb)[i] == cb[i - |a|];
      }
    }
  }

  /** Every name counts exactly when each name holds a row count. */
  lemma RowsInFilesDefined(files: seq<string>)
    ensures RowsInFiles(files).Some? <==> forall i :: 0 <= i < |files| ==> ParseRowCount(files[i]).Some?
  {
    TotalDefined(Counts(files));
    assert forall i :: 0 <= i < |files| ==> Counts(files)[i] == ParseRowCount(files[i]);
  }

  function Sum(counts: seq<nat>): nat {
    if counts == [] then 0 else Sum(counts[..|counts| - 1]) + counts[|counts| - 1]
  }

  lemma {:induction false} SumAppend(a: seq<nat>, b: seq<nat>)
    ensures Sum(a + b) == Sum(a) + Sum(b)
  {
    if b != [] {
      assert (a + b)[..|a + b| - 1] == a + b[..|b| - 1];
      SumAppend(a, b[..|b| - 1]);
    } else {
      assert a + b == a;
    }
  }

  /** The counts of a list of known counts. */
  function Known(counts: seq<nat>): (r: seq<Option<nat>>)
    ensures |r| == |counts|
  {
    seq(|counts|, i requires 0 <= i < |counts| => Some(counts[i]))
  }

  lemma {:induction false} TotalOfKnown(counts: seq<nat>)
    ensures Total(Known(counts)) == Some(Sum(counts))
  {
    if counts != [] {
      var k := |counts| - 1;
      assert Known(counts)[..k] == Known(counts[..k]);
      TotalOfKnown(counts[..k]);
    }
  }

  /** `counts[i]` is the row count written in the name `files[i]`, for every name. */
  predicate RowCounts(files: seq<string>, counts: seq<nat>) {
    && |files| == |counts|
    && forall i {:trigger ParseRowCount(files[i])} :: 0 <= i < |files| ==> ParseRowCount(files[i]) == Some(counts[i])
  }

  /** Names with known counts hold the sum of those counts. */
  lemma RowCountsTotal(files: seq<string>, counts: seq<nat>)
    requires RowCounts(files, counts)
    ensures RowsInFiles(files) == Some(Sum(counts))
  {
    forall i | 0 <= i < |files|
      ensures Counts(files)[i] == Known(counts)[i]
    {
      assert ParseRowCount(files[i]) == Some(counts[i]);
    }
    assert Counts(files) == Known(counts);
    TotalOfKnown(counts);
  }

  lemma RowCountsAppend(a: seq<string>, ca: seq<nat>, b: seq<string>, cb: seq<nat>)
    requires RowCounts(a, ca) && RowCounts(b, cb)
    ensures RowCounts(a + b, ca + cb)
  {
    forall i | 0 <= i < |a + b|
      ensures ParseRowCount((a + b)[i]) == Some((ca + cb)[i])
    {
      if i < |a| {
        assert ParseRowCount(a[i]) == Some(ca[i]);
      } else {
        assert ParseRowCount(b[i - |a|]) == Some(cb[i - |a|]);
      }
    }
  }

  /** A prefix with a total holds a row count in every name. */
  lemma PrefixCounted(files: seq<string>, i: nat)
    requires i <= |files| && Total(Counts(files)[..i]).Some?
    ensures forall j :: 0 <= j < i ==> ParseRowCount(files[j]).Some?
  {
    TotalDefined(Counts(files)[..i]);
    forall j | 0 <= j < i
      ensures ParseRowCount(files[j]).Some?
    {
      assert Counts(files)[..i][j] == ParseRowCount(files[j]);
    }
  }

  datatype ParseError = NoRowCount(index: nat, file: string)

  /** `ClickhouseBuffer.getRowsInFiles(files)`: a loop summing the row counts, stopping at the first name without one. */
  method GetRowsInFiles(files: seq<string>) returns (r: Result<nat, ParseError>)
    ensures r.Ok? ==> RowsInFiles(files) == Some(r.value)
    ensures r.Err? ==> RowsInFiles(files) == None
    ensures r.Err? ==>
      && r.error.index < |files| && r.error.file == files[r.error.index]
      && ParseRowCount(r.error.file) == None
      && forall j :: 0 <= j < r.error.index ==> ParseRowCount(files[j]).Some?
  {
    var rowsInFiles := 0;
    for i := 0 to |files|
      invariant Total(Counts(files)[..i]) == Some(rowsInFiles)
    {
      assert Counts(files)[..i + 1][..i] == Counts(files)[..i];
      assert Counts(files)[i] == ParseRowCount(files[i]);
      match ParseRowCount(files[i])
      case None =>
        PrefixCounted(files, i);
        RowsInFilesDefined(files);
        return Err(NoRowCount(i, files[i]));
      case Some(n) =>
        rowsInFiles := rowsInFiles + n;
    }
    assert Counts(files)[..|files|] == Counts(files);
    return Ok(rowsInFiles);
  }

  /** A name with no `.` is read from its `_`-separated tokens. */
  lemma ParseTokens(name: string, tokens: seq<string>)
    requires |tokens| > 0 && '.' !in name && name == Join(tokens, '_')
    requires forall i :: 0 <= i < |tokens| ==> '_' !in tokens[i]
    ensures FirstRowToken(tokens).None? ==> ParseRowCount(name) == None
    ensures FirstRowToken(tokens).Some? ==>
      ParseRowCount(name) == Some(ParseDecimal(FirstRowToken(tokens).value[1..]))
  {
    SplitNoSep(name, '.');
    SplitJoin(tokens, '_');
  }

  /** A name whose first row token renders `n` parses to `n`. */
  lemma ParseExample(name: string, tokens: seq<string>, n: nat)
    requires |tokens| > 0 && '.' !in name && name == Join(tokens, '_')
    requires forall i :: 0 <= i < |tokens| ==> '_' !in tokens[i]
    requires FirstRowToken(tokens) == Some("r" + NatToString(n))
    ensures ParseRowCount(name) == Some(n)
  {
    ParseTokens(name, tokens);
    assert ("r" + NatToString(n))[1..] == NatToString(n);
    ParseNatToString(n);
  }

  lemma ParseExample1()
    ensures ParseRowCount("1_1_r1000") == Some(1000)
  {
    var tokens := ["1", "1", "r1000"];
    assert "1_1_r1000" == Join(tokens, '_');
    assert NatToString(1000) == "1000";
    assert "r" + NatToString(1000) == "r1000";
    assert FirstRowToken(tokens) == Some("r1000") by {
      assert !IsRowToken("1");
      assert IsDigits("1000");
    }
    ParseExample("1_1_r1000", tokens, 1000);
  }

  lemma ParseExample2()
    ensures ParseRowCount("1_r100") == Some(100)
  {
    var tokens := ["1", "r100"];
    assert "1_r100" == Join(tokens, '_');
    assert NatToString(100) == "100";
    assert "r" + NatToString(100) == "r100";
    assert FirstRowToken(tokens) == Some("r100") by {
      assert !IsRowToken("1");
      assert IsDigits("100");
    }
    ParseExample("1_r100", tokens, 100);
  }

  lemma ParseExample3()
    ensures ParseRowCount("1_1_r10_2") == Some(10)
  {
    var tokens := ["1", "1", "r10", "2"];
    assert "1_1_r10_2" == Join(tokens, '_');
    assert NatToString(10) == "10";
    assert "r" + NatToString(10) == "r10";
    assert FirstRowToken(tokens) == Some("r10") by {
      assert !IsRowToken("1");
      assert IsDigits("10");
    }
    ParseExample("1_1_r10_2", tokens, 10);
  }

  lemma RowsInFilesOfThree(a: string, b: string, c: string, x: nat, y: nat, z: nat)
    requires ParseRowCount(a) == Some(x) && ParseRowCount(b) == Some(y) && ParseRowCount(c) == Some(z)
    ensures RowsInFiles([a, b, c]) == Some(x + y + z)
  {
    assert RowCounts([a, b, c], [x, y, z]);
    RowCountsTotal([a, b, c], [x, y, z]);
    assert Sum([x]) == x by { assert [x][..0] == []; }
    assert Sum([x, y]) == x + y by { assert [x, y][..1] == [x]; }
    assert [x, y, z][..2] == [x, y];
  }

  /** The names of the source's own test sum to 1110. */
  lemma RowsInFilesExample()
    ensures RowsInFiles(["1_1_r1000", "1_r100", "1_1_r10_2"]) == Some(1110)
  {
    ParseExample1();
    ParseExample2();
    ParseExample3();
    RowsInFilesOfThree("1_1_r1000", "1_r100", "1_1_r10_2", 1000, 100, 10);
  }

  /** A name without an `r<digits>` token makes the parser fail. */
  lemma ParseRowCountMissing()
    ensures ParseRowCount("1_2_b30.gzip") == None
  {
    assert "1_2_b30.gzip" == Join(["1_2_b30", "gzip"], '.');
    SplitJoin(["1_2_b30", "gzip"], '.');
    var tokens := ["1", "2", "b30"];
    assert "1_2_b30" == Join(tokens, '_');
    SplitJoin(tokens, '_');
    assert FirstRowToken(tokens) == None by {
      assert !IsRowToken("1") && !IsRowToken("2") && !IsRowToken("b30");
    }
  }

  /** `.${compression}` when a format is set, nothing otherwise. */
  function Suffix(compression: Option<CompressionFormat>): string {
    match compression
    case None => ""
    case Some(f) => "." + Tag(f)
  }

  /** `${tag}${n}`: a one-letter tag and a decimal number, such as `r1000`. */
  function Counter(tag: char, n: nat): string {
    [tag] + NatToString(n)
  }

  /** A name without its suffix: `<sortKey>_p<part>_r<rows>_b<bytes>`. */
  function SegmentBase(sortKey: string, part: nat, rows: nat, bytes: nat): string {
    sortKey + ['_'] + Counter('p', part) + ['_'] + Counter('r', rows) + ['_'] + Counter('b', bytes)
  }

  /** The name of part `part` of a batch: row and byte counts encoded in decimal. */
  function SegmentName(sortKey: string, part: nat, rows: nat, bytes: nat,
                       compression: Option<CompressionFormat>): string
  {
    SegmentBase(sortKey, part, rows, bytes) + Suffix(compression)
  }

  /** `${Date.now() / 1000 | 0}_${hrtime.bigint() % 10_000_000_000n}`, with the clocks as parameters. */
  function SortKey(nowMs: int, hrtime: nat): string {
    IntToString(Rows.Seconds(nowMs)) + "_" + NatToString(hrtime % 10_000_000_000)
  }

  /** A sort key neither ends the prefix early nor contributes a row-count token. */
  predicate ValidSortKey(k: string) {
    '.' !in k && forall i :: 0 <= i < |Split(k, '_')| ==> !IsRowToken(Split(k, '_')[i])
  }

  lemma IntToStringChars(x: int, c: char)
    requires c in IntToString(x)
    ensures c == '-' || IsDigit(c)
  {
    var s := IntToString(x);
    var i :| 0 <= i < |s| && s[i] == c;
    if x < 0 && i > 0 {
      assert s[1..][i - 1] == c;
    }
  }

  /** Every sort key the writer builds is valid, even after the 32-bit wrap of the seconds. */
  lemma SortKeyValid(nowMs: int, hrtime: nat)
    ensures ValidSortKey(SortKey(nowMs, hrtime))
  {
    var a := IntToString(Rows.Seconds(nowMs));
    var b := NatToString(hrtime % 10_000_000_000);
    assert SortKey(nowMs, hrtime) == a + ['_'] + b;
    if '_' in a { IntToStringChars(Rows.Seconds(nowMs), '_'); }
    if '.' in a { IntToStringChars(Rows.Seconds(nowMs), '.'); }
    if 'r' in a { IntToStringChars(Rows.Seconds(nowMs), 'r'); }
    assert '_' !in b && '.' !in b;
    SplitAround(a, '_', b);
    SplitNoSep(a, '_');
    SplitNoSep(b, '_');
    assert Split(a + ['_'] + b, '_') == [a, b];
    assert a[0] in a;
  }

  lemma {:induction false} FirstRowTokenSkip(xs: seq<string>, ys: seq<string>)
    requires forall i :: 0 <= i < |xs| ==> !IsRowToken(xs[i])
    ensures FirstRowToken(xs + ys) == FirstRowToken(ys)
  {
    if xs == [] {
      assert xs + ys == ys;
    } else {
      assert (xs + ys)[1..] == xs[1..] + ys;
      FirstRowTokenSkip(xs[1..], ys);
    }
  }

  /** The part of a name before its first `.` is the name without its suffix. */
  lemma NamePrefix(base: string, compression: Option<CompressionFormat>)
    requires '.' !in base
    ensures Split(base + Suffix(compression), '.')[0] == base
  {
    SplitNoSep(base, '.');
    match compression {
      case None =>
        assert base + Suffix(compression) == base;
      case Some(f) =>
        assert base + Suffix(compression) == base + ['.'] + Tag(f);
        SplitAround(base, '.', Tag(f));
    }
  }

  /** The tokens of a name's prefix: those of the sort key, then the three counters. */
  lemma BaseTokens(sortKey: string, tp: string, tr: string, tb: string)
    requires '_' !in tp && '_' !in tr && '_' !in tb
    ensures Split(sortKey + ['_'] + tp + ['_'] + tr + ['_'] + tb, '_') == Split(sortKey, '_') + [tp, tr, tb]
  {
    SplitAround(sortKey + ['_'] + tp + ['_'] + tr, '_', tb);
    SplitAround(sortKey + ['_'] + tp, '_', tr);
    SplitAround(sortKey, '_', tp);
    SplitNoSep(tp, '_');
    SplitNoSep(tr, '_');
    SplitNoSep(tb, '_');
  }

  lemma DigitsAvoid(s: string, c: char)
    requires IsDigits(s) && !IsDigit(c)
    ensures c !in s
  {
  }

  lemma CounterAvoids(tag: char, n: nat)
    requires tag != '.' && tag != '_'
    ensures '.' !in Counter(tag, n) && '_' !in Counter(tag, n)
  {
    DigitsAvoid(NatToString(n), '.');
    DigitsAvoid(NatToString(n), '_');
  }

  /** The `_`-separated tokens before the first `.` of a name: those of the sort key, then the three counters. */
  lemma SegmentTokens(sortKey: string, part: nat, rows: nat, bytes: nat, compression: Option<CompressionFormat>)
    requires ValidSortKey(sortKey)
    ensures Split(Split(SegmentName(sortKey, part, rows, bytes, compression), '.')[0], '_')
      == Split(sortKey, '_') + [Counter('p', part), Counter('r', rows), Counter('b', bytes)]
  {
    CounterAvoids('p', part);
    CounterAvoids('r', rows);
    CounterAvoids('b', bytes);
    var base := SegmentBase(sortKey, part, rows, bytes);
    assert '.' !in base;
    NamePrefix(base, compression);
    BaseTokens(sortKey, Counter('p', part), Counter('r', rows), Counter('b', bytes));
  }

  /** The name round trip: the parser reads back the row count the writer put in the name. */
  lemma ParseSegmentName(sortKey: string, part: nat, rows: nat, bytes: nat,
                         compression: Option<CompressionFormat>)
    requires ValidSortKey(sortKey)
    ensures ParseRowCount(SegmentName(sortKey, part, rows, bytes, compression)) == Some(rows)
  {
    SegmentTokens(sortKey, part, rows, bytes, compression);
    var tp, tr, tb := Counter('p', part), Counter('r', rows), Counter('b', bytes);
    FirstRowTokenSkip(Split(sortKey, '_'), [tp, tr, tb]);
    assert tr[1..] == NatToString(rows);
    assert FirstRowToken([tp, tr, tb]) == Some(tr);
    ParseNatToString(rows);
  }
}
