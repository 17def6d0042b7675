/**
 * The segment file writer `rowsToFiles` (src/rows_to_files.ts): it cuts the
 * serialised rows into consecutive slices of at most `maxRowsPerFile` rows,
 * writes each slice as newline-terminated lines to a file whose name encodes
 * the part index, the row count and the byte count, and reports the names
 * in part order with the number of rows it consumed.
 */
module Segments {
  import opened Wrappers
  import opened Strings
  import opened Codec
  import opened FileNames
  import Utf8

  /** `calculateBytes(rows)`: the UTF-8 length of every row, separators not counted. */
  function CalculateBytes(rows: seq<string>): nat {
    if rows == [] then 0 else Utf8.ByteLength(rows[0]) + CalculateBytes(rows[1..])
  }

  function Flatten(chunks: seq<seq<string>>): seq<string> {
    if chunks == [] then [] else chunks[0] + Flatten(chunks[1..])
  }

  /** `Math.ceil(n / k)` for a positive `k`. */
  function CeilDiv(n: nat, k: nat): (r: nat)
    requires k > 0
    ensures r * k >= n
    ensures r > 0 ==> (r - 1) * k < n
  {
    (n + k - 1) / k
  }

  /** The slices `rows.splice(0, numRowsToFile)` takes, one per loop iteration. */
  function Chunks(rows: seq<string>, k: nat): (r: seq<seq<string>>)
    requires k > 0
    ensures forall i :: 0 <= i < |r| ==> 0 < |r[i]| <= k
    decreases |rows|
  {
    if rows == [] then []
    else
      var m := if |rows| >= k then k else |rows|;
      [rows[..m]] + Chunks(rows[m..], k)
  }

  /** `rowsToFile.join('\n') + '\n'`: the text of a segment before compression. */
  function Content(rows: seq<string>): (r: string)
    ensures |r| > 0 && r[|r| - 1] == '\n'
  {
    Join(rows, '\n') + "\n"
  }

  /** A file's contents: the text, compressed with the format when one is set. */
  datatype SegmentData = SegmentData(compression: Option<CompressionFormat>, text: string)

  /** The contents of every part, in part order. */
  function Segments(chunks: seq<seq<string>>, compression: Option<CompressionFormat>): (r: seq<SegmentData>)
    ensures |r| == |chunks|
  {
    if chunks == [] then []
    else Segments(chunks[..|chunks| - 1], compression) + [SegmentData(compression, Content(chunks[|chunks| - 1]))]
  }

  /** The name of part `part`, holding the rows `chunk`. */
  function PartName(sortKey: string, part: nat, chunk: seq<string>, compression: Option<CompressionFormat>): string {
    SegmentName(sortKey, part, |chunk|, CalculateBytes(chunk), compression)
  }

  /** The name of every part, in part order. */
  function Names(sortKey: string, chunks: seq<seq<string>>, compression: Option<CompressionFormat>): (r: seq<string>)
    ensures |r| == |chunks|
  {
    if chunks == [] then []
    else
      var n := |chunks| - 1;
      Names(sortKey, chunks[..n], compression) + [PartName(sortKey, n, chunks[n], compression)]
  }

  lemma {:induction false} NamesAt(sortKey: string, chunks: seq<seq<string>>, compression: Option<CompressionFormat>, i: nat)
    requires i < |chunks|
    ensures Names(sortKey, chunks, compression)[i] == PartName(sortKey, i, chunks[i], compression)
  {
    if i < |chunks| - 1 {
      NamesAt(sortKey, chunks[..|chunks| - 1], compression, i);
    }
  }

  /** The directory after `writeFile` of each name in turn; a later write replaces an earlier one. */
  function Written(m: map<string, SegmentData>, names: seq<string>, data: seq<SegmentData>): map<string, SegmentData>
    requires |names| == |data|
  {
    if names == [] then m
    else Written(m, names[..|names| - 1], data[..|data| - 1])[names[|names| - 1] := data[|data| - 1]]
  }

  /** The staging directory, as a map from file name to contents. */
  class Disk {
    var files: map<string, SegmentData>

    constructor (files: map<string, SegmentData>)
      ensures this.files == files
    {
      this.files := files;
    }

    /** `writeFile(path, data)`: creates or replaces one file. */
    method WriteFile(name: string, data: SegmentData)
      modifies this
      ensures files == old(files)[name := data]
    {
      files := files[name := data];
    }
  }

  datatype Stats = Stats(rows: nat)

  /**
   * What the writer's loop keeps: of the `n` rows cut into `chunks`, the
   * first `part` slices are written and `rest` is still to cut.
   */
  ghost predicate Progress(chunks: seq<seq<string>>, k: nat, sortKey: string, compression: Option<CompressionFormat>,
                           part: nat, rest: seq<string>, files: seq<string>, contents: seq<SegmentData>)
    requires k > 0
  {
    && |files| == |contents| == part <= |chunks|
    && chunks == chunks[..part] + Chunks(rest, k)
    && files == Names(sortKey, chunks[..part], compression)
    && contents == Segments(chunks[..part], compression)
  }

  /** The next slice is the head of what is left to cut. */
  lemma StepChunks(chunks: seq<seq<string>>, k: nat, part: nat, rest: seq<string>)
    requires k > 0
    requires part < |chunks|
    requires chunks == chunks[..part] + Chunks(rest, k)
    ensures rest != []
    ensures var m := if |rest| >= k then k else |rest|;
      && chunks[..part + 1] == chunks[..part] + [rest[..m]]
      && chunks == chunks[..part + 1] + Chunks(rest[m..], k)
  {
    ChunksCount(rest, k);
    ChunksStep(rest, k);
    var m := if |rest| >= k then k else |rest|;
    assert chunks[part] == rest[..m];
    assert chunks[..part + 1] == chunks[..part] + [rest[..m]];
  }

  /**
   * One iteration of the writer's loop: splice the next `m` rows off `rest`,
   * name and record them.
   */
  lemma ProgressStep(chunks: seq<seq<string>>, k: nat, sortKey: string, compression: Option<CompressionFormat>,
                     part: nat, rest: seq<string>, files: seq<string>, contents: seq<SegmentData>, m: nat)
    requires k > 0
    requires Progress(chunks, k, sortKey, compression, part, rest, files, contents)
    requires part < |chunks|
    requires m == if |rest| >= k then k else |rest|
    ensures m <= |rest|
    ensures Progress(chunks, k, sortKey, compression, part + 1, rest[m..],
                     files + [PartName(sortKey, part, rest[..m], compression)],
                     contents + [SegmentData(compression, Content(rest[..m]))])
  {
    StepChunks(chunks, k, part, rest);
    var c := rest[..m];
    NamesSnoc(sortKey, chunks[..part], c, compression);
    SegmentsSnoc(chunks[..part], c, compression);
  }

  /**
   * `rowsToFiles(rows, options)`. The clocks that make the sort key are the
   * parameters `nowMs` (`Date.now()`) and `hrtime` (`hrtime.bigint()`).
   */
  method RowsToFiles(rows: seq<string>, maxRowsPerFile: nat, compression: Option<CompressionFormat>,
                     nowMs: int, hrtime: nat, disk: Disk)
    returns (files: seq<string>, stats: Stats)
    requires maxRowsPerFile > 0
    modifies disk
    ensures stats.rows == |rows|
    ensures files == Names(SortKey(nowMs, hrtime), Chunks(rows, maxRowsPerFile), compression)
    ensures disk.files == Written(old(disk.files), files, Segments(Chunks(rows, maxRowsPerFile), compression))
    ensures RowCounts(files, Sizes(Chunks(rows, maxRowsPerFile)))
  {
    var rowsLength := |rows|;
    var sortKey := SortKey(nowMs, hrtime);
    SortKeyValid(nowMs, hrtime);
    var parts := CeilDiv(rowsLength, maxRowsPerFile);
    ChunksCount(rows, maxRowsPerFile);
    ghost var chunks := Chunks(rows, maxRowsPerFile);
    ghost var contents: seq<SegmentData> := [];
    var rest := rows;
    files := [];
    for part := 0 to parts
      invariant Progress(chunks, maxRowsPerFile, sortKey, compression, part, rest, files, contents)
      invariant disk.files == Written(old(disk.files), files, contents)
    {
      var numRowsToFile := if |rest| >= maxRowsPerFile then maxRowsPerFile else |rest|;
      ProgressStep(chunks, maxRowsPerFile, sortKey, compression, part, rest, files, contents, numRowsToFile);
      var rowsToFile := rest[..numRowsToFile];
      rest := rest[numRowsToFile..];
      var numBytesToFile := CalculateBytes(rowsToFile);
      var data := SegmentData(compression, Content(rowsToFile));
      var filename := SegmentName(sortKey, part, numRowsToFile, numBytesToFile, compression);
      assert filename == PartName(sortKey, part, rowsToFile, compression);
      disk.WriteFile(filename, data);
      files := files + [filename];
      contents := contents + [data];
      assert files[..|files| - 1] == files[..part];
    }
    ChunksCount(rest, maxRowsPerFile);
    assert chunks[..parts] == chunks;
    NamesRowCounts(sortKey, chunks, compression);
    stats := Stats(rowsLength);
  }

  /** The number of rows in each slice. */
  function Sizes(chunks: seq<seq<string>>): (r: seq<nat>)
    ensures |r| == |chunks|
  {
    seq(|chunks|, i requires 0 <= i < |chunks| => |chunks[i]|)
  }

  /** Every part's name carries the number of rows of its slice. */
  lemma NamesRowCounts(sortKey: string, chunks: seq<seq<string>>, compression: Option<CompressionFormat>)
    requires ValidSortKey(sortKey)
    ensures RowCounts(Names(sortKey, chunks, compression), Sizes(chunks))
  {
    var names := Names(sortKey, chunks, compression);
    forall i | 0 <= i < |names|
      ensures ParseRowCount(names[i]) == Some(Sizes(chunks)[i])
    {
      NamesAt(sortKey, chunks, compression, i);
      ParseSegmentName(sortKey, i, |chunks[i]|, CalculateBytes(chunks[i]), compression);
    }
  }

  /** The slices hold all the rows between them. */
  lemma {:induction false} SizesSum(rows: seq<string>, k: nat)
    requires k > 0
    ensures Sum(Sizes(Chunks(rows, k))) == |rows|
    decreases |rows|
  {
    if rows != [] {
      var m := if |rows| >= k then k else |rows|;
      SizesSum(rows[m..], k);
      assert Sizes(Chunks(rows, k)) == [m] + Sizes(Chunks(rows[m..], k));
      SumAppend([m], Sizes(Chunks(rows[m..], k)));
      assert [m][..0] == [];
    }
  }

  /**
   * The writer and the parser agree: the row counts read back from the names
   * of one batch add up to the rows of the batch.
   */
  lemma StagedRowCount(rows: seq<string>, k: nat, sortKey: string, compression: Option<CompressionFormat>)
    requires k > 0 && ValidSortKey(sortKey)
    ensures RowsInFiles(Names(sortKey, Chunks(rows, k), compression)) == Some(|rows|)
  {
    NamesRowCounts(sortKey, Chunks(rows, k), compression);
    RowCountsTotal(Names(sortKey, Chunks(rows, k), compression), Sizes(Chunks(rows, k)));
    SizesSum(rows, k);
  }

  /** Two numbers that both satisfy the ceiling's characterisation are equal. */
  lemma CeilUnique(n: nat, k: nat, r1: nat, r2: nat)
    requires k > 0
    requires r1 * k >= n && (r1 > 0 ==> (r1 - 1) * k < n)
    requires r2 * k >= n && (r2 > 0 ==> (r2 - 1) * k < n)
    ensures r1 == r2
  {
    if r1 < r2 {
      MulMono(r1, r2 - 1, k);
    } else if r2 < r1 {
      MulMono(r2, r1 - 1, k);
    }
  }

  lemma MulMono(a: nat, b: nat, k: nat)
    requires a <= b
    ensures a * k <= b * k
  {
    assert b * k == a * k + (b - a) * k;
  }

  /** The slices satisfy the ceiling's characterisation. */
  lemma {:induction false} ChunksCeil(rows: seq<string>, k: nat)
    requires k > 0
    ensures |Chunks(rows, k)| * k >= |rows|
    ensures |Chunks(rows, k)| > 0 ==> (|Chunks(rows, k)| - 1) * k < |rows|
    decreases |rows|
  {
    if rows != [] {
      var m := if |rows| >= k then k else |rows|;
      ChunksCeil(rows[m..], k);
      var c' := |Chunks(rows[m..], k)|;
      assert |Chunks(rows, k)| == c' + 1;
      assert (c' + 1) * k == c' * k + k;
    }
  }

  /** The number of slices is `Math.ceil(n / k)`; no rows, no slices. */
  lemma ChunksCount(rows: seq<string>, k: nat)
    requires k > 0
    ensures |Chunks(rows, k)| == CeilDiv(|rows|, k)
  {
    ChunksCeil(rows, k);
    CeilUnique(|rows|, k, |Chunks(rows, k)|, CeilDiv(|rows|, k));
  }

  /** Every slice but the last holds exactly `k` rows; the last holds between 1 and `k`. */
  lemma {:induction false} ChunksShape(rows: seq<string>, k: nat)
    requires k > 0
    ensures forall i :: 0 <= i < |Chunks(rows, k)| - 1 ==> |Chunks(rows, k)[i]| == k
    ensures |Chunks(rows, k)| > 0 ==> 0 < |Chunks(rows, k)[|Chunks(rows, k)| - 1]| <= k
    decreases |rows|
  {
    if rows != [] {
      var m := if |rows| >= k then k else |rows|;
      ChunksShape(rows[m..], k);
      if rows[m..] == [] {
        assert |Chunks(rows, k)| == 1;
      }
    }
  }

  /** The slices, concatenated in part order, are the original rows. */
  lemma {:induction false} ChunksFlatten(rows: seq<string>, k: nat)
    requires k > 0
    ensures Flatten(Chunks(rows, k)) == rows
    decreases |rows|
  {
    if rows != [] {
      var m := if |rows| >= k then k else |rows|;
      ChunksFlatten(rows[m..], k);
      assert Chunks(rows, k)[1..] == Chunks(rows[m..], k);
      assert rows[..m] + rows[m..] == rows;
    }
  }

  lemma ChunksStep(rest: seq<string>, k: nat)
    requires k > 0 && rest != []
    ensures Chunks(rest, k)[0] == rest[..if |rest| >= k then k else |rest|]
    ensures Chunks(rest, k) == [Chunks(rest, k)[0]] + Chunks(rest[if |rest| >= k then k else |rest|..], k)
  {
  }

  lemma NamesSnoc(sortKey: string, chunks: seq<seq<string>>, c: seq<string>, compression: Option<CompressionFormat>)
    ensures Names(sortKey, chunks + [c], compression)
      == Names(sortKey, chunks, compression) + [PartName(sortKey, |chunks|, c, compression)]
  {
    assert (chunks + [c])[..|chunks|] == chunks;
  }

  lemma SegmentsSnoc(chunks: seq<seq<string>>, c: seq<string>, compression: Option<CompressionFormat>)
    ensures Segments(chunks + [c], compression) == Segments(chunks, compression) + [SegmentData(compression, Content(c))]
  {
    assert (chunks + [c])[..|chunks|] == chunks;
  }

  /** Ten rows at five per file make two files of five rows. */
  lemma TenRowsFivePerFile(rows: seq<string>)
    requires |rows| == 10
    ensures |Chunks(rows, 5)| == 2
    ensures |Chunks(rows, 5)[0]| == 5 && |Chunks(rows, 5)[1]| == 5
  {
    ChunksCount(rows, 5);
    ChunksShape(rows, 5);
  }

  /**
   * Without a newline inside a row, a segment's text splits back into its rows
   * followed by the empty piece after the trailing newline: `count` lines.
   */
  lemma ContentLines(rows: seq<string>)
    requires |rows| > 0
    requires forall i :: 0 <= i < |rows| ==> '\n' !in rows[i]
    ensures Split(Content(rows), '\n') == rows + [""]
  {
    JoinSnoc(rows, "", '\n');
    assert Content(rows) == Join(rows + [""], '\n');
    SplitJoin(rows + [""], '\n');
  }

  lemma {:induction false} JoinBytes(rows: seq<string>)
    requires |rows| > 0
    ensures Utf8.ByteLength(Join(rows, '\n')) == CalculateBytes(rows) + |rows| - 1
  {
    if |rows| == 1 {
      assert rows[1..] == [];
    } else {
      JoinBytes(rows[1..]);
      Utf8.ByteLengthAppend(rows[0] + "\n", Join(rows[1..], '\n'));
      Utf8.ByteLengthAppend(rows[0], "\n");
      assert rows[0] + ['\n'] + Join(rows[1..], '\n') == rows[0] + "\n" + Join(rows[1..], '\n');
    }
  }

  /** The byte count in a name leaves out the newlines: the text is one byte longer per row. */
  lemma ContentBytes(rows: seq<string>)
    requires |rows| > 0
    ensures Utf8.ByteLength(Content(rows)) == CalculateBytes(rows) + |rows|
  {
    JoinBytes(rows);
    Utf8.ByteLengthAppend(Join(rows, '\n'), "\n");
  }

  /** Parts with different indexes have different names, so no write replaces another. */
  lemma NamesDistinct(sortKey: string, chunks: seq<seq<string>>, compression: Option<CompressionFormat>, i: nat, j: nat)
    requires ValidSortKey(sortKey)
    requires i < j < |chunks|
    ensures Names(sortKey, chunks, compression)[i] != Names(sortKey, chunks, compression)[j]
  {
    NamesAt(sortKey, chunks, compression, i);
    NamesAt(sortKey, chunks, compression, j);
    if Names(sortKey, chunks, compression)[i] == Names(sortKey, chunks, compression)[j] {
      SegmentTokens(sortKey, i, |chunks[i]|, CalculateBytes(chunks[i]), compression);
      SegmentTokens(sortKey, j, |chunks[j]|, CalculateBytes(chunks[j]), compression);
      var n := |Split(sortKey, '_')|;
      var ti := Split(sortKey, '_') + [Counter('p', i), Counter('r', |chunks[i]|), Counter('b', CalculateBytes(chunks[i]))];
      var tj := Split(sortKey, '_') + [Counter('p', j), Counter('r', |chunks[j]|), Counter('b', CalculateBytes(chunks[j]))];
      assert ti[n] == tj[n];
      assert Counter('p', i)[1..] == NatToString(i) && Counter('p', j)[1..] == NatToString(j);
      ParseNatToString(i);
      ParseNatToString(j);
      assert false;
    }
  }

  /** Writing names in turn creates exactly those files, besides the ones already there. */
  lemma {:induction false} WrittenKeys(m: map<string, SegmentData>, names: seq<string>, data: seq<SegmentData>)
    requires |names| == |data|
    ensures forall n :: n in Written(m, names, data) <==> n in m || n in names
  {
    if names != [] {
      var k := |names| - 1;
      WrittenKeys(m, names[..k], data[..k]);
      assert forall n :: n in names <==> n in names[..k] || n == names[k] by {
        assert names == names[..k] + [names[k]];
      }
    }
  }

  /** A file not among the names keeps its contents. */
  lemma {:induction false} WrittenElsewhere(m: map<string, SegmentData>, names: seq<string>, data: seq<SegmentData>, n: string)
    requires |names| == |data|
    requires n in m && n !in names
    ensures n in Written(m, names, data) && Written(m, names, data)[n] == m[n]
  {
    if names != [] {
      var k := |names| - 1;
      assert n !in names[..k];
      WrittenElsewhere(m, names[..k], data[..k], n);
    }
  }

  /** With distinct names, each file holds what was written to it. */
  lemma {:induction false} WrittenAt(m: map<string, SegmentData>, names: seq<string>, data: seq<SegmentData>, i: nat)
    requires |names| == |data| && i < |names|
    requires forall p, q :: 0 <= p < q < |names| ==> names[p] != names[q]
    ensures names[i] in Written(m, names, data) && Written(m, names, data)[names[i]] == data[i]
  {
    var k := |names| - 1;
    if i < k {
      assert names[i] != names[k];
      WrittenAt(m, names[..k], data[..k], i);
    }
  }

  lemma {:induction false} SegmentsAt(chunks: seq<seq<string>>, compression: Option<CompressionFormat>, i: nat)
    requires i < |chunks|
    ensures Segments(chunks, compression)[i] == SegmentData(compression, Content(chunks[i]))
  {
    if i < |chunks| - 1 {
      SegmentsAt(chunks[..|chunks| - 1], compression, i);
    }
  }

  /**
   * After a batch is written, the file of each part holds the text of that
   * part's slice, compressed with the batch's format: no part overwrote another.
   */
  lemma StagedContents(m: map<string, SegmentData>, sortKey: string, chunks: seq<seq<string>>,
                       compression: Option<CompressionFormat>, i: nat)
    requires ValidSortKey(sortKey) && i < |chunks|
    ensures var names := Names(sortKey, chunks, compression);
      var written := Written(m, names, Segments(chunks, compression));
      names[i] in written && written[names[i]] == SegmentData(compression, Content(chunks[i]))
  {
    var names := Names(sortKey, chunks, compression);
    forall p, q | 0 <= p < q < |names|
      ensures names[p] != names[q]
    {
      NamesDistinct(sortKey, chunks, compression, p, q);
    }
    WrittenAt(m, names, Segments(chunks, compression), i);
    SegmentsAt(chunks, compression, i);
  }
}
