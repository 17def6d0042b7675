/**
 * Row normalisation and serialisation (`fmtRowJSON` in src/utils.ts and its
 * copy `ClickhouseBuffer.fmtRow` in src/index.ts). A row is an array of
 * column values; normalisation overwrites each Date with its Unix time in
 * whole seconds and each boolean with 1 or 0, in place, and the row is then
 * written as a one-line JSON array.
 */
module Rows {
  import opened Strings

  /** `string | number | Date | boolean`; numbers are integers and a Date is its time value in ms. */
  datatype Column = Text(s: string) | Number(n: int) | Timestamp(ms: int) | Bool(b: bool)

  const TwoTo31: int := 0x8000_0000
  const TwoTo32: int := 0x1_0000_0000

  /** JavaScript's `x | 0`: the integer wrapped to a signed 32-bit value. */
  function ToInt32(x: int): (r: int)
    ensures -TwoTo31 <= r < TwoTo31
    ensures (r - x) % TwoTo32 == 0
  {
    var m := x % TwoTo32;
    if m >= TwoTo31 then m - TwoTo32 else m
  }

  /** Division truncating toward zero, as `|0` truncates the quotient `ms / 1000`. */
  function TruncDiv(a: int, d: nat): int
    requires d > 0
  {
    if a >= 0 then a / d else -((-a) / d)
  }

  /** `date.getTime() / 1000 | 0`: always a signed 32-bit number of seconds. */
  function Seconds(ms: int): (r: int)
    ensures -TwoTo31 <= r < TwoTo31
  {
    ToInt32(TruncDiv(ms, 1000))
  }

  /** Within the 32-bit range the seconds are the millisecond time truncated toward zero. */
  lemma SecondsTruncates(ms: int)
    requires -TwoTo31 * 1000 < ms < TwoTo31 * 1000
    ensures ms >= 0 ==> Seconds(ms) * 1000 <= ms < (Seconds(ms) + 1) * 1000
    ensures ms < 0 ==> (Seconds(ms) - 1) * 1000 < ms <= Seconds(ms) * 1000
  {
  }

  function Normalize(v: Column): Column {
    match v
    case Timestamp(ms) => Number(Seconds(ms))
    case Bool(b) => Number(if b then 1 else 0)
    case _ => v
  }

  function NormalizeRow(row: seq<Column>): (r: seq<Column>)
    ensures |r| == |row|
  {
    seq(|row|, i requires 0 <= i < |row| => Normalize(row[i]))
  }

  /** Neither a Date nor a boolean is left. */
  predicate Normalized(row: seq<Column>) {
    forall i :: 0 <= i < |row| ==> row[i].Text? || row[i].Number?
  }

  /**
   * What normalisation does to each position: Dates become truncated seconds,
   * booleans 1 or 0, everything else stays, and no Date or boolean remains.
   */
  lemma NormalizeRowAt(row: seq<Column>, i: nat)
    requires i < |row|
    ensures row[i].Timestamp? ==> NormalizeRow(row)[i] == Number(Seconds(row[i].ms))
    ensures row[i].Bool? ==> NormalizeRow(row)[i] == Number(if row[i].b then 1 else 0)
    ensures row[i].Text? || row[i].Number? ==> NormalizeRow(row)[i] == row[i]
    ensures Normalized(NormalizeRow(row))
  {
  }

  /** A second pass changes nothing. */
  lemma NormalizeIdempotent(row: seq<Column>)
    ensures NormalizeRow(NormalizeRow(row)) == NormalizeRow(row)
  {
  }

  /** `JSON.stringify` of a string's contents: quote, backslash and control characters are escaped. */
  function EscapeChar(c: char): string {
    if c == '"' then "\\\""
    else if c == '\\' then "\\\\"
    else if c as int == 0x08 then "\\b"
    else if c == '\t' then "\\t"
    else if c == '\n' then "\\n"
    else if c as int == 0x0C then "\\f"
    else if c == '\r' then "\\r"
    else if c as int < 0x20 then "\\u00" + [HexDigit(c as int / 16), HexDigit(c as int % 16)]
    else [c]
  }

  function HexDigit(d: nat): char
    requires d < 16
  {
    if d < 10 then DigitChar(d) else ('a' as int + d - 10) as char
  }

  function Escape(s: string): string {
    if s == [] then "" else EscapeChar(s[0]) + Escape(s[1..])
  }

  function JsonValue(v: Column): string
    requires v.Text? || v.Number?
  {
    match v
    case Text(s) => "\"" + Escape(s) + "\""
    case Number(n) => IntToString(n)
  }

  /** `JSON.stringify(row)` for a normalised row. */
  function Stringify(row: seq<Column>): (r: string)
    requires Normalized(row)
    ensures |r| >= 2 && r[0] == '[' && r[|r| - 1] == ']'
  {
    "[" + Join(seq(|row|, i requires 0 <= i < |row| => JsonValue(row[i])), ',') + "]"
  }

  lemma {:induction false} EscapeHasNoNewline(s: string)
    ensures '\n' !in Escape(s)
  {
    if s != [] {
      EscapeHasNoNewline(s[1..]);
    }
  }

  /** A serialised row is a single line: it holds no newline character. */
  lemma StringifyIsOneLine(row: seq<Column>)
    requires Normalized(row)
    ensures '\n' !in Stringify(row)
  {
    var parts := seq(|row|, i requires 0 <= i < |row| => JsonValue(row[i]));
    forall i | 0 <= i < |parts|
      ensures '\n' !in parts[i]
    {
      if row[i].Text? {
        EscapeHasNoNewline(row[i].s);
      }
    }
    JoinAvoids(parts, ',', '\n');
  }

  /**
   * `fmtRowJSON(row)`: normalises the caller's array in place and returns its
   * serialisation.
   */
  method FmtRow(row: array<Column>) returns (json: string)
    modifies row
    ensures row[..] == NormalizeRow(old(row[..]))
    ensures Normalized(row[..]) && json == Stringify(row[..])
  {
    var i := 0;
    while i < row.Length
      invariant 0 <= i <= row.Length
      invariant forall k :: 0 <= k < i ==> row[k] == Normalize(old(row[k]))
      invariant forall k :: i <= k < row.Length ==> row[k] == old(row[k])
    {
      var v := row[i];
      if v.Timestamp? {
        row[i] := Number(Seconds(v.ms));
      } else if v.Bool? {
        row[i] := Number(if v.b then 1 else 0);
      }
      i := i + 1;
    }
    json := Stringify(row[..]);
  }
}
