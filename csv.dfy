/**
 * The CSV field extractor `fetch` of Find_Me.c (lines 392-470).
 *
 * `Scan` states, one loop iteration per call, what the scanner does from a
 * given position; `Safe` states when it does so without undefined
 * behaviour (a write past the working buffer, a read past the string's
 * terminator). What they compute on a record written from a list of fields
 * is proved in module CsvRecord.
 */
module Csv {
  import opened CStrings
  import opened Outcomes

  /** Size of the scanner's working buffer and of the caller's field buffer. */
  const BUFSIZE: nat := 256

  /**
   * The rest of the scan from offset `i` of `csv`, holding the field copied
   * so far in `field`, with `count` fields started: one iteration of
   * fetch's loop per call, at its first character. At a quote the field so
   * far is dropped and the text up to the next quote taken in its place;
   * the scan resumes after the closing quote, which stays in the buffer as
   * its last character.
   */
  function Scan(csv: seq<char>, v: int, i: nat, field: seq<char>, count: int): Result<seq<char>>
    decreases |csv| + 2 - i, 1
  {
    if i >= |csv| then
      if count == v then Success(field) else Failure(FieldNotFound(v))
    else if csv[i] == '"' then
      var close := Seek(csv, i + 1, Char('"'));
      Resume(csv, v, close + 1, csv[i + 1..close], At(csv, close), count)
    else
      Resume(csv, v, i, field, csv[i], count)
  }

  /**
   * The second half of an iteration, with the cursor at `p`, the field so
   * far `cur` and the character just written to the buffer `last`. A comma
   * ends the field: it is the result when it is the `v`-th, and otherwise
   * the next field starts after the comma. Any other character keeps `last`
   * in the field and is itself skipped.
   */
  function Resume(csv: seq<char>, v: int, p: nat, cur: seq<char>, last: char, count: int): Result<seq<char>>
    requires p <= |csv| + 1
    decreases |csv| + 2 - p, 0
  {
    if At(csv, p) == ',' then
      if count == v then Success(cur) else Scan(csv, v, p + 1, [], count + 1)
    else
      Scan(csv, v, p + 1, cur + [last], count)
  }

  /**
   * The scan from offset `i`, holding `bi` characters, stays within the
   * working buffer and within the string: every write goes below BUFSIZE
   * (the copy of a character, the closing NUL), every quote is closed, and
   * the cursor never steps past the terminator.
   */
  predicate Safe(csv: seq<char>, v: int, i: nat, bi: nat, count: int)
    decreases |csv| + 2 - i, 1
  {
    if i >= |csv| then
      i == |csv| && (count == v ==> bi < BUFSIZE)
    else
      && bi < BUFSIZE
      && if csv[i] == '"' then
           var close := Seek(csv, i + 1, Char('"'));
           close < |csv| && close - (i + 1) < BUFSIZE && SafeResume(csv, v, close + 1, close - (i + 1), count)
         else
           SafeResume(csv, v, i, bi, count)
  }

  /** The second half of an iteration stays within bounds, and so does the rest of the scan. */
  predicate SafeResume(csv: seq<char>, v: int, p: nat, bi: nat, count: int)
    requires p <= |csv| + 1
    decreases |csv| + 2 - p, 0
  {
    if At(csv, p) == ',' then
      count == v || Safe(csv, v, p + 1, 0, count + 1)
    else
      Safe(csv, v, p + 1, bi + 1, count)
  }

  /** What fetch(v, csv, f) leaves in `f`, or the error it exits with. */
  function FetchResult(v: int, csv: seq<char>): Result<seq<char>> {
    if v < 1 then Failure(InvalidFieldIndex) else Scan(csv, v, 0, [], 1)
  }

  /** fetch(v, csv, f) runs without undefined behaviour. */
  predicate FetchDefined(v: int, csv: seq<char>) {
    v < 1 || (CString(csv) && Safe(csv, v, 0, 0, 1))
  }

  /**
   * The inner loop of fetch: from the opening quote at `i`, copy the text
   * up to the next quote into `buffer`, followed by that quote. Returns the
   * offset of the closing quote and the length of the text.
   */
  method CopyQuoted(csv: seq<char>, buffer: array<char>, i: nat) returns (close: nat, n: nat)
    requires i < |csv| && csv[i] == '"' && buffer.Length == BUFSIZE
    requires Seek(csv, i + 1, Char('"')) < |csv| && Seek(csv, i + 1, Char('"')) - (i + 1) < BUFSIZE
    modifies buffer
    ensures close == Seek(csv, i + 1, Char('"')) && n == close - (i + 1)
    ensures buffer[..n] == csv[i + 1..close] && buffer[n] == '"'
  {
    ghost var stop := Seek(csv, i + 1, Char('"'));
    n, close := 0, i + 1;
    buffer[n] := csv[close];
    while buffer[n] != '"'
      invariant i + 1 <= close <= stop && n == close - (i + 1)
      invariant buffer[..n] == csv[i + 1..close] && buffer[n] == csv[close]
      decreases stop - close
    {
      assert csv[close] != '"';
      n, close := n + 1, close + 1;
      if n > BUFSIZE {
        // "Malformed CSV field": the quoted text fits the buffer.
        assert false;
      }
      buffer[n] := csv[close];
    }
  }

  /**
   * fetch(v, csv, f): the v-th (1-based) field of the record `csv`, copied
   * through a working buffer of BUFSIZE characters. A field number below 1
   * fails before the record is read.
   */
  method Fetch(v: int, csv: seq<char>) returns (r: Result<seq<char>>)
    requires FetchDefined(v, csv)
    ensures r == FetchResult(v, csv)
  {
    if v < 1 {
      return Failure(InvalidFieldIndex);
    }
    var buffer := new char[BUFSIZE];
    var i: nat, bi: int, count := 0, 0, 1;
    while i < |csv|
      invariant 0 <= bi && 1 <= count <= v
      invariant Safe(csv, v, i, bi, count)
      invariant bi <= buffer.Length
      invariant Scan(csv, v, i, buffer[..bi], count) == FetchResult(v, csv)
      decreases |csv| - i
    {
      ghost var i0, field0 := i, buffer[..bi];
      buffer[bi] := csv[i];
      if buffer[bi] == '"' {
        i, bi := CopyQuoted(csv, buffer, i);
        // Skip the closing quote.
        i := i + 1;
      }
      assert Scan(csv, v, i0, field0, count) == Resume(csv, v, i, buffer[..bi], buffer[bi], count);
      assert buffer[..bi + 1] == buffer[..bi] + [buffer[bi]];
      if At(csv, i) == ',' {
        if count == v {
          return Success(buffer[..bi]);
        }
        count, bi := count + 1, -1;
      }
      bi, i := bi + 1, i + 1;
      if bi > BUFSIZE {
        // The overflow break: every field fits the buffer.
        assert false;
      }
    }
    if count == v {
      return Success(buffer[..bi]);
    }
    return Failure(FieldNotFound(v));
  }

  /**
   * The scan reads only forward: scanning `pre + rest` from inside `rest`
   * is scanning `rest` alone.
   */
  lemma {:induction false} ScanShift(pre: seq<char>, rest: seq<char>, v: int, x: nat, field: seq<char>, count: int)
    ensures Scan(pre + rest, v, |pre| + x, field, count) == Scan(rest, v, x, field, count)
    decreases |rest| + 2 - x, 1
  {
    if x < |rest| {
      assert (pre + rest)[|pre| + x] == rest[x];
      if rest[x] == '"' {
        var close := Seek(rest, x + 1, Char('"'));
        SeekShift(pre, rest, x + 1, Char('"'));
        assert (pre + rest)[|pre| + x + 1..|pre| + close] == rest[x + 1..close];
        assert At(pre + rest, |pre| + close) == At(rest, close);
        ResumeShift(pre, rest, v, close + 1, rest[x + 1..close], At(rest, close), count);
      } else {
        ResumeShift(pre, rest, v, x, field, rest[x], count);
      }
    }
  }

  lemma {:induction false} ResumeShift(pre: seq<char>, rest: seq<char>, v: int, p: nat, cur: seq<char>, last: char, count: int)
    requires p <= |rest| + 1
    ensures Resume(pre + rest, v, |pre| + p, cur, last, count) == Resume(rest, v, p, cur, last, count)
    decreases |rest| + 2 - p, 0
  {
    assert At(pre + rest, |pre| + p) == At(rest, p);
    ScanShift(pre, rest, v, p + 1, [], count + 1);
    ScanShift(pre, rest, v, p + 1, cur + [last], count);
  }

  /** The same for the absence of undefined behaviour. */
  lemma {:induction false} SafeShift(pre: seq<char>, rest: seq<char>, v: int, x: nat, bi: nat, count: int)
    ensures Safe(pre + rest, v, |pre| + x, bi, count) == Safe(rest, v, x, bi, count)
    decreases |rest| + 2 - x, 1
  {
    if x < |rest| {
      assert (pre + rest)[|pre| + x] == rest[x];
      if rest[x] == '"' {
        var close := Seek(rest, x + 1, Char('"'));
        SeekShift(pre, rest, x + 1, Char('"'));
        SafeResumeShift(pre, rest, v, close + 1, close - (x + 1), count);
      } else {
        SafeResumeShift(pre, rest, v, x, bi, count);
      }
    }
  }

  lemma {:induction false} SafeResumeShift(pre: seq<char>, rest: seq<char>, v: int, p: nat, bi: nat, count: int)
    requires p <= |rest| + 1
    ensures SafeResume(pre + rest, v, |pre| + p, bi, count) == SafeResume(rest, v, p, bi, count)
    decreases |rest| + 2 - p, 0
  {
    assert At(pre + rest, |pre| + p) == At(rest, p);
    SafeShift(pre, rest, v, p + 1, 0, count + 1);
    SafeShift(pre, rest, v, p + 1, bi + 1, count);
  }

  /** A run of `n` characters that are neither a quote nor a comma is copied as it is. */
  lemma {:induction false} ScanRun(csv: seq<char>, v: int, i: nat, n: nat, field: seq<char>, count: int)
    requires i + n <= |csv|
    requires forall t :: i <= t < i + n ==> csv[t] != '"' && csv[t] != ','
    ensures Scan(csv, v, i, field, count) == Scan(csv, v, i + n, field + csv[i..i + n], count)
    decreases n
  {
    if n > 0 {
      assert Scan(csv, v, i, field, count) == Resume(csv, v, i, field, csv[i], count);
      ScanRun(csv, v, i + 1, n - 1, field + [csv[i]], count);
      assert field + [csv[i]] + csv[i + 1..i + n] == field + csv[i..i + n];
    } else {
      assert field + csv[i..i] == field;
    }
  }

  /** Copying such a run is safe when the buffer keeps room after it. */
  lemma {:induction false} SafeRun(csv: seq<char>, v: int, i: nat, n: nat, bi: nat, count: int)
    requires i + n <= |csv| && bi + n < BUFSIZE
    requires forall t :: i <= t < i + n ==> csv[t] != '"' && csv[t] != ','
    ensures Safe(csv, v, i, bi, count) == Safe(csv, v, i + n, bi + n, count)
    decreases n
  {
    if n > 0 {
      SafeRun(csv, v, i + 1, n - 1, bi + 1, count);
    }
  }
}
