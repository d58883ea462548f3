/**
 * Records written from a list of fields, and what fetch (Find_Me.c lines
 * 392-470) makes of them.
 *
 * A field is either plain text, or a quoted part whose quotes are stripped
 * and inside which commas do not separate fields. The scanner drops
 * whatever precedes an opening quote within a field, so a quoted field also
 * records that `lead`.
 */
module CsvRecord {
  import opened CStrings
  import opened Outcomes
  import opened Csv

  datatype Field =
    | Plain(text: seq<char>)
    | Quoted(lead: seq<char>, text: seq<char>)

  /** The characters of a field as they appear in the record. */
  function Raw(f: Field): seq<char> {
    match f
    case Plain(t) => t
    case Quoted(l, t) => l + ['"'] + t + ['"']
  }

  /** The part of a field the scanner copies before it meets a quote, if any. */
  function Lead(f: Field): seq<char> {
    match f
    case Plain(t) => t
    case Quoted(l, _) => l
  }

  /**
   * A field the scanner handles without undefined behaviour: no separator
   * or quote outside the quotes, no quote inside them, and every part that
   * goes through the working buffer shorter than BUFSIZE.
   */
  predicate FieldOk(f: Field) {
    && ',' !in Lead(f) && '"' !in Lead(f) && NUL !in Lead(f) && |Lead(f)| < BUFSIZE
    && '"' !in f.text && NUL !in f.text && |f.text| < BUFSIZE
  }

  /**
   * A record the scanner handles without undefined behaviour: at least one
   * field, every field well formed, and a comma after every closing quote,
   * so the last field is not quoted.
   */
  predicate WellFormed(fs: seq<Field>)
    decreases |fs|
  {
    && |fs| >= 1
    && FieldOk(fs[0])
    && if |fs| == 1 then fs[0].Plain? else WellFormed(fs[1..])
  }

  /** The record written from `fs`: the raw fields joined by commas. */
  function Render(fs: seq<Field>): seq<char>
    requires |fs| >= 1
    decreases |fs|
  {
    if |fs| == 1 then Raw(fs[0]) else Raw(fs[0]) + [','] + Render(fs[1..])
  }

  /** The field list's v-th field (1-based), as fetch(v, ...) is meant to yield it. */
  function CsvField(fs: seq<Field>, v: int): Result<seq<char>> {
    if v < 1 then Failure(InvalidFieldIndex)
    else if v <= |fs| then Success(fs[v - 1].text)
    else Failure(FieldNotFound(v))
  }

  /** The record begins with its first field, and a comma follows it when more come. */
  lemma RenderHead(fs: seq<Field>)
    requires |fs| >= 1
    ensures |Raw(fs[0])| <= |Render(fs)|
    ensures forall t :: 0 <= t < |Raw(fs[0])| ==> Render(fs)[t] == Raw(fs[0])[t]
    ensures |fs| == 1 ==> |Render(fs)| == |Raw(fs[0])|
    ensures |fs| > 1 ==> Render(fs)[|Raw(fs[0])|] == ','
  {
  }

  /** The lead of the first field is a run of ordinary characters at the record's start. */
  lemma LeadAtStart(fs: seq<Field>)
    requires |fs| >= 1 && FieldOk(fs[0])
    ensures |Lead(fs[0])| <= |Render(fs)|
    ensures Render(fs)[..|Lead(fs[0])|] == Lead(fs[0])
    ensures forall t :: 0 <= t < |Lead(fs[0])| ==> Render(fs)[t] != '"' && Render(fs)[t] != ','
  {
    var csv, f, l := Render(fs), fs[0], Lead(fs[0]);
    RenderHead(fs);
    forall t | 0 <= t < |l|
      ensures csv[t] == l[t]
    {
      assert Raw(f)[t] == l[t];
    }
    assert csv[..|l|] == l;
  }

  /** Copying the lead of the first field. */
  lemma LeadScan(fs: seq<Field>, v: int, c: int)
    requires |fs| >= 1 && FieldOk(fs[0])
    ensures Scan(Render(fs), v, 0, [], c) == Scan(Render(fs), v, |Lead(fs[0])|, Lead(fs[0]), c)
  {
    LeadAtStart(fs);
    ScanRun(Render(fs), v, 0, |Lead(fs[0])|, [], c);
    assert [] + Render(fs)[0..|Lead(fs[0])|] == Lead(fs[0]);
  }

  lemma LeadSafe(fs: seq<Field>, v: int, c: int)
    requires |fs| >= 1 && FieldOk(fs[0])
    ensures Safe(Render(fs), v, 0, 0, c) == Safe(Render(fs), v, |Lead(fs[0])|, |Lead(fs[0])|, c)
  {
    LeadAtStart(fs);
    SafeRun(Render(fs), v, 0, |Lead(fs[0])|, 0, c);
  }

  /** The record after the first field's comma. */
  lemma RestShift(fs: seq<Field>)
    requires |fs| > 1
    ensures Render(fs) == (Raw(fs[0]) + [',']) + Render(fs[1..])
    ensures |Raw(fs[0]) + [',']| == |Raw(fs[0])| + 1
  {
  }

  /** The last field ends the record. */
  lemma LastScan(fs: seq<Field>, v: int, c: int)
    requires |fs| == 1 && fs[0].Plain?
    ensures Scan(Render(fs), v, |fs[0].text|, fs[0].text, c)
         == if c == v then Success(fs[0].text) else Failure(FieldNotFound(v))
    ensures Safe(Render(fs), v, |fs[0].text|, |fs[0].text|, c) == (c == v ==> |fs[0].text| < BUFSIZE)
  {
  }

  /** A comma ends a plain field. */
  lemma PlainNextScan(fs: seq<Field>, v: int, c: int)
    requires |fs| > 1 && fs[0].Plain?
    ensures Scan(Render(fs), v, |fs[0].text|, fs[0].text, c)
         == if c == v then Success(fs[0].text) else Scan(Render(fs[1..]), v, 0, [], c + 1)
  {
    var csv, t := Render(fs), fs[0].text;
    RenderHead(fs);
    assert Scan(csv, v, |t|, t, c) == Resume(csv, v, |t|, t, ',', c);
    RestShift(fs);
    ScanShift(Raw(fs[0]) + [','], Render(fs[1..]), v, 0, [], c + 1);
  }

  lemma PlainNextSafe(fs: seq<Field>, v: int, c: int)
    requires |fs| > 1 && fs[0].Plain?
    ensures Safe(Render(fs), v, |fs[0].text|, |fs[0].text|, c)
         == (|fs[0].text| < BUFSIZE && (c == v || Safe(Render(fs[1..]), v, 0, 0, c + 1)))
  {
    var csv, t := Render(fs), fs[0].text;
    RenderHead(fs);
    assert Safe(csv, v, |t|, |t|, c) == (|t| < BUFSIZE && SafeResume(csv, v, |t|, |t|, c));
    RestShift(fs);
    SafeShift(Raw(fs[0]) + [','], Render(fs[1..]), v, 0, 0, c + 1);
  }

  /**
   * The quoted part of the first field: its text, then the closing quote,
   * which is the first quote after the opening one, then a comma.
   */
  lemma QuotedLayout(fs: seq<Field>)
    requires |fs| > 1 && fs[0].Quoted? && '"' !in fs[0].text
    ensures
      var l, t, csv := fs[0].lead, fs[0].text, Render(fs);
      && |l| + |t| + 2 < |csv|
      && csv[|l|] == '"'
      && Seek(csv, |l| + 1, Char('"')) == |l| + 1 + |t|
      && csv[|l| + 1..|l| + 1 + |t|] == t
      && csv[|l| + 1 + |t|] == '"'
      && csv[|l| + |t| + 2] == ','
  {
    var l, t, csv := fs[0].lead, fs[0].text, Render(fs);
    var from, close := |l| + 1, |l| + 1 + |t|;
    RenderHead(fs);
    assert Raw(fs[0])[|l|] == '"';
    assert Raw(fs[0])[close] == '"';
    forall k | from <= k < close
      ensures csv[k] == t[k - from]
    {
      assert Raw(fs[0])[k] == t[k - from];
    }
    assert csv[from..close] == t;
    SeekIs(csv, from, Char('"'), close);
  }

  /** At the opening quote the scan takes the quoted text and moves past the comma. */
  lemma QuotedNextScan(fs: seq<Field>, v: int, c: int)
    requires |fs| > 1 && fs[0].Quoted? && '"' !in fs[0].text
    ensures Scan(Render(fs), v, |fs[0].lead|, fs[0].lead, c)
         == if c == v then Success(fs[0].text) else Scan(Render(fs[1..]), v, 0, [], c + 1)
  {
    var l, t, csv := fs[0].lead, fs[0].text, Render(fs);
    QuotedLayout(fs);
    assert Scan(csv, v, |l|, l, c) == Resume(csv, v, |l| + |t| + 2, t, '"', c);
    RestShift(fs);
    ScanShift(Raw(fs[0]) + [','], Render(fs[1..]), v, 0, [], c + 1);
  }

  lemma QuotedNextSafe(fs: seq<Field>, v: int, c: int)
    requires |fs| > 1 && fs[0].Quoted? && '"' !in fs[0].text
    ensures Safe(Render(fs), v, |fs[0].lead|, |fs[0].lead|, c)
         == (|fs[0].lead| < BUFSIZE && |fs[0].text| < BUFSIZE && (c == v || Safe(Render(fs[1..]), v, 0, 0, c + 1)))
  {
    var l, t, csv := fs[0].lead, fs[0].text, Render(fs);
    QuotedLayout(fs);
    assert Safe(csv, v, |l|, |l|, c)
        == (|l| < BUFSIZE && |t| < BUFSIZE && SafeResume(csv, v, |l| + |t| + 2, |t|, c));
    RestShift(fs);
    SafeShift(Raw(fs[0]) + [','], Render(fs[1..]), v, 0, 0, c + 1);
  }

  /** The scan of a record's first field: the field itself, or the scan of the rest. */
  lemma HeadScan(fs: seq<Field>, v: int, c: int)
    requires WellFormed(fs)
    ensures Scan(Render(fs), v, 0, [], c)
         == if c == v then Success(fs[0].text)
            else if |fs| == 1 then Failure(FieldNotFound(v))
            else Scan(Render(fs[1..]), v, 0, [], c + 1)
  {
    LeadScan(fs, v, c);
    if |fs| == 1 {
      LastScan(fs, v, c);
    } else if fs[0].Plain? {
      PlainNextScan(fs, v, c);
    } else {
      QuotedNextScan(fs, v, c);
    }
  }

  /**
   * The scan of a well-formed record from its start, with `c` fields
   * already counted, yields its (v - c + 1)-th field, or reports field `v`
   * missing.
   */
  lemma {:induction false} RecordScan(fs: seq<Field>, v: int, c: int)
    requires WellFormed(fs) && 1 <= c <= v
    ensures Scan(Render(fs), v, 0, [], c)
         == if v - c < |fs| then Success(fs[v - c].text) else Failure(FieldNotFound(v))
    decreases |fs|
  {
    HeadScan(fs, v, c);
    if c < v && |fs| > 1 {
      RecordScan(fs[1..], v, c + 1);
    }
  }

  /** The first field is copied safely, and so is the rest when it is needed. */
  lemma HeadSafe(fs: seq<Field>, v: int, c: int)
    requires WellFormed(fs) && c <= v
    requires |fs| > 1 && c < v ==> Safe(Render(fs[1..]), v, 0, 0, c + 1)
    ensures Safe(Render(fs), v, 0, 0, c)
  {
    LeadSafe(fs, v, c);
    if |fs| == 1 {
      LastScan(fs, v, c);
    } else if fs[0].Plain? {
      PlainNextSafe(fs, v, c);
    } else {
      QuotedNextSafe(fs, v, c);
    }
  }

  /** That scan runs without undefined behaviour. */
  lemma {:induction false} RecordSafe(fs: seq<Field>, v: int, c: int)
    requires WellFormed(fs) && 1 <= c <= v
    ensures Safe(Render(fs), v, 0, 0, c)
    decreases |fs|
  {
    if |fs| > 1 && c < v {
      RecordSafe(fs[1..], v, c + 1);
    }
    HeadSafe(fs, v, c);
  }

  /** No NUL occurs in a well-formed record. */
  lemma {:induction false} RenderIsCString(fs: seq<Field>)
    requires WellFormed(fs)
    ensures CString(Render(fs))
    decreases |fs|
  {
    if |fs| > 1 {
      RenderIsCString(fs[1..]);
    }
  }

  /**
   * On a well-formed record, fetch runs without undefined behaviour and
   * yields the v-th field's text, quotes stripped; a field number below 1
   * or beyond the last field is an error.
   */
  lemma RecordFetch(fs: seq<Field>, v: int)
    requires WellFormed(fs)
    ensures FetchDefined(v, Render(fs))
    ensures FetchResult(v, Render(fs)) == CsvField(fs, v)
  {
    if v >= 1 {
      RenderIsCString(fs);
      RecordSafe(fs, v, 1);
      RecordScan(fs, v, 1);
    }
  }
}
