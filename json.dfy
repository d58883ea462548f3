/**
 * The two JSON value extractors of Find_Me.c: `parse` (lines 261-318) for
 * a quoted value and `extractValue` (lines 326-381) for an unquoted number.
 * Both locate the key with strstr(), step one character into the match,
 * look for the next colon, and then scan for the value's delimiters, each
 * scan failing when it meets the string's terminator first.
 */
module Json {
  import opened CStrings
  import opened Outcomes

  /**
   * strstr(json, key) + 1 points into the string: the key occurs, and one
   * past its first match is at most the terminator.
   */
  predicate KeyFound(json: seq<char>, key: seq<char>) {
    Strstr(json, key).Some? && Strstr(json, key).value < |json|
  }

  /** Where the colon scan begins: one character into the key's first match. */
  function KeyAt(json: seq<char>, key: seq<char>): (p: nat)
    requires KeyFound(json, key)
    ensures 1 <= p <= |json| && MatchAt(json, key, p - 1)
    ensures forall i :: 0 <= i < p - 1 ==> !MatchAt(json, key, i)
  {
    Strstr(json, key).value + 1
  }

  /** The offset of the colon the scan stops at, or |json| when there is none. */
  function ColonAt(json: seq<char>, key: seq<char>): (c: nat)
    requires KeyFound(json, key)
    ensures c <= |json|
  {
    Seek(json, KeyAt(json, key), Char(':'))
  }

  /** The offset of the opening quote of the value of `key`, or |json|. */
  function OpenQuoteAt(json: seq<char>, key: seq<char>): (q: nat)
    requires KeyFound(json, key)
    ensures q <= |json|
  {
    var c := ColonAt(json, key);
    Seek(json, c, Char('"'))
  }

  /**
   * parse(json, key, val) runs without undefined behaviour: `json` is a C
   * string, the key occurs, and an opening quote is not the last character
   * (the closing-quote probe starts one past the value's first character).
   */
  predicate ParseDefined(json: seq<char>, key: seq<char>) {
    && CString(json)
    && KeyFound(json, key)
    && (ColonAt(json, key) < |json| && OpenQuoteAt(json, key) < |json| ==> OpenQuoteAt(json, key) + 1 < |json|)
  }

  /**
   * What parse(json, key, val) leaves in `val`: the text after the first
   * quote that follows the colon, up to the next quote. The probe for the
   * closing quote starts one character into the value, so an empty value
   * needs some later quote for the probe to succeed.
   */
  function QuotedValue(json: seq<char>, key: seq<char>): (r: Result<seq<char>>)
    requires ParseDefined(json, key)
    ensures r.Failure? ==> r.error.UnableToParse? && r.error.key == key
    ensures r.Success? ==> '"' !in r.value
  {
    var c := ColonAt(json, key);
    if c == |json| then Failure(UnableToParse(key, Char(':')))
    else
      var q := OpenQuoteAt(json, key);
      if q == |json| then Failure(UnableToParse(key, Char('"')))
      else if Seek(json, q + 2, Char('"')) == |json| then Failure(UnableToParse(key, Char('"')))
      else Success(json[q + 1..Seek(json, q + 1, Char('"'))])
  }

  /**
   * The loop `while (!cls(*p)) { if (*p == '\0') fail; p++; }` of parse and
   * extractValue: where it stops, the terminator standing for the failure.
   */
  method SkipTo(s: seq<char>, from: nat, cls: CharClass) returns (p: nat)
    requires CString(s) && from <= |s|
    ensures p == Seek(s, from, cls)
  {
    p := from;
    while !InClass(At(s, p), cls)
      invariant from <= p <= |s| && Seek(s, p, cls) == Seek(s, from, cls)
      decreases |s| - p
    {
      if At(s, p) == NUL {
        return;
      }
      p := p + 1;
    }
  }

  /**
   * The copy loop of parse and extractValue: `val` receives the characters
   * from `from` up to the first one of class `cls`, then NUL. The loop's
   * own terminator check ("Malformed json value") cannot fire, because the
   * callers have already found a delimiter.
   */
  method CopyValue(s: seq<char>, from: nat, cls: CharClass, val: array<char>) returns (x: nat)
    requires CString(s) && from <= |s|
    requires Seek(s, from, cls) < |s| && Seek(s, from, cls) - from < val.Length
    modifies val
    ensures x == Seek(s, from, cls) - from
    ensures val[..x] == s[from..Seek(s, from, cls)] && val[x] == NUL
    ensures forall k :: x < k < val.Length ==> val[k] == old(val[k])
  {
    ghost var stop := Seek(s, from, cls);
    x := 0;
    val[0] := NUL;
    while !InClass(At(s, from + x), cls)
      invariant from + x <= stop && Seek(s, from + x, cls) == stop
      invariant forall k :: 0 <= k < x ==> val[k] == s[from + k]
      invariant forall k :: x < k < val.Length ==> val[k] == old(val[k])
      decreases stop - (from + x)
    {
      if At(s, from + x) == NUL {
        // "Malformed json value": a delimiter comes first.
        assert false;
      }
      val[x] := s[from + x];
      x := x + 1;
    }
    val[x] := NUL;
    assert val[..x] == s[from..stop];
  }

  /** The value QuotedValue finds, given where the quote scans stop. */
  lemma QuotedValueAt(json: seq<char>, key: seq<char>, start: nat, close: nat)
    requires ParseDefined(json, key) && ColonAt(json, key) < |json| && OpenQuoteAt(json, key) < |json|
    requires start == OpenQuoteAt(json, key) + 1 && Seek(json, start + 1, Char('"')) < |json|
    requires close == Seek(json, start, Char('"'))
    ensures start <= close < |json|
    ensures QuotedValue(json, key) == Success(json[start..close])
  {
  }

  /**
   * The scans of parse: where the value starts and where its closing quote
   * stands, or the error it exits with.
   */
  method LocateQuoted(json: seq<char>, key: seq<char>) returns (r: Result<(nat, nat)>)
    requires ParseDefined(json, key)
    ensures r.Failure? ==> QuotedValue(json, key) == Failure(r.error)
    ensures r.Success? ==> ColonAt(json, key) < |json| && OpenQuoteAt(json, key) < |json|
    ensures r.Success? ==> r.value.0 == OpenQuoteAt(json, key) + 1
    ensures r.Success? ==> r.value.1 == Seek(json, r.value.0 + 1, Char('"')) < |json|
  {
    var found := KeyAt(json, key);
    found := SkipTo(json, found, Char(':'));
    if found == |json| {
      return Failure(UnableToParse(key, Char(':')));
    }
    found := SkipTo(json, found, Char('"'));
    if found == |json| {
      return Failure(UnableToParse(key, Char('"')));
    }
    var size := SkipTo(json, found + 2, Char('"'));
    if size == |json| {
      return Failure(UnableToParse(key, Char('"')));
    }
    // The value starts past the opening quote.
    return Success((found + 1, size));
  }

  /**
   * parse(json, key, val): the quoted value of `key`, copied into `val`
   * and terminated with NUL.
   */
  method Parse(json: seq<char>, key: seq<char>, val: array<char>) returns (r: Result<seq<char>>)
    requires ParseDefined(json, key)
    requires QuotedValue(json, key).Success? ==> |QuotedValue(json, key).value| < val.Length
    modifies val
    ensures r == QuotedValue(json, key)
    ensures r.Success? ==> val[..|r.value|] == r.value && val[|r.value|] == NUL
    ensures r.Success? ==> forall k :: |r.value| < k < val.Length ==> val[k] == old(val[k])
    ensures r.Failure? ==> unchanged(val)
  {
    var span := LocateQuoted(json, key);
    if span.Failure? {
      return Failure(span.error);
    }
    QuotedValueAt(json, key, span.value.0, Seek(json, span.value.0, Char('"')));
    var x := CopyValue(json, span.value.0, Char('"'), val);
    return Success(val[..x]);
  }

  /** extractValue(json, key, val) runs without undefined behaviour. */
  predicate ExtractDefined(json: seq<char>, key: seq<char>) {
    CString(json) && KeyFound(json, key)
  }

  /** The offset of the first digit after the colon, or |json|. */
  function DigitAt(json: seq<char>, key: seq<char>): (d: nat)
    requires KeyFound(json, key)
    ensures d <= |json|
  {
    Seek(json, ColonAt(json, key), Digit)
  }

  /**
   * What extractValue(json, key, val) leaves in `val`: from the first digit
   * after the colon up to the next ',', ' ' or '}'. A sign before the first
   * digit is skipped.
   */
  function NumberValue(json: seq<char>, key: seq<char>): (r: Result<seq<char>>)
    requires ExtractDefined(json, key)
    ensures r.Failure? ==> r.error.UnableToParse? && r.error.key == key
    ensures r.Success? ==> |r.value| >= 1 && InClass(r.value[0], Digit)
    ensures r.Success? ==> forall k :: 0 <= k < |r.value| ==> !InClass(r.value[k], ValueEnd)
  {
    var c := ColonAt(json, key);
    if c == |json| then Failure(UnableToParse(key, Char(':')))
    else
      var d := DigitAt(json, key);
      if d == |json| then Failure(UnableToParse(key, Digit))
      else
        var e := Seek(json, d + 1, ValueEnd);
        if e == |json| then Failure(UnableToParse(key, ValueEnd))
        else Success(json[d..e])
  }

  /** The value NumberValue finds, given where the digit and the delimiter scans stop. */
  lemma NumberValueAt(json: seq<char>, key: seq<char>, d: nat, e: nat)
    requires ExtractDefined(json, key) && ColonAt(json, key) < |json|
    requires d == DigitAt(json, key) < |json| && e == Seek(json, d + 1, ValueEnd) < |json|
    ensures Seek(json, d, ValueEnd) == e
    ensures NumberValue(json, key) == Success(json[d..e])
  {
  }

  /**
   * The scans of extractValue: where the number starts and where its
   * delimiter stands, or the error it exits with.
   */
  method LocateNumber(json: seq<char>, key: seq<char>) returns (r: Result<(nat, nat)>)
    requires ExtractDefined(json, key)
    ensures r.Failure? ==> NumberValue(json, key) == Failure(r.error)
    ensures r.Success? ==> ColonAt(json, key) < |json| && r.value.0 == DigitAt(json, key) < |json|
    ensures r.Success? ==> r.value.1 == Seek(json, r.value.0 + 1, ValueEnd) < |json|
  {
    var found := KeyAt(json, key);
    found := SkipTo(json, found, Char(':'));
    if found == |json| {
      return Failure(UnableToParse(key, Char(':')));
    }
    found := SkipTo(json, found, Digit);
    if found == |json| {
      return Failure(UnableToParse(key, Digit));
    }
    var size := SkipTo(json, found + 1, ValueEnd);
    if size == |json| {
      return Failure(UnableToParse(key, ValueEnd));
    }
    return Success((found, size));
  }

  /**
   * extractValue(json, key, val): the unquoted numeric value of `key`,
   * copied into `val` and terminated with NUL.
   */
  method ExtractValue(json: seq<char>, key: seq<char>, val: array<char>) returns (r: Result<seq<char>>)
    requires ExtractDefined(json, key)
    requires NumberValue(json, key).Success? ==> |NumberValue(json, key).value| < val.Length
    modifies val
    ensures r == NumberValue(json, key)
    ensures r.Success? ==> val[..|r.value|] == r.value && val[|r.value|] == NUL
    ensures r.Success? ==> forall k :: |r.value| < k < val.Length ==> val[k] == old(val[k])
    ensures r.Failure? ==> unchanged(val)
  {
    var span := LocateNumber(json, key);
    if span.Failure? {
      return Failure(span.error);
    }
    NumberValueAt(json, key, span.value.0, span.value.1);
    var x := CopyValue(json, span.value.0, ValueEnd, val);
    return Success(val[..x]);
  }

  /**
   * parse fails exactly when one of its scans reaches the terminator: no
   * colon after the key match, no quote after the colon, or no quote from
   * the second character of the value on.
   */
  lemma QuotedValueFails(json: seq<char>, key: seq<char>)
    requires ParseDefined(json, key)
    ensures QuotedValue(json, key).Failure? <==>
      || (forall k :: KeyAt(json, key) <= k < |json| ==> json[k] != ':')
      || (forall k :: ColonAt(json, key) <= k < |json| ==> json[k] != '"')
      || (forall k :: OpenQuoteAt(json, key) + 2 <= k < |json| ==> json[k] != '"')
  {
  }

  /**
   * extractValue fails exactly when one of its scans reaches the
   * terminator: no colon after the key match, no digit after the colon, or
   * no ',', ' ' or '}' after the first digit.
   */
  lemma NumberValueFails(json: seq<char>, key: seq<char>)
    requires ExtractDefined(json, key)
    ensures NumberValue(json, key).Failure? <==>
      || (forall k :: KeyAt(json, key) <= k < |json| ==> json[k] != ':')
      || (forall k :: ColonAt(json, key) <= k < |json| ==> !InClass(json[k], Digit))
      || (forall k :: DigitAt(json, key) + 1 <= k < |json| ==> !InClass(json[k], ValueEnd))
  {
  }
}
