/**
 * What parse and extractValue of Find_Me.c (lines 261-318 and 326-381)
 * return, stated by the delimiters around the value rather than by the
 * scans that find them.
 */
module JsonLayout {
  import opened CStrings
  import opened Outcomes
  import opened Json

  /**
   * The closing-quote probe of parse, which starts one past the value's
   * first character, finds a quote when the value is not empty or when a
   * later quote follows.
   */
  lemma ProbeFinds(json: seq<char>, q: nat, e: nat)
    requires q < e < |json| && json[e] == '"'
    requires q + 1 < e || '"' in json[e + 1..]
    ensures Seek(json, q + 2, Char('"')) < |json|
  {
    if q + 1 < e {
      assert Seek(json, q + 2, Char('"')) <= e;
    } else {
      SeekMissing(json, q + 2, Char('"'));
      var k :| e + 1 <= k < |json| && json[k] == '"';
    }
  }

  /**
   * parse returns the text strictly between the first quote after the
   * first colon that follows the key match and the next quote. An empty
   * value also needs some later quote, for the probe that starts one past
   * the value's first character.
   */
  lemma QuotedValueFound(json: seq<char>, key: seq<char>, c: nat, q: nat, e: nat)
    requires CString(json) && KeyFound(json, key)
    requires KeyAt(json, key) <= c < q < e < |json|
    requires json[c] == ':' && forall k :: KeyAt(json, key) <= k < c ==> json[k] != ':'
    requires json[q] == '"' && forall k :: c <= k < q ==> json[k] != '"'
    requires json[e] == '"' && forall k :: q + 1 <= k < e ==> json[k] != '"'
    requires q + 1 < e || '"' in json[e + 1..]
    ensures ParseDefined(json, key) && QuotedValue(json, key) == Success(json[q + 1..e])
  {
    SeekIs(json, KeyAt(json, key), Char(':'), c);
    SeekIs(json, c, Char('"'), q);
    SeekIs(json, q + 1, Char('"'), e);
    ProbeFinds(json, q, e);
    QuotedValueAt(json, key, q + 1, e);
  }

  /**
   * An empty value is rejected when no quote follows its closing quote:
   * the probe for the closing quote starts past it. "key":"" as the last
   * quoted text of the response fails although the value is complete.
   */
  lemma EmptyLastValueFails(json: seq<char>, key: seq<char>, c: nat, q: nat)
    requires CString(json) && KeyFound(json, key)
    requires KeyAt(json, key) <= c < q && q + 1 < |json|
    requires json[c] == ':' && forall k :: KeyAt(json, key) <= k < c ==> json[k] != ':'
    requires json[q] == '"' && forall k :: c <= k < q ==> json[k] != '"'
    requires json[q + 1] == '"' && forall k :: q + 2 <= k < |json| ==> json[k] != '"'
    ensures ParseDefined(json, key) && QuotedValue(json, key) == Failure(UnableToParse(key, Char('"')))
  {
    SeekIs(json, KeyAt(json, key), Char(':'), c);
    SeekIs(json, c, Char('"'), q);
    SeekMissing(json, q + 2, Char('"'));
  }

  /**
   * extractValue returns the text from the first digit after the first
   * colon that follows the key match up to the next ',', ' ' or '}'.
   */
  lemma NumberValueFound(json: seq<char>, key: seq<char>, c: nat, d: nat, e: nat)
    requires CString(json) && KeyFound(json, key)
    requires KeyAt(json, key) <= c < d < e < |json|
    requires json[c] == ':' && forall k :: KeyAt(json, key) <= k < c ==> json[k] != ':'
    requires InClass(json[d], Digit) && forall k :: c <= k < d ==> !InClass(json[k], Digit)
    requires InClass(json[e], ValueEnd) && forall k :: d < k < e ==> !InClass(json[k], ValueEnd)
    ensures ExtractDefined(json, key) && NumberValue(json, key) == Success(json[d..e])
  {
    SeekIs(json, KeyAt(json, key), Char(':'), c);
    SeekIs(json, c, Digit, d);
    SeekIs(json, d + 1, ValueEnd, e);
  }

  /**
   * A minus sign between the colon and the digits is not part of the
   * value: "latitude":-33.8 yields 33.8.
   */
  lemma MinusSignDropped(json: seq<char>, key: seq<char>, c: nat, e: nat)
    requires CString(json) && KeyFound(json, key)
    requires KeyAt(json, key) <= c && c + 2 < e < |json|
    requires json[c] == ':' && forall k :: KeyAt(json, key) <= k < c ==> json[k] != ':'
    requires json[c + 1] == '-' && InClass(json[c + 2], Digit)
    requires InClass(json[e], ValueEnd) && forall k :: c + 2 < k < e ==> !InClass(json[k], ValueEnd)
    ensures NumberValue(json, key) == Success(json[c + 2..e])
    ensures NumberValue(json, key).value != json[c + 1..e]
  {
    NumberValueFound(json, key, c, c + 2, e);
    assert json[c + 1..e][0] == '-';
  }
}
