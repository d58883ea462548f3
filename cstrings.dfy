/**
 * The C string primitives the scanners of Find_Me.c rely on.
 *
 * A C string is modelled as the sequence of its characters before the
 * terminating NUL, so it contains no NUL itself. A cursor that moves past
 * the last character reads the terminator: `At(s, |s|) == NUL`.
 */
module CStrings {

  const NUL: char := '\0'

  /** `s` can be the contents of a NUL-terminated C string. */
  predicate CString(s: seq<char>) {
    NUL !in s
  }

  /** The character a `char *` cursor at offset `i` of the C string `s` reads. */
  function At(s: seq<char>, i: nat): (ch: char)
    ensures i < |s| ==> ch == s[i]
    ensures i >= |s| ==> ch == NUL
  {
    if i < |s| then s[i] else NUL
  }

  /** The delimiters the scanners look for. */
  datatype CharClass =
    | Char(c: char)   // one given character
    | Digit           // isdigit() in the C locale
    | ValueEnd        // one of ',', ' ' or '}', the end of an unquoted JSON value

  predicate InClass(ch: char, cls: CharClass) {
    match cls
    case Char(c) => ch == c
    case Digit => '0' <= ch <= '9'
    case ValueEnd => ch == ',' || ch == ' ' || ch == '}'
  }

  /**
   * The offset of the first character of class `cls` at or after `from`,
   * or `|s|` (the terminator) when there is none: where a scanning loop
   * `while (!cls(*p)) { if (*p == '\0') fail; p++; }` stops.
   */
  function Seek(s: seq<char>, from: nat, cls: CharClass): (j: nat)
    requires from <= |s|
    ensures from <= j <= |s|
    ensures j < |s| ==> InClass(s[j], cls)
    ensures forall k :: from <= k < j ==> !InClass(s[k], cls)
    decreases |s| - from
  {
    if from == |s| then |s|
    else if InClass(s[from], cls) then from
    else Seek(s, from + 1, cls)
  }

  /** Seek is the only offset with the properties in its contract. */
  lemma SeekIs(s: seq<char>, from: nat, cls: CharClass, j: nat)
    requires from <= j <= |s|
    requires j < |s| ==> InClass(s[j], cls)
    requires forall k :: from <= k < j ==> !InClass(s[k], cls)
    ensures Seek(s, from, cls) == j
  {
  }

  /** A scan reaches the terminator exactly when no character of its class follows. */
  lemma SeekMissing(s: seq<char>, from: nat, cls: CharClass)
    requires from <= |s|
    ensures Seek(s, from, cls) == |s| <==> forall k :: from <= k < |s| ==> !InClass(s[k], cls)
  {
  }

  /** Seek on `pre + rest` from inside `rest` finds what Seek on `rest` finds. */
  lemma {:induction false} SeekShift(pre: seq<char>, rest: seq<char>, x: nat, cls: CharClass)
    requires x <= |rest|
    ensures Seek(pre + rest, |pre| + x, cls) == |pre| + Seek(rest, x, cls)
    decreases |rest| - x
  {
    if x < |rest| {
      assert (pre + rest)[|pre| + x] == rest[x];
      if !InClass(rest[x], cls) {
        SeekShift(pre, rest, x + 1, cls);
      }
    }
  }

  /** The pointer strstr() returns: an offset, or None for NULL. */
  datatype Option<T> = None | Some(value: T)

  /** `key` occurs in `s` at offset `i`. */
  predicate MatchAt(s: seq<char>, key: seq<char>, i: nat) {
    i + |key| <= |s| && s[i..i + |key|] == key
  }

  /** strstr(s, key), as an offset into `s`: the first occurrence of `key`. */
  function Strstr(s: seq<char>, key: seq<char>): (r: Option<nat>)
    ensures r.Some? ==> MatchAt(s, key, r.value)
    ensures r.Some? ==> forall i :: 0 <= i < r.value ==> !MatchAt(s, key, i)
    ensures r.None? ==> forall i :: 0 <= i ==> !MatchAt(s, key, i)
  {
    StrstrFrom(s, key, 0)
  }

  function StrstrFrom(s: seq<char>, key: seq<char>, from: nat): (r: Option<nat>)
    ensures r.Some? ==> from <= r.value && MatchAt(s, key, r.value)
    ensures r.Some? ==> forall i :: from <= i < r.value ==> !MatchAt(s, key, i)
    ensures r.None? ==> forall i :: from <= i ==> !MatchAt(s, key, i)
    decreases |s| - from
  {
    if from + |key| > |s| then None
    else if s[from..from + |key|] == key then Some(from)
    else StrstrFrom(s, key, from + 1)
  }
}
