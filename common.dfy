/**
 * Shared vocabulary of the model: optional values (Java `null`), results of
 * operations that report an error to a callback, the values stored in a
 * Firestore document, and the few `java.lang.String` operations the app
 * relies on.
 */
module Common {

  /** A Java reference that may be `null`. */
  datatype Option<T> = None | Some(value: T)
  {
    function GetOr(default: T): (r: T)
      ensures Some? ==> r == value
      ensures None? ==> r == default
    {
      match this
      case Some(v) => v
      case None => default
    }
  }

  /** An operation that either succeeds or reports an error message. */
  datatype Result<T> = Ok(value: T) | Err(error: string)

  /**
   * A value stored under one key of a Firestore document. Dates written by
   * the app are `java.util.Date` (VDate); the same fields read back from
   * Firestore arrive as `com.google.firebase.Timestamp` (VTimestamp). Both
   * carry milliseconds since the epoch.
   */
  datatype Value =
    | VNull
    | VStr(s: string)
    | VNum(n: int)
    | VBool(b: bool)
    | VDate(millis: int)
    | VTimestamp(millis: int)
    | VOther

  /** A Firestore document's data, or a `Map<String, Object>` built by a `toMap`. */
  type Doc = map<string, Value>

  /** `(String) m.get(key)`: absent keys and non-string values read as null. */
  function StrField(m: Doc, key: string): (r: Option<string>)
    ensures r.Some? <==> key in m && m[key].VStr?
    ensures r.Some? ==> m[key] == VStr(r.value)
  {
    if key in m && m[key].VStr? then Some(m[key].s) else None
  }

  /** The instant a date-typed value denotes, whichever of the two date classes holds it. */
  function DateOf(v: Value): (r: Option<int>)
    ensures r.Some? <==> v.VDate? || v.VTimestamp?
  {
    match v
    case VDate(t) => Some(t)
    case VTimestamp(t) => Some(t)
    case _ => None
  }

  /** A date field of a document: null unless it holds a Date or a Timestamp. */
  function DateField(m: Doc, key: string): (r: Option<int>)
    ensures r.Some? ==> key in m && (m[key] == VDate(r.value) || m[key] == VTimestamp(r.value))
    ensures key !in m ==> r.None?
  {
    if key in m then DateOf(m[key]) else None
  }

  /** The value `toMap` stores for a nullable string. */
  function StrValue(s: Option<string>): (v: Value)
    ensures s.None? <==> v == VNull
  {
    match s
    case Some(x) => VStr(x)
    case None => VNull
  }

  /** The value `toMap` stores for a nullable `java.util.Date`. */
  function DateValue(t: Option<int>): (v: Value)
    ensures t.None? <==> v == VNull
    ensures DateOf(v) == t
  {
    match t
    case Some(x) => VDate(x)
    case None => VNull
  }

  /** `TextUtils.isEmpty(s)`: null or of length zero. */
  predicate IsEmpty(s: Option<string>)
  {
    s.None? || s.value == ""
  }

  /** `s.startsWith(prefix)`. */
  predicate StartsWith(s: string, prefix: string)
  {
    |prefix| <= |s| && s[..|prefix|] == prefix
  }

  /** `sub` occurs in `s` starting at position `i`. */
  predicate OccursAt(s: string, sub: string, i: int)
  {
    0 <= i <= |s| - |sub| && s[i..i + |sub|] == sub
  }

  /** `s.contains(sub)`: `sub` occurs in `s` at some position. */
  predicate Contains(s: string, sub: string)
  {
    exists i | 0 <= i <= |s| - |sub| :: OccursAt(s, sub, i)
  }

  /** `s.indexOf(c)`: the first position of `c` in `s`, or -1 when it does not occur. */
  function IndexOf(s: string, c: char): (i: int)
    ensures -1 <= i < |s|
    ensures i == -1 <==> c !in s
    ensures i >= 0 ==> s[i] == c && c !in s[..i]
  {
    if s == [] then -1
    else if s[0] == c then 0
    else
      var j := IndexOf(s[1..], c);
      assert s == [s[0]] + s[1..];
      if j == -1 then -1
      else
        assert s[..j + 1] == [s[0]] + s[1..][..j];
        j + 1
  }

  /** Java's `Character.toLowerCase` restricted to the ASCII letters. */
  function LowerChar(c: char): (d: char)
    ensures 'A' <= c <= 'Z' ==> d as int == c as int + 32
    ensures !('A' <= c <= 'Z') ==> d == c
  {
    if 'A' <= c <= 'Z' then (c as int + 32) as char else c
  }

  /** `s.toLowerCase()` restricted to the ASCII letters. */
  function Lower(s: string): (r: string)
    ensures |r| == |s|
    ensures forall i :: 0 <= i < |s| ==> r[i] == LowerChar(s[i])
  {
    if s == [] then [] else [LowerChar(s[0])] + Lower(s[1..])
  }

  lemma {:induction false} LowerIdempotent(s: string)
    ensures Lower(Lower(s)) == Lower(s)
  {
    var l := Lower(s);
    var ll := Lower(l);
    assert |ll| == |l|;
    forall i | 0 <= i < |s|
      ensures ll[i] == l[i]
    {
      assert ll[i] == LowerChar(l[i]);
    }
  }

  /** The characters `String.trim` removes from both ends: code points up to U+0020. */
  predicate IsTrimmed(c: char)
  {
    c <= ' '
  }

  /** `s.trim()`. */
  function Trim(s: string): (r: string)
    ensures |r| <= |s|
    ensures r != [] ==> !IsTrimmed(r[0]) && !IsTrimmed(r[|r| - 1])
    ensures (forall i :: 0 <= i < |s| ==> IsTrimmed(s[i])) <==> r == []
    decreases |s|
  {
    if s != [] && IsTrimmed(s[0]) then
      var r := Trim(s[1..]);
      assert forall i :: 0 <= i < |s| - 1 ==> s[1..][i] == s[i + 1];
      r
    else if s != [] && IsTrimmed(s[|s| - 1]) then
      var r := Trim(s[..|s| - 1]);
      assert forall i :: 0 <= i < |s| - 1 ==> s[..|s| - 1][i] == s[i];
      r
    else
      s
  }

  /** `Integer.compare`, `Long.compare` and `Double.compare` on integers: the sign of `x - y`. */
  function Compare(x: int, y: int): (r: int)
    ensures r < 0 <==> x < y
    ensures r == 0 <==> x == y
  {
    if x < y then -1 else if x == y then 0 else 1
  }

  /**
   * Java's `a / b` on `long`: the quotient truncated toward zero, so the
   * remainder takes the sign of the dividend (Dafny's `/` is Euclidean).
   */
  function DivTrunc(a: int, b: int): (q: int)
    requires b > 0
    ensures a >= 0 ==> 0 <= a - q * b < b
    ensures a < 0 ==> -b < a - q * b <= 0
  {
    if a >= 0 then a / b else -((-a) / b)
  }

  /** A narrowing cast to Java's 32-bit `int`: the low 32 bits, two's complement. */
  function ToInt32(x: int): (r: int)
    ensures -0x8000_0000 <= r < 0x8000_0000
    ensures -0x8000_0000 <= x < 0x8000_0000 ==> r == x
  {
    (x + 0x8000_0000) % 0x1_0000_0000 - 0x8000_0000
  }
}
