/**
 * The slice of JavaScript the server code relies on: dynamically typed
 * values, truthiness, `Number(...)` coercion, and the string built-ins
 * `trim`, `toLowerCase`, `includes`, `startsWith` and `split`.
 */
module Js {

  datatype Option<+T> = None | Some(value: T)

  /** A JavaScript number. Finite values are kept exact (rounding is not modelled). */
  datatype Number = Finite(r: real) | NaN | PosInfinity | NegInfinity

  /**
   * A value as it arrives in a parsed JSON request body. `Obj` stands for an
   * object or array and carries the string its `toString()` produces.
   */
  datatype JsValue =
    | Undefined
    | Null
    | Bool(b: bool)
    | Num(n: Number)
    | Str(s: string)
    | Obj(asString: string)

  /** `!!v` in JavaScript: false exactly for undefined, null, false, 0, NaN and "". */
  predicate Truthy(v: JsValue)
    ensures !Truthy(v) <==>
      v == Undefined || v == Null || v == Bool(false) || v == Num(NaN) || v == Num(Finite(0.0)) || v == Str("")
  {
    match v
    case Undefined => false
    case Null => false
    case Bool(b) => b
    case Num(n) => n != NaN && n != Finite(0.0)
    case Str(s) => s != ""
    case Obj(_) => true
  }

  /**
   * `Number(v)`. Parsing a numeric string is not modelled and is supplied as
   * `parse`; an object converts through its string form, as ToPrimitive does
   * for plain objects and arrays.
   */
  function ToNumber(v: JsValue, parse: string -> Number): (n: Number)
    ensures v.Num? ==> n == v.n
    ensures v.Undefined? ==> n == NaN
    ensures v.Null? ==> n == Finite(0.0)
  {
    match v
    case Undefined => NaN
    case Null => Finite(0.0)
    case Bool(b) => if b then Finite(1.0) else Finite(0.0)
    case Num(n) => n
    case Str(s) => parse(s)
    case Obj(s) => parse(s)
  }

  // Relational operators of JavaScript between a number and a finite constant.
  // Every comparison with NaN is false.

  predicate LessThan(n: Number, x: real)
  {
    match n
    case Finite(r) => r < x
    case NaN => false
    case PosInfinity => false
    case NegInfinity => true
  }

  predicate GreaterThan(n: Number, x: real)
  {
    match n
    case Finite(r) => r > x
    case NaN => false
    case PosInfinity => true
    case NegInfinity => false
  }

  predicate AtMost(n: Number, x: real)
  {
    match n
    case Finite(r) => r <= x
    case NaN => false
    case PosInfinity => false
    case NegInfinity => true
  }

  /**
   * The WhiteSpace and LineTerminator code points of ECMAScript: the set both
   * `String.prototype.trim` and the regular-expression class `\s` use.
   */
  predicate IsWhitespace(c: char)
  {
    c == '\t' || c == '\n' || c == '\U{B}' || c == '\U{C}' || c == '\r' || c == ' '
    || c == '\U{A0}' || c == '\U{1680}' || ('\U{2000}' <= c <= '\U{200A}')
    || c == '\U{2028}' || c == '\U{2029}' || c == '\U{202F}' || c == '\U{205F}'
    || c == '\U{3000}' || c == '\U{FEFF}'
  }

  predicate NoWhitespace(s: string)
  {
    forall i :: 0 <= i < |s| ==> !IsWhitespace(s[i])
  }

  /** Neither end of `s` is whitespace: what `trim()` produces. */
  predicate IsTrimmed(s: string)
  {
    s == [] || (!IsWhitespace(s[0]) && !IsWhitespace(s[|s| - 1]))
  }

  /** Drops leading whitespace: the result is a suffix of `s` and what was dropped is all whitespace. */
  function TrimStart(s: string): (r: string)
    ensures |r| <= |s| && r == s[|s| - |r|..]
    ensures forall i :: 0 <= i < |s| - |r| ==> IsWhitespace(s[i])
    ensures r != [] ==> !IsWhitespace(r[0])
  {
    if s != [] && IsWhitespace(s[0]) then TrimStart(s[1..]) else s
  }

  /** Drops trailing whitespace: the result is a prefix of `s` and what was dropped is all whitespace. */
  function TrimEnd(s: string): (r: string)
    ensures |r| <= |s| && r == s[..|r|]
    ensures forall i :: |r| <= i < |s| ==> IsWhitespace(s[i])
    ensures r != [] ==> !IsWhitespace(r[|r| - 1])
  {
    if s != [] && IsWhitespace(s[|s| - 1]) then TrimEnd(s[..|s| - 1]) else s
  }

  /** `r` is `s` with the whitespace `s[..k]` cut from the front and the whitespace after `r` cut from the back. */
  predicate CutFrom(s: string, r: string, k: int)
  {
    0 <= k <= |s| - |r| && r == s[k..k + |r|]
    && (forall i :: 0 <= i < k ==> IsWhitespace(s[i]))
    && (forall i :: k + |r| <= i < |s| ==> IsWhitespace(s[i]))
  }

  /** `s.trim()`: whitespace removed from both ends. */
  function Trim(s: string): (r: string)
    ensures IsTrimmed(r) && |r| <= |s|
  {
    var t := TrimStart(s);
    var r := TrimEnd(t);
    assert r != [] ==> r[0] == t[0];
    r
  }

  /**
   * What `trim()` removes: the result is a contiguous piece `s[k..k+|r|]`
   * of `s`, and everything cut off on either side is whitespace.
   */
  lemma TrimIsCut(s: string)
    ensures exists k :: CutFrom(s, Trim(s), k)
  {
    var t := TrimStart(s);
    var r := TrimEnd(t);
    var k := |s| - |t|;
    CutOfSuffix(s, t, r, k);
    assert CutFrom(s, Trim(s), k);
  }

  /**
   * Cutting the trailing whitespace off the suffix `t == s[k..]`, whose
   * front `s[..k]` is whitespace, leaves a cut of `s` starting at `k`.
   */
  lemma CutOfSuffix(s: string, t: string, r: string, k: int)
    requires 0 <= k <= |s| && t == s[k..] && r <= t
    requires forall i :: 0 <= i < k ==> IsWhitespace(s[i])
    requires forall i :: |r| <= i < |t| ==> IsWhitespace(t[i])
    ensures CutFrom(s, r, k)
  {
    PrefixOfSuffix(s, t, r, k);
    BackOfSuffix(s, t, |r|, k);
  }

  /** A prefix `r` of the suffix `s[k..]` is the slice of `s` starting at `k`. */
  lemma PrefixOfSuffix(s: string, t: string, r: string, k: int)
    requires 0 <= k <= |s| && t == s[k..] && r <= t
    ensures k + |r| <= |s| && r == s[k..k + |r|]
  {
  }

  /** Whitespace after position `n` of the suffix `s[k..]` is whitespace after `k + n` in `s`. */
  lemma BackOfSuffix(s: string, t: string, n: nat, k: nat)
    requires 0 <= k <= |s| && t == s[k..]
    requires forall i :: n <= i < |t| ==> IsWhitespace(t[i])
    ensures forall i :: k + n <= i < |s| ==> IsWhitespace(s[i])
  {
    forall i | k + n <= i < |s|
      ensures IsWhitespace(s[i])
    {
      assert s[i] == t[i - k];
    }
  }

  /** Trimming a string that is already trimmed changes nothing. */
  lemma TrimOfTrimmed(s: string)
    requires IsTrimmed(s)
    ensures Trim(s) == s
  {
  }

  /** `trim()` is idempotent. */
  lemma TrimIdempotent(s: string)
    ensures Trim(Trim(s)) == Trim(s)
  {
    TrimOfTrimmed(Trim(s));
  }

  /** `trim()` only removes characters: whatever is in the result was in the input. */
  lemma TrimKeeps(s: string, c: char)
    requires c in Trim(s)
    ensures c in s
  {
    var t := TrimStart(s);
    var r := TrimEnd(t);
    var k := |s| - |t|;
    PrefixOfSuffix(s, t, r, k);
    var i :| 0 <= i < |r| && r[i] == c;
    assert s[k + i] == c;
  }

  /** A string without whitespace is left alone by `trim()`. */
  lemma TrimOfNoWhitespace(s: string)
    requires NoWhitespace(s)
    ensures Trim(s) == s
  {
    TrimOfTrimmed(s);
  }

  /** The UTF-16 code units of one character: two for a character outside the Basic Multilingual Plane. */
  function CodeUnits(c: char): nat
  {
    if c as int >= 0x1_0000 then 2 else 1
  }

  /** `s.length`: JavaScript strings count UTF-16 code units, not characters. */
  function Utf16Length(s: string): (n: nat)
    ensures |s| <= n <= 2 * |s|
    ensures (forall i :: 0 <= i < |s| ==> s[i] as int < 0x1_0000) ==> n == |s|
  {
    if s == [] then 0 else CodeUnits(s[0]) + Utf16Length(s[1..])
  }

  /** A one-character string is one or two code units long. */
  lemma SingleUtf16Length(c: char)
    ensures Utf16Length([c]) == CodeUnits(c)
  {
    assert [c][1..] == [];
  }

  /** The code-unit length of a concatenation is the sum of the parts' lengths. */
  lemma {:induction false} Utf16LengthAppend(a: string, b: string)
    ensures Utf16Length(a + b) == Utf16Length(a) + Utf16Length(b)
  {
    if a == [] {
      assert a + b == b;
    } else {
      assert (a + b)[1..] == a[1..] + b;
      Utf16LengthAppend(a[1..], b);
    }
  }

  /** `toLowerCase()` on one character; only ASCII letters are mapped. */
  function LowerChar(c: char): char
  {
    if 'A' <= c <= 'Z' then (c as int + 32) as char else c
  }

  predicate IsLower(s: string)
  {
    forall i :: 0 <= i < |s| ==> !('A' <= s[i] <= 'Z')
  }

  /** `s.toLowerCase()` (ASCII case mapping). */
  function ToLower(s: string): (r: string)
    ensures |r| == |s| && IsLower(r)
    ensures forall i :: 0 <= i < |s| ==> r[i] == LowerChar(s[i])
  {
    if s == [] then [] else [LowerChar(s[0])] + ToLower(s[1..])
  }

  /** `s.includes(sub)`: `sub` occurs somewhere in `s`. */
  predicate Contains(s: string, sub: string)
    decreases |s|
  {
    sub <= s || (s != [] && Contains(s[1..], sub))
  }

  /** `sub` occurs in `s` starting at position `i`. */
  predicate OccursAt(s: string, sub: string, i: int)
  {
    0 <= i <= |s| - |sub| && s[i..i + |sub|] == sub
  }

  /** `Contains` holds exactly when `sub` occurs at some position of `s`. */
  lemma {:induction false} ContainsAt(s: string, sub: string)
    ensures Contains(s, sub) <==> exists i :: OccursAt(s, sub, i)
    decreases |s|
  {
    if sub <= s {
      assert OccursAt(s, sub, 0);
    } else if s == [] {
    } else {
      ContainsAt(s[1..], sub);
      OccursLater(s, sub);
      OccursEarlier(s, sub);
    }
  }

  /** An occurrence past the first position is an occurrence in the tail. */
  lemma OccursLater(s: string, sub: string)
    requires s != [] && !(sub <= s)
    ensures (exists i :: OccursAt(s, sub, i)) ==> exists i :: OccursAt(s[1..], sub, i)
  {
    if exists i :: OccursAt(s, sub, i) {
      var i :| OccursAt(s, sub, i);
      assert i != 0;
      assert OccursAt(s[1..], sub, i - 1);
    }
  }

  /** An occurrence in the tail is an occurrence one position further on. */
  lemma OccursEarlier(s: string, sub: string)
    requires s != []
    ensures (exists i :: OccursAt(s[1..], sub, i)) ==> exists i :: OccursAt(s, sub, i)
  {
    if exists i :: OccursAt(s[1..], sub, i) {
      var i :| OccursAt(s[1..], sub, i);
      assert OccursAt(s, sub, i + 1);
    }
  }

  /** `s.startsWith(prefix)`. */
  predicate StartsWith(s: string, prefix: string)
  {
    prefix <= s
  }

  /** The inverse of `split`: the parts with `sep` between consecutive ones. */
  function Join(parts: seq<string>, sep: char): string
  {
    if parts == [] then []
    else if |parts| == 1 then parts[0]
    else parts[0] + [sep] + Join(parts[1..], sep)
  }

  /**
   * `s.split(sep)` for a one-character separator: there is always at least
   * one part, no part contains the separator, and joining the parts gives
   * `s` back.
   */
  function Split(s: string, sep: char): (parts: seq<string>)
    ensures |parts| >= 1
    ensures forall i :: 0 <= i < |parts| ==> sep !in parts[i]
    ensures Join(parts, sep) == s
  {
    if s == [] then [[]]
    else
      var rest := Split(s[1..], sep);
      if s[0] == sep then [[]] + rest
      else [[s[0]] + rest[0]] + rest[1..]
  }

  /** The other direction of the round trip: splitting joined parts gives the parts back. */
  lemma {:induction false} SplitJoin(parts: seq<string>, sep: char)
    requires |parts| >= 1
    requires forall i :: 0 <= i < |parts| ==> sep !in parts[i]
    ensures Split(Join(parts, sep), sep) == parts
    decreases |parts|, |parts[0]|
  {
    var p := parts[0];
    if |parts| == 1 {
      if p != [] {
        SplitJoin([p[1..]], sep);
        assert p == [p[0]] + p[1..];
      }
    } else if p == [] {
      SplitJoin(parts[1..], sep);
      assert Join(parts, sep) == [sep] + Join(parts[1..], sep);
    } else {
      var parts' := [p[1..]] + parts[1..];
      assert parts'[1..] == parts[1..];
      SplitJoin(parts', sep);
      assert Join(parts, sep) == [p[0]] + Join(parts', sep);
      SplitCons(p[0], Join(parts', sep), sep);
      assert [p[0]] + p[1..] == p;
    }
  }

  /** Splitting a string that starts with a non-separator: that character begins the first part. */
  lemma SplitCons(c: char, rest: string, sep: char)
    requires c != sep
    ensures Split([c] + rest, sep) == [[c] + Split(rest, sep)[0]] + Split(rest, sep)[1..]
  {
    assert ([c] + rest)[1..] == rest;
  }
}
