/**
 * The few JavaScript string built-ins the chat and profile code relies on.
 * JavaScript strings are sequences of UTF-16 code units, while a Dafny
 * `string` is a sequence of Unicode scalar values, so `.length` and the
 * default comparison of `Array.prototype.sort` are stated on the UTF-16
 * encoding of a string.
 */
module JsStrings {

  /** The UTF-16 code units that encode one character. */
  function CodeUnits(c: char): (r: seq<int>)
    ensures 1 <= |r| <= 2
    ensures |r| == 2 <==> c as int >= 0x1_0000
    ensures |r| == 1 ==> r[0] == c as int
    ensures |r| == 2 ==> 0xD800 <= r[0] < 0xDC00 && 0xDC00 <= r[1] < 0xE000
    ensures |r| == 2 ==> 0x1_0000 + (r[0] - 0xD800) * 0x400 + (r[1] - 0xDC00) == c as int
  {
    var n := c as int;
    if n < 0x1_0000 then [n]
    else [0xD800 + (n - 0x1_0000) / 0x400, 0xDC00 + (n - 0x1_0000) % 0x400]
  }

  /** The UTF-16 encoding of a string: what JavaScript sees. */
  function Utf16(s: string): (r: seq<int>)
    ensures |s| <= |r| <= 2 * |s|
  {
    if s == [] then [] else CodeUnits(s[0]) + Utf16(s[1..])
  }

  /** `s.length`: the number of UTF-16 code units. */
  function Length(s: string): (n: nat)
    ensures |s| <= n <= 2 * |s|
  {
    |Utf16(s)|
  }

  lemma CodeUnitsInjective(c: char, d: char)
    requires CodeUnits(c) == CodeUnits(d)
    ensures c == d
  {
  }

  /** Different strings have different encodings. */
  lemma {:induction false} Utf16Injective(a: string, b: string)
    requires Utf16(a) == Utf16(b)
    ensures a == b
  {
    if a != [] && b != [] {
      var ca, cb := CodeUnits(a[0]), CodeUnits(b[0]);
      assert Utf16(a) == ca + Utf16(a[1..]);
      assert Utf16(b) == cb + Utf16(b[1..]);
      assert ca[0] == Utf16(a)[0] == cb[0];
      assert |ca| == |cb|;
      assert ca == Utf16(a)[..|ca|] == cb;
      CodeUnitsInjective(a[0], b[0]);
      assert Utf16(a[1..]) == Utf16(a)[|ca|..] == Utf16(b[1..]);
      Utf16Injective(a[1..], b[1..]);
      assert a == [a[0]] + a[1..];
      assert b == [b[0]] + b[1..];
    }
  }

  /** Lexicographic order on code-unit sequences, a proper prefix first. */
  predicate UnitsLess(a: seq<int>, b: seq<int>)
  {
    if a == [] then b != []
    else if b == [] then false
    else if a[0] != b[0] then a[0] < b[0]
    else UnitsLess(a[1..], b[1..])
  }

  /**
   * Lexicographic order stated directly: up to some position `k` the two
   * sequences agree, and there `a` ends while `b` goes on, or `a` has the
   * smaller unit.
   */
  ghost predicate LexBefore(a: seq<int>, b: seq<int>)
  {
    exists k :: 0 <= k <= |a| && k <= |b| && a[..k] == b[..k]
                && ((k == |a| && k < |b|) || (k < |a| && k < |b| && a[k] < b[k]))
  }

  /** The recursive comparison is the lexicographic order. */
  lemma {:induction false} UnitsLessLexicographic(a: seq<int>, b: seq<int>)
    ensures UnitsLess(a, b) <==> LexBefore(a, b)
    decreases |a|
  {
    if a == [] {
      if b != [] {
        assert a[..0] == b[..0];
      }
    } else if b == [] {
    } else if a[0] != b[0] {
      if a[0] < b[0] {
        assert a[..0] == b[..0];
      }
    } else {
      var a', b' := a[1..], b[1..];
      UnitsLessLexicographic(a', b');
      if LexBefore(a', b') {
        var k :| 0 <= k <= |a'| && k <= |b'| && a'[..k] == b'[..k]
                 && ((k == |a'| && k < |b'|) || (k < |a'| && k < |b'| && a'[k] < b'[k]));
        assert a[..k + 1] == [a[0]] + a'[..k];
        assert b[..k + 1] == [b[0]] + b'[..k];
      }
      if LexBefore(a, b) {
        var k :| 0 <= k <= |a| && k <= |b| && a[..k] == b[..k]
                 && ((k == |a| && k < |b|) || (k < |a| && k < |b| && a[k] < b[k]));
        assert k > 0;
        assert a'[..k - 1] == a[..k][1..];
        assert b'[..k - 1] == b[..k][1..];
      }
    }
  }

  /**
   * The comparison `Array.prototype.sort` uses without a comparator:
   * `a` sorts before `b` when its code units are lexicographically smaller.
   */
  predicate StringLess(a: string, b: string)
    ensures StringLess(a, b) <==> LexBefore(Utf16(a), Utf16(b))
    ensures StringLess(a, b) ==> a != b
  {
    UnitsLessLexicographic(Utf16(a), Utf16(b));
    UnitsLessAsymmetric(Utf16(a), Utf16(b));
    UnitsLess(Utf16(a), Utf16(b))
  }

  lemma {:induction false} UnitsLessAsymmetric(a: seq<int>, b: seq<int>)
    ensures !(UnitsLess(a, b) && UnitsLess(b, a))
  {
    if a != [] && b != [] && a[0] == b[0] {
      UnitsLessAsymmetric(a[1..], b[1..]);
    }
  }

  lemma {:induction false} UnitsLessTotal(a: seq<int>, b: seq<int>)
    requires a != b
    ensures UnitsLess(a, b) || UnitsLess(b, a)
  {
    if a != [] && b != [] && a[0] == b[0] {
      assert a == [a[0]] + a[1..];
      assert b == [b[0]] + b[1..];
      UnitsLessTotal(a[1..], b[1..]);
    }
  }

  /** The default sort order is a strict total order on strings. */
  lemma StringLessStrictTotal(a: string, b: string)
    ensures !(StringLess(a, b) && StringLess(b, a))
    ensures a != b ==> StringLess(a, b) || StringLess(b, a)
  {
    UnitsLessAsymmetric(Utf16(a), Utf16(b));
    if a != b {
      if Utf16(a) == Utf16(b) {
        Utf16Injective(a, b);
      }
      UnitsLessTotal(Utf16(a), Utf16(b));
    }
  }

  /** WhiteSpace and LineTerminator code points of ECMAScript, which `trim` removes. */
  predicate IsWhiteSpace(c: char)
  {
    var n := c as int;
    (0x09 <= n <= 0x0D) || n == 0x20 || n == 0xA0 || n == 0x1680
    || (0x2000 <= n <= 0x200A) || n == 0x2028 || n == 0x2029 || n == 0x202F
    || n == 0x205F || n == 0x3000 || n == 0xFEFF
  }

  /** Number of leading white-space characters. */
  function LeadingSpace(s: string): (n: nat)
    ensures n <= |s|
    ensures forall k :: 0 <= k < n ==> IsWhiteSpace(s[k])
    ensures n < |s| ==> !IsWhiteSpace(s[n])
  {
    if s == [] || !IsWhiteSpace(s[0]) then 0 else 1 + LeadingSpace(s[1..])
  }

  /** End of the content once trailing white space is dropped. */
  function ContentEnd(s: string): (n: nat)
    ensures n <= |s|
    ensures forall k :: n <= k < |s| ==> IsWhiteSpace(s[k])
    ensures 0 < n ==> !IsWhiteSpace(s[n - 1])
  {
    if s == [] || !IsWhiteSpace(s[|s| - 1]) then |s| else ContentEnd(s[..|s| - 1])
  }

  /**
   * `String.prototype.trim`: the longest infix of `s` that neither starts nor
   * ends with white space, all that surrounds it being white space.
   */
  function Trim(s: string): (r: string)
    ensures exists i, j ::
              && 0 <= i <= j <= |s| && r == s[i..j]
              && (forall k :: 0 <= k < i ==> IsWhiteSpace(s[k]))
              && (forall k :: j <= k < |s| ==> IsWhiteSpace(s[k]))
    ensures r != [] ==> !IsWhiteSpace(r[0]) && !IsWhiteSpace(r[|r| - 1])
  {
    var e := ContentEnd(s);
    var b := LeadingSpace(s[..e]);
    s[b..e]
  }

  /** `!s.trim()`: a string is blank exactly when every character is white space. */
  lemma TrimBlank(s: string)
    ensures Trim(s) == [] <==> forall k :: 0 <= k < |s| ==> IsWhiteSpace(s[k])
  {
  }

  /** Trimming twice is trimming once. */
  lemma TrimIdempotent(s: string)
    ensures Trim(Trim(s)) == Trim(s)
  {
    var t := Trim(s);
    if t != [] {
      assert ContentEnd(t) == |t|;
      assert t[..|t|] == t;
      assert LeadingSpace(t) == 0;
    }
  }
}
