/**
 * The syntax of UTF-8 byte sequences, as the ABNF of section 4 of RFC 3629
 * gives it. This is the reference the normaliser's acceptance test is
 * measured against; it mentions no masks and no decoded values, only the
 * byte ranges the standard lists.
 */
module Rfc3629 {
  import opened CString

  /** UTF8-tail = %x80-BF */
  predicate IsTail(b: byte) {
    0x80 <= b <= 0xBF
  }

  /** UTF8-1 = %x00-7F */
  predicate IsUtf8One(c: seq<byte>) {
    |c| == 1 && c[0] <= 0x7F
  }

  /** UTF8-2 = %xC2-DF UTF8-tail */
  predicate IsUtf8Two(c: seq<byte>) {
    |c| == 2 && 0xC2 <= c[0] <= 0xDF && IsTail(c[1])
  }

  /**
   * UTF8-3 = %xE0 %xA0-BF UTF8-tail / %xE1-EC 2( UTF8-tail ) /
   *          %xED %x80-9F UTF8-tail / %xEE-EF 2( UTF8-tail )
   */
  predicate IsUtf8Three(c: seq<byte>) {
    && |c| == 3
    && (|| (c[0] == 0xE0 && 0xA0 <= c[1] <= 0xBF)
        || (0xE1 <= c[0] <= 0xEC && IsTail(c[1]))
        || (c[0] == 0xED && 0x80 <= c[1] <= 0x9F)
        || (0xEE <= c[0] <= 0xEF && IsTail(c[1])))
    && IsTail(c[2])
  }

  /**
   * UTF8-4 = %xF0 %x90-BF 2( UTF8-tail ) / %xF1-F3 3( UTF8-tail ) /
   *          %xF4 %x80-8F 2( UTF8-tail )
   */
  predicate IsUtf8Four(c: seq<byte>) {
    && |c| == 4
    && (|| (c[0] == 0xF0 && 0x90 <= c[1] <= 0xBF)
        || (0xF1 <= c[0] <= 0xF3 && IsTail(c[1]))
        || (c[0] == 0xF4 && 0x80 <= c[1] <= 0x8F))
    && IsTail(c[2]) && IsTail(c[3])
  }

  /** UTF8-char = UTF8-1 / UTF8-2 / UTF8-3 / UTF8-4 */
  predicate IsUtf8Char(c: seq<byte>) {
    IsUtf8One(c) || IsUtf8Two(c) || IsUtf8Three(c) || IsUtf8Four(c)
  }

  /**
   * The length of the UTF8-char a lead byte can start, 0 for a byte that
   * starts none (a tail byte, C0, C1, F5-FF). The four alternatives of
   * UTF8-char have disjoint first bytes, so this is unambiguous.
   */
  function CharLength(b: byte): (n: nat)
    ensures n <= 4
    ensures n == 0 <==> (0x80 <= b <= 0xC1 || b >= 0xF5)
  {
    if b <= 0x7F then 1
    else if 0xC2 <= b <= 0xDF then 2
    else if 0xE0 <= b <= 0xEF then 3
    else if 0xF0 <= b <= 0xF4 then 4
    else 0
  }

  /** UTF8-octets = *( UTF8-char ) */
  predicate IsUtf8(s: seq<byte>)
    decreases |s|
  {
    s == [] ||
    (var n := CharLength(s[0]);
     0 < n <= |s| && IsUtf8Char(s[..n]) && IsUtf8(s[n..]))
  }

  /** A UTF8-char can only be split off at the length its first byte announces. */
  lemma CharLengthOfChar(c: seq<byte>)
    requires IsUtf8Char(c)
    ensures CharLength(c[0]) == |c|
  {
  }

  /** A single UTF8-char is a UTF-8 string. */
  lemma CharIsUtf8(c: seq<byte>)
    requires IsUtf8Char(c)
    ensures IsUtf8(c)
  {
    CharLengthOfChar(c);
    assert c[..|c|] == c;
    assert IsUtf8(c[|c|..]) by { assert c[|c|..] == []; }
  }

  /** A UTF8-char followed by UTF8-octets is UTF8-octets. */
  lemma PrependChar(c: seq<byte>, t: seq<byte>)
    requires IsUtf8Char(c) && IsUtf8(t)
    ensures IsUtf8(c + t)
  {
    CharLengthOfChar(c);
    var ct := c + t;
    assert ct[0] == c[0];
    assert ct[..|c|] == c;
    assert ct[|c|..] == t;
  }

  /** Splitting `a` at `n` and appending `b` to the second part keeps `a + b`. */
  lemma SplitAppend(a: seq<byte>, b: seq<byte>, n: nat)
    requires n <= |a|
    ensures a[..n] + (a[n..] + b) == a + b
  {
  }

  /** UTF8-octets is closed under concatenation. */
  lemma {:induction false} ConcatIsUtf8(a: seq<byte>, b: seq<byte>)
    requires IsUtf8(a) && IsUtf8(b)
    ensures IsUtf8(a + b)
    decreases |a|
  {
    if a == [] {
      assert a + b == b;
    } else {
      var n := CharLength(a[0]);
      ConcatIsUtf8(a[n..], b);
      PrependChar(a[..n], a[n..] + b);
      SplitAppend(a, b, n);
    }
  }
}
