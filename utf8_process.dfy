/**
 * The mixed CP1252 / UTF-8 normaliser of Vienna/utf8-process.c.
 *
 * `utf8process` walks a NUL-terminated byte string. ASCII bytes and every
 * multi-byte sequence that `check_utf8` accepts are copied verbatim; any other
 * byte is taken to be a Windows-1252 character and replaced by its UTF-8
 * encoding from a 256-entry code table. The table itself (cp1252utf8.h) is not
 * part of this model: it is a parameter.
 *
 * `Verdict` and `Process` are the specification; `CheckUtf8` and `Utf8Process`
 * are the C functions, proved against them. The lemmas relate the
 * specification to the UTF-8 syntax of RFC 3629 (module Rfc3629).
 */
module Utf8Process {
  import opened CString
  import opened Rfc3629

  const UNICODE_MAX: int := 0x10FFFF
  const MIN_SURROGATE: int := 0xD800
  const MAX_SURROGATE: int := 0xDFFF

  /** Smallest code point each sequence length may encode (`unicode_min`). */
  const UnicodeMin: seq<int> := [0, 0, 0x80, 0x800, 0x10000]

  /** Payload bits of the lead byte for each sequence length (`initial_mask`). */
  const InitialMask: seq<byte> := [0, 0x7f, 0x1f, 0x0f, 0x7]

  /** Results of `check_utf8`. */
  const CHECK_OK: int := 0
  const CHECK_ABOVE_MAX: int := 1
  const CHECK_OVERLONG: int := 2
  const CHECK_SURROGATE: int := 3

  /** The `valid_tail` macro: the byte has the form 10xxxxxx, a UTF8-tail of RFC 3629. */
  predicate ValidTail(b: byte)
    ensures ValidTail(b) <==> IsTail(b)
  {
    b & 0xC0 == 0x80
  }

  /** The lead-byte tests of `utf8process`: 110xxxxx, 1110xxxx, 11110xxx. */
  predicate IsLead(length: nat, b: byte) {
    || (length == 2 && b & 0xE0 == 0xC0)
    || (length == 3 && b & 0xF0 == 0xE0)
    || (length == 4 && b & 0xF8 == 0xF0)
  }

  // ---------------------------------------------------------------------------
  // check_utf8
  // ---------------------------------------------------------------------------

  /**
   * Appends six payload bits per continuation byte, most significant first
   * (`codepoint = (codepoint << 6) | (b & 0x3f)`; the low six bits of the
   * shifted value are zero, so OR and addition agree).
   */
  function Accumulate(acc: int, tail: seq<byte>): int
    decreases |tail|
  {
    if tail == [] then acc
    else Accumulate(acc * 64 + (tail[0] & 0x3F) as int, tail[1..])
  }

  /** The code point `check_utf8` decodes from the sequence `c`. */
  function CodePoint(c: seq<byte>): int
    requires 1 <= |c| <= 4
  {
    Accumulate((c[0] & InitialMask[|c|]) as int, c[1..])
  }

  /**
   * The classification of `check_utf8`: tests applied in order, first match
   * wins. The contract states each outcome in closed form.
   */
  function Classify(length: nat, cp: int): (rc: int)
    requires 1 <= length <= 4
    ensures rc == CHECK_ABOVE_MAX <==> cp > UNICODE_MAX || cp < 0
    ensures rc == CHECK_OVERLONG <==> 0 <= cp <= UNICODE_MAX && cp < UnicodeMin[length]
    ensures rc == CHECK_SURROGATE <==>
              UnicodeMin[length] <= cp <= UNICODE_MAX && MIN_SURROGATE <= cp <= MAX_SURROGATE
    ensures rc == CHECK_OK <==>
              UnicodeMin[length] <= cp <= UNICODE_MAX && !(MIN_SURROGATE <= cp <= MAX_SURROGATE)
  {
    if cp > UNICODE_MAX || cp < 0 then CHECK_ABOVE_MAX
    else if cp < UnicodeMin[length] then CHECK_OVERLONG
    else if MIN_SURROGATE <= cp && cp <= MAX_SURROGATE then CHECK_SURROGATE
    else CHECK_OK
  }

  /** What `check_utf8(|c|, c)` returns. */
  function Verdict(c: seq<byte>): int
    requires 1 <= |c| <= 4
  {
    Classify(|c|, CodePoint(c))
  }

  /**
   * `check_utf8(length, buff + off)`: decodes `length` bytes with a counting
   * loop and classifies the code point.
   */
  method CheckUtf8(length: nat, buff: array<byte>, off: nat) returns (rc: int)
    requires 1 <= length <= 4
    requires off + length <= buff.Length
    ensures rc == Verdict(buff[off..off + length])
    ensures 0 <= rc <= 3
  {
    ghost var c := buff[off..off + length];
    var p := off;
    var codepoint := (buff[p] & InitialMask[length]) as int;
    p := p + 1;
    var i := length;
    while i > 1
      invariant 1 <= i <= length
      invariant p == off + length - i + 1
      invariant Accumulate(codepoint, buff[p..off + length]) == CodePoint(c)
    {
      assert buff[p..off + length][1..] == buff[p + 1..off + length];
      codepoint := codepoint * 64 + (buff[p] & 0x3F) as int;
      p := p + 1;
      i := i - 1;
    }
    assert buff[p..off + length] == [];
    if codepoint > UNICODE_MAX || codepoint < 0 {
      rc := CHECK_ABOVE_MAX;
    } else if codepoint < UnicodeMin[length] {
      rc := CHECK_OVERLONG;
    } else if codepoint >= MIN_SURROGATE && codepoint <= MAX_SURROGATE {
      rc := CHECK_SURROGATE;
    } else {
      rc := CHECK_OK;
    }
  }

  // ---------------------------------------------------------------------------
  // The scan of utf8process, as a specification
  // ---------------------------------------------------------------------------

  /** One entry of `codetable`: the UTF-8 bytes of a CP1252 character. */
  datatype CodeEntry = CodeEntry(utf8bytes: seq<byte>, nbytes: nat)

  /**
   * An entry `strcpy` copies exactly `nbytes` bytes of, and that fits the
   * four bytes per input byte the output buffer is sized for.
   */
  predicate ValidEntry(e: CodeEntry) {
    |e.utf8bytes| == e.nbytes <= 4 && NUL !in e.utf8bytes
  }

  /**
   * A 256-entry table whose entries for the bytes 0x80-0xFF are valid. The
   * scan copies every byte below 0x80 itself, so it never reads the others.
   */
  predicate ValidTable(table: seq<CodeEntry>) {
    |table| == 256 && forall b :: 0x80 <= b < 256 ==> ValidEntry(table[b])
  }

  /**
   * The byte at offset `k` of the rest `s` of the string; offset |s| is the
   * terminating NUL. The precondition is the claim that the scanner never
   * reads beyond the terminator.
   */
  function ByteAt(s: seq<byte>, k: nat): byte
    requires k <= |s|
  {
    if k < |s| then s[k] else NUL
  }

  /**
   * How many bytes at the front of `s` the scanner copies verbatim: 1 for
   * ASCII, 2, 3 or 4 for an accepted multi-byte sequence, 0 when the lead
   * byte goes to the code table (the `cp1252` label). The continuation tests
   * short-circuit, so a NUL stops them before the next byte is read.
   */
  function Step(s: seq<byte>): (n: nat)
    requires s != [] && NUL !in s
    ensures n <= 4 && n <= |s|
  {
    if s[0] & 0x80 == 0 then 1
    else if s[0] & 0xE0 == 0xC0 && ValidTail(ByteAt(s, 1)) then
      (if Verdict(s[..2]) != CHECK_OK then 0 else 2)
    else if s[0] & 0xF0 == 0xE0 && ValidTail(ByteAt(s, 1)) && ValidTail(ByteAt(s, 2)) then
      (if Verdict(s[..3]) != CHECK_OK then 0 else 3)
    else if s[0] & 0xF8 == 0xF0 && ValidTail(ByteAt(s, 1)) && ValidTail(ByteAt(s, 2))
         && ValidTail(ByteAt(s, 3)) then
      (if Verdict(s[..4]) != CHECK_OK then 0 else 4)
    else 0
  }

  /** How many input bytes one pass of the scanning loop consumes. */
  function Advance(s: seq<byte>): (n: nat)
    requires s != [] && NUL !in s
    ensures 1 <= n <= |s|
  {
    if Step(s) == 0 then 1 else Step(s)
  }

  /** What one pass of the scanning loop writes: the copied bytes, or the code-table entry. */
  function Chunk(s: seq<byte>, table: seq<CodeEntry>): seq<byte>
    requires s != [] && NUL !in s && |table| == 256
  {
    if Step(s) == 0 then table[s[0] as int].utf8bytes else s[..Step(s)]
  }

  /** The bytes `utf8process` writes for the string `s` (terminator excluded). */
  function Process(s: seq<byte>, table: seq<CodeEntry>): seq<byte>
    requires NUL !in s && |table| == 256
    decreases |s|
  {
    if s == [] then [] else Chunk(s, table) + Process(s[Advance(s)..], table)
  }

  // ---------------------------------------------------------------------------
  // check_utf8 against RFC 3629
  // ---------------------------------------------------------------------------

  /** The payload bits of a lead or continuation byte, as a number. */
  lemma PayloadValue(length: nat, b: byte)
    requires 2 <= length <= 4
    ensures IsLead(length, b) ==> (b & InitialMask[length]) as int == b as int - LeadBase(length)
    ensures ValidTail(b) ==> (b & 0x3F) as int == b as int - 0x80
  {
  }

  /** The smallest lead byte of each sequence length: 0xC0, 0xE0, 0xF0. */
  function LeadBase(length: nat): int
    requires 2 <= length <= 4
  {
    if length == 2 then 0xC0 else if length == 3 then 0xE0 else 0xF0
  }

  /** Decoded value of a well-shaped sequence, byte by byte. */
  lemma CodePointValue(c: seq<byte>)
    requires 2 <= |c| <= 4 && IsLead(|c|, c[0])
    requires forall k :: 1 <= k < |c| ==> ValidTail(c[k])
    ensures |c| == 2 ==>
              CodePoint(c) == (c[0] as int - 0xC0) * 64 + (c[1] as int - 0x80)
    ensures |c| == 3 ==>
              CodePoint(c) == (c[0] as int - 0xE0) * 4096 + (c[1] as int - 0x80) * 64
                              + (c[2] as int - 0x80)
    ensures |c| == 4 ==>
              CodePoint(c) == (c[0] as int - 0xF0) * 262144 + (c[1] as int - 0x80) * 4096
                              + (c[2] as int - 0x80) * 64 + (c[3] as int - 0x80)
  {
    var n := |c|;
    var a0 := c[0] as int - LeadBase(n);
    assert CodePoint(c) == Accumulate(a0, c[1..]) by {
      PayloadValue(n, c[0]);
    }
    AccumulateTail(a0, c[1..]);
    var a1 := a0 * 64 + (c[1] as int - 0x80);
    assert c[1..][1..] == c[2..];
    if n == 2 {
      assert c[2..] == [];
    } else {
      AccumulateTail(a1, c[2..]);
      var a2 := a1 * 64 + (c[2] as int - 0x80);
      assert c[2..][1..] == c[3..];
      if n == 3 {
        assert c[3..] == [];
      } else {
        AccumulateTail(a2, c[3..]);
        assert c[3..][1..] == [];
      }
    }
  }

  /** One continuation byte appends its six payload bits. */
  lemma AccumulateTail(acc: int, tail: seq<byte>)
    requires tail != [] && ValidTail(tail[0])
    ensures Accumulate(acc, tail) == Accumulate(acc * 64 + (tail[0] as int - 0x80), tail[1..])
  {
    PayloadValue(2, tail[0]);
  }

  /**
   * For a lead byte with the right number of continuation bytes,
   * `check_utf8` accepts exactly the sequences RFC 3629 calls UTF8-char:
   * its three rejections (above U+10FFFF, overlong, surrogate) remove
   * precisely the byte ranges the ABNF excludes.
   */
  lemma VerdictIsRfc3629(c: seq<byte>)
    requires 2 <= |c| <= 4 && IsLead(|c|, c[0])
    requires forall k :: 1 <= k < |c| ==> ValidTail(c[k])
    ensures Verdict(c) == CHECK_OK <==> IsUtf8Char(c)
  {
    CodePointValue(c);
  }

  // ---------------------------------------------------------------------------
  // Properties of the scan
  // ---------------------------------------------------------------------------

  /** One byte below 0x80 is consumed and copied, and only such a byte. */
  lemma StepAscii(s: seq<byte>)
    requires s != [] && NUL !in s
    ensures Step(s) == 1 <==> s[0] < 0x80
  {
    if Step(s) == 1 {
      assert s[0] & 0x80 == 0;
    }
  }

  /**
   * The bytes copied verbatim at the front of `s` form a UTF-8 character,
   * and every UTF-8 character at the front of `s` is copied verbatim.
   */
  lemma StepIsUtf8Char(s: seq<byte>)
    requires s != [] && NUL !in s
    ensures Step(s) > 0 ==> IsUtf8Char(s[..Step(s)])
    ensures forall n :: 1 <= n <= |s| && n <= 4 && IsUtf8Char(s[..n]) ==> Step(s) == n
  {
    var n := Step(s);
    if 2 <= n {
      VerdictIsRfc3629(s[..n]);
    }
    forall m | 1 <= m <= |s| && m <= 4 && IsUtf8Char(s[..m])
      ensures Step(s) == m
    {
      if m == 1 {
      } else {
        assert s[..m][0] == s[0];
        assert forall k :: 1 <= k < m ==> s[..m][k] == s[k] == ByteAt(s, k);
        VerdictIsRfc3629(s[..m]);
        if m >= 3 {
          assert !(s[0] & 0xE0 == 0xC0);
        }
        if m == 4 {
          assert !(s[0] & 0xF0 == 0xE0);
        }
      }
    }
  }

  /**
   * Stray continuation bytes, C0, C1 and F5-FF, which never occur in UTF-8,
   * always go to the code table.
   */
  lemma NonUtf8LeadFallsBack(s: seq<byte>)
    requires s != [] && NUL !in s
    requires 0x80 <= s[0] <= 0xC1 || s[0] >= 0xF5
    ensures Step(s) == 0
  {
    StepIsUtf8Char(s);
    if Step(s) > 0 {
      CharLengthOfChar(s[..Step(s)]);
    }
  }

  /** A well-formed UTF-8 string passes through unchanged. */
  lemma {:induction false} WellFormedPassesThrough(s: seq<byte>, table: seq<CodeEntry>)
    requires NUL !in s && |table| == 256
    requires IsUtf8(s)
    ensures Process(s, table) == s
    decreases |s|
  {
    if s != [] {
      var n := CharLength(s[0]);
      StepIsUtf8Char(s);
      assert Step(s) == n;
      WellFormedPassesThrough(s[n..], table);
      SplitAt(s, n);
    }
  }

  /** Each input byte yields at most four output bytes. */
  lemma {:induction false} ProcessBound(s: seq<byte>, table: seq<CodeEntry>)
    requires NUL !in s && ValidTable(table)
    ensures |Process(s, table)| <= 4 * |s|
    decreases |s|
  {
    if s != [] {
      var n := Step(s);
      if n == 0 {
        StepAscii(s);
        assert ValidEntry(table[s[0] as int]);
        ProcessBound(s[1..], table);
      } else {
        ProcessBound(s[n..], table);
      }
    }
  }

  /** The output holds no NUL, so the terminator written after it ends it. */
  lemma {:induction false} ProcessHasNoNul(s: seq<byte>, table: seq<CodeEntry>)
    requires NUL !in s && ValidTable(table)
    ensures NUL !in Process(s, table)
    decreases |s|
  {
    if s != [] {
      var n := Step(s);
      if n == 0 {
        StepAscii(s);
        assert ValidEntry(table[s[0] as int]);
        ProcessHasNoNul(s[1..], table);
      } else {
        assert forall k :: 0 <= k < n ==> s[..n][k] == s[k];
        ProcessHasNoNul(s[n..], table);
      }
    }
  }

  /**
   * When the code table maps every byte from 0x80 up to well-formed UTF-8,
   * the output is well-formed UTF-8, whatever the input.
   */
  lemma {:induction false} ProcessIsUtf8(s: seq<byte>, table: seq<CodeEntry>)
    requires NUL !in s && |table| == 256
    requires forall b :: 0x80 <= b < 256 ==> IsUtf8(table[b].utf8bytes)
    ensures IsUtf8(Process(s, table))
    decreases |s|
  {
    if s != [] {
      var n := Step(s);
      if n == 0 {
        StepAscii(s);
        ProcessIsUtf8(s[1..], table);
        ConcatIsUtf8(table[s[0] as int].utf8bytes, Process(s[1..], table));
      } else {
        StepIsUtf8Char(s);
        CharIsUtf8(s[..n]);
        ProcessIsUtf8(s[n..], table);
        ConcatIsUtf8(s[..n], Process(s[n..], table));
      }
    }
  }

  /** Normalising an already normalised string changes nothing. */
  lemma ProcessIdempotent(s: seq<byte>, table: seq<CodeEntry>)
    requires NUL !in s && ValidTable(table)
    requires forall b :: 0x80 <= b < 256 ==> IsUtf8(table[b].utf8bytes)
    ensures NUL !in Process(s, table)
    ensures Process(Process(s, table), table) == Process(s, table)
  {
    ProcessHasNoNul(s, table);
    ProcessIsUtf8(s, table);
    WellFormedPassesThrough(Process(s, table), table);
  }

  // ---------------------------------------------------------------------------
  // utf8process
  // ---------------------------------------------------------------------------

  /**
   * `strcpy(dst + at, src)`: copies the string and its terminator. The byte
   * after `src` becomes NUL; everything else in `dst` is left alone.
   */
  method Strcpy(dst: array<byte>, at: nat, src: seq<byte>)
    requires NUL !in src && at + |src| < dst.Length
    modifies dst
    ensures dst[..at + |src|] == old(dst[..at]) + src && dst[at + |src|] == NUL
    ensures dst[at + |src| + 1..] == old(dst[at + |src| + 1..])
  {
    var k := 0;
    while k < |src|
      invariant k <= |src|
      invariant dst[..at + k] == old(dst[..at]) + src[..k]
      invariant dst[at + k..] == old(dst[at + k..])
    {
      dst[at + k] := src[k];
      k := k + 1;
    }
    dst[at + k] := NUL;
  }

  /**
   * `n` successive uses of the `copy()` macro, `*output++ = input[i++]`:
   * the `n` bytes at `i` are appended at offset `o`.
   */
  method CopyBytes(input: array<byte>, base: array<byte>, i: nat, o: nat, n: nat)
    returns (i': nat, o': nat)
    requires i + n <= input.Length && o + n <= base.Length && base != input
    modifies base
    ensures i' == i + n && o' == o + n
    ensures base[..o'] == old(base[..o]) + input[i..i']
  {
    i', o' := i, o;
    while i' < i + n
      invariant i <= i' <= i + n && o' == o + (i' - i)
      invariant base[..o'] == old(base[..o]) + input[i..i']
    {
      base[o'] := input[i'];
      o', i' := o' + 1, i' + 1;
    }
  }

  /** `Step` at index `i` of a buffer whose string ends at `end`: an ASCII byte. */
  lemma StepOfAscii(a: seq<byte>, i: nat, end: nat, table: seq<CodeEntry>)
    requires end < |a| && a[end] == NUL && NUL !in a[..end] && i < end && |table| == 256
    requires a[i] & 0x80 == 0
    ensures Step(a[i..end]) == 1
    ensures Advance(a[i..end]) == 1 && Chunk(a[i..end], table) == a[i..i + 1]
  {
  }

  /**
   * `Step` at index `i` when the lead-byte test and the continuation tests of
   * the `n`-byte branch succeed: the verdict of `check_utf8` decides.
   */
  lemma StepOfSequence(a: seq<byte>, i: nat, end: nat, n: nat, table: seq<CodeEntry>)
    requires end < |a| && a[end] == NUL && NUL !in a[..end] && i < end && |table| == 256
    requires 2 <= n <= 4 && i + n <= |a| && IsLead(n, a[i])
    requires ValidTail(a[i + 1])
    requires n >= 3 ==> ValidTail(a[i + 2])
    requires n >= 4 ==> ValidTail(a[i + 3])
    ensures i + n <= end
    ensures Step(a[i..end]) == if Verdict(a[i..i + n]) == CHECK_OK then n else 0
    ensures Verdict(a[i..i + n]) == CHECK_OK ==>
              Advance(a[i..end]) == n && Chunk(a[i..end], table) == a[i..i + n]
  {
    assert a[i + 1] != NUL && i + 1 != end;
    if n >= 3 {
      assert a[i + 2] != NUL && i + 2 != end;
    }
    if n >= 4 {
      assert a[i + 3] != NUL && i + 3 != end;
    }
    var rest := a[i..end];
    assert forall k :: 1 <= k < n ==> ByteAt(rest, k) == a[i + k];
    assert rest[..n] == a[i..i + n];
  }

  /** `Step` at index `i` when no branch of the scanner matches. */
  lemma StepOfOther(a: seq<byte>, i: nat, end: nat, table: seq<CodeEntry>)
    requires end < |a| && a[end] == NUL && NUL !in a[..end] && i < end && |table| == 256
    requires a[i] & 0x80 != 0
    requires !(a[i] & 0xE0 == 0xC0 && ValidTail(a[i + 1]))
    requires !(a[i] & 0xF0 == 0xE0 && ValidTail(a[i + 1]) && ValidTail(a[i + 2]))
    requires !(a[i] & 0xF8 == 0xF0 && ValidTail(a[i + 1]) && ValidTail(a[i + 2])
               && ValidTail(a[i + 3]))
    ensures Step(a[i..end]) == 0
  {
    var rest := a[i..end];
    assert forall k :: 1 <= k <= 3 && i + k <= end ==> ByteAt(rest, k) == a[i + k];
  }

  /**
   * The block each multi-byte branch of `utf8process` repeats for its length
   * `n`: `check_utf8(n, input + i)`; when the sequence is accepted, `n` uses
   * of `copy()` (and the loop continues), otherwise nothing is written and
   * control goes to the `cp1252` label.
   */
  method CopyIfAccepted(input: array<byte>, end: nat, codetable: seq<CodeEntry>,
                        base: array<byte>, i: nat, o: nat, n: nat, ghost a: seq<byte>)
    returns (copied: bool, i': nat, o': nat)
    requires a == input[..] && end < |a| && a[end] == NUL && NUL !in a[..end] && i < end
    requires |codetable| == 256
    requires base != input && base.Length == end * 4 + 1 && o <= 4 * i
    requires 2 <= n <= 4 && i + n <= |a| && IsLead(n, a[i])
    requires ValidTail(a[i + 1])
    requires n >= 3 ==> ValidTail(a[i + 2])
    requires n >= 4 ==> ValidTail(a[i + 3])
    modifies base
    ensures copied == (Step(a[i..end]) != 0)
    ensures copied ==> i' == i + Advance(a[i..end]) && i' <= end && o' <= 4 * i'
    ensures copied ==> base[..o'] == old(base[..o]) + Chunk(a[i..end], codetable)
    ensures !copied ==> Step(a[i..end]) == 0 && base[..] == old(base[..])
  {
    var rc := CheckUtf8(n, input, i);
    assert input[i..i + n] == a[i..i + n];
    StepOfSequence(a, i, end, n, codetable);
    copied := rc == CHECK_OK;
    if copied {
      i', o' := CopyBytes(input, base, i, o, n);
    } else {
      i', o' := i, o;
    }
  }

  /**
   * The `cp1252` label: the byte at `i` starts nothing that is copied
   * verbatim, so it is taken to be a genuine CP1252 character. Its code-table
   * entry is copied to the output and the scan resumes at the next byte.
   */
  method Cp1252(input: array<byte>, end: nat, codetable: seq<CodeEntry>, base: array<byte>,
                i: nat, o: nat, ghost a: seq<byte>)
    returns (i': nat, o': nat)
    requires a == input[..] && end < |a| && a[end] == NUL && NUL !in a[..end] && i < end
    requires ValidTable(codetable)
    requires base != input && base.Length == end * 4 + 1 && o <= 4 * i
    requires Step(a[i..end]) == 0
    modifies base
    ensures i' == i + Advance(a[i..end]) && i' <= end && o' <= 4 * i'
    ensures base[..o'] == old(base[..o]) + Chunk(a[i..end], codetable)
  {
    StepAscii(a[i..end]);
    var entry := codetable[input[i] as int];
    assert ValidEntry(entry);
    Strcpy(base, o, entry.utf8bytes);
    o', i' := o + entry.nbytes, i + 1;
  }

  /**
   * One pass of the body of the scanning loop of `utf8process`, at input
   * index `i` and output offset `o`: copies one ASCII byte or one accepted
   * multi-byte sequence, or else writes the code-table entry of the byte at
   * `i` (the `cp1252` label). Each `return` is a `continue` of the loop.
   */
  method ScanOne(input: array<byte>, end: nat, codetable: seq<CodeEntry>, base: array<byte>,
                 i: nat, o: nat, ghost a: seq<byte>)
    returns (i': nat, o': nat)
    requires a == input[..] && end < |a| && a[end] == NUL && NUL !in a[..end] && i < end
    requires ValidTable(codetable)
    requires base != input && base.Length == end * 4 + 1 && o <= 4 * i
    modifies base
    ensures i' == i + Advance(a[i..end]) && i' <= end && o' <= 4 * i'
    ensures base[..o'] == old(base[..o]) + Chunk(a[i..end], codetable)
  {
    if input[i] & 0x80 == 0 {
      // ASCII
      StepOfAscii(a, i, end, codetable);
      i', o' := CopyBytes(input, base, i, o, 1);
      return;
    }
    // Look for multibyte sequences
    var copied := false;
    if input[i] & 0xE0 == 0xC0 && ValidTail(input[i + 1]) {
      // 2 byte sequence
      copied, i', o' := CopyIfAccepted(input, end, codetable, base, i, o, 2, a);
    } else if input[i] & 0xF0 == 0xE0 && ValidTail(input[i + 1]) && ValidTail(input[i + 2]) {
      // 3 byte sequence
      copied, i', o' := CopyIfAccepted(input, end, codetable, base, i, o, 3, a);
    } else if input[i] & 0xF8 == 0xF0 && ValidTail(input[i + 1]) && ValidTail(input[i + 2])
              && ValidTail(input[i + 3]) {
      // 4 byte sequence
      copied, i', o' := CopyIfAccepted(input, end, codetable, base, i, o, 4, a);
    } else {
      StepOfOther(a, i, end, codetable);
    }
    if copied {
      return;
    }
    i', o' := Cp1252(input, end, codetable, base, i, o, a);
  }

  /** The loop invariant of `utf8process` survives one pass of its body. */
  lemma ProcessAt(s: seq<byte>, i: nat, i': nat, table: seq<CodeEntry>,
                  before: seq<byte>, after: seq<byte>)
    requires NUL !in s && |table| == 256 && i < |s|
    requires i' == i + Advance(s[i..]) && after == before + Chunk(s[i..], table)
    ensures i' <= |s|
    ensures after + Process(s[i'..], table) == before + Process(s[i..], table)
  {
    var rest := s[i..];
    assert rest != [];
    DropDrop(s, i, Advance(rest));
    var tail := Process(s[i'..], table);
    assert Process(rest, table) == Chunk(rest, table) + tail;
    calc {
      after + tail;
      (before + Chunk(rest, table)) + tail;
      before + (Chunk(rest, table) + tail);
    }
  }

  /**
   * `utf8process(input)`. A NULL input gives NULL and nothing is allocated.
   * Otherwise the result is a fresh buffer of `4 * strlen(input) + 1` bytes
   * holding the NUL-terminated normalised string. The outcome of `malloc` is
   * the parameter `mallocSucceeds`; when it fails the result is NULL.
   */
  method Utf8Process(input: array?<byte>, codetable: seq<CodeEntry>, mallocSucceeds: bool)
    returns (output: array?<byte>)
    requires input != null ==> IsCString(input[..])
    requires ValidTable(codetable)
    ensures input == null ==> output == null
    ensures input != null && !mallocSucceeds ==> output == null
    ensures input != null && mallocSucceeds ==>
              && output != null && fresh(output)
              && output.Length == 4 * Length(input[..]) + 1
              && IsCString(output[..])
              && Contents(output[..]) == Process(Contents(input[..]), codetable)
  {
    if input == null {
      return null;
    }
    var end := Strlen(input);
    if !mallocSucceeds {
      return null;
    }
    var base := new byte[end * 4 + 1];
    ghost var s := input[..end];
    assert s == Contents(input[..]);
    var o: nat := 0;  // offset of the write pointer `output` in `base`
    var i: nat := 0;
    while i < end
      invariant i <= end && o <= 4 * i
      invariant base.Length == end * 4 + 1
      invariant base[..o] + Process(s[i..], codetable) == Process(s, codetable)
    {
      ghost var i0, before := i, base[..o];
      assert s[i..] == input[i..end];
      i, o := ScanOne(input, end, codetable, base, i, o, input[..]);
      ProcessAt(s, i0, i, codetable, before, base[..o]);
    }
    assert s[i..] == [];
    ghost var written := base[..o];
    assert written == Process(s, codetable);
    ProcessHasNoNul(s, codetable);
    base[o] := NUL;
    assert base[..o] == written;
    TerminatedAt(base[..], o);
    output := base;
  }
}
