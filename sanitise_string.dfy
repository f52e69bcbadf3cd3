/**
 * The in-place byte sanitiser of Vienna/sanitise_string.c: every byte of a C
 * string, up to its terminator, is replaced by its entry in a 256-entry table
 * (removing characters Windows-1252 does not define). The table itself
 * (sanitise_string_private.h) is not part of this model: it is a parameter.
 */
module SanitiseString {
  import opened CString

  /** Each byte of `s` mapped through `table`. */
  function MapBytes(s: seq<byte>, table: seq<byte>): (r: seq<byte>)
    requires |table| == 256
    ensures |r| == |s|
    ensures forall k :: 0 <= k < |s| ==> r[k] == table[s[k] as int]
  {
    if s == [] then [] else [table[s[0] as int]] + MapBytes(s[1..], table)
  }

  /**
   * The buffer `sanitise_string` leaves behind: the bytes before the first
   * NUL mapped through `table`, the terminator and everything after it as
   * they were.
   */
  function Sanitised(buf: seq<byte>, table: seq<byte>): seq<byte>
    requires IsCString(buf) && |table| == 256
  {
    MapBytes(buf[..Length(buf)], table) + buf[Length(buf)..]
  }

  /**
   * `sanitise_string(p)`. A NULL pointer is returned as it is. Otherwise the
   * bytes are rewritten in place and the same pointer is returned. The loop
   * reads each byte before writing it and advances past it whatever the
   * table wrote, so it visits exactly the original string.
   */
  method Sanitise(p: array?<byte>, table: seq<byte>) returns (r: array?<byte>)
    requires p != null ==> IsCString(p[..])
    requires |table| == 256
    modifies p
    ensures r == p
    ensures p != null ==> p[..] == Sanitised(old(p[..]), table)
  {
    if p == null {
      return p;
    }
    ghost var s := p[..];
    ghost var n := Length(s);
    var cp := 0;
    var c := p[cp];
    while c != NUL
      invariant cp <= n
      invariant c == s[cp]
      invariant p[..] == MapBytes(s[..cp], table) + s[cp..]
      decreases n - cp
    {
      ghost var before := p[..];
      p[cp] := table[c as int];
      assert p[..] == before[cp := table[c as int]];
      MapOneMore(s, cp, table);
      cp := cp + 1;
      c := p[cp];
    }
    assert cp == n;
    return p;
  }

  /**
   * Writing the mapped byte at `cp` into a buffer whose first `cp` bytes are
   * mapped gives a buffer whose first `cp + 1` bytes are mapped.
   */
  lemma MapOneMore(s: seq<byte>, cp: nat, table: seq<byte>)
    requires cp < |s| && |table| == 256
    ensures (MapBytes(s[..cp], table) + s[cp..])[cp := table[s[cp] as int]]
            == MapBytes(s[..cp + 1], table) + s[cp + 1..]
  {
    assert s[..cp + 1] == s[..cp] + [s[cp]];
    MapBytesAppend(s[..cp], s[cp], table);
  }

  /** Mapping distributes over appending one byte. */
  lemma MapBytesAppend(s: seq<byte>, b: byte, table: seq<byte>)
    requires |table| == 256
    ensures MapBytes(s + [b], table) == MapBytes(s, table) + [table[b as int]]
  {
  }

  // ---------------------------------------------------------------------------
  // Properties of the sanitised buffer
  // ---------------------------------------------------------------------------

  /**
   * Position k of the sanitised buffer holds table[old byte k] before the
   * original terminator and the old byte from the terminator on; the buffer
   * keeps its size.
   */
  lemma SanitisedAt(buf: seq<byte>, table: seq<byte>, k: nat)
    requires IsCString(buf) && |table| == 256 && k < |buf|
    ensures |Sanitised(buf, table)| == |buf|
    ensures k < Length(buf) ==> Sanitised(buf, table)[k] == table[buf[k] as int]
    ensures k >= Length(buf) ==> Sanitised(buf, table)[k] == buf[k]
  {
  }

  /**
   * When the table sends no non-NUL byte to NUL, the string keeps its
   * length; its bytes are then exactly the mapped bytes.
   */
  lemma SanitisedLength(buf: seq<byte>, table: seq<byte>)
    requires IsCString(buf) && |table| == 256
    requires forall b :: 1 <= b < 256 ==> table[b] != NUL
    ensures IsCString(Sanitised(buf, table))
    ensures Length(Sanitised(buf, table)) == Length(buf)
    ensures Contents(Sanitised(buf, table)) == MapBytes(Contents(buf), table)
  {
    var n := Length(buf);
    var r := Sanitised(buf, table);
    forall k | 0 <= k < n
      ensures r[k] != NUL
    {
      assert buf[k] != NUL;
    }
    assert r[..n] == MapBytes(buf[..n], table);
    TerminatedAt(r, n);
  }

  /**
   * A table sending some non-NUL byte to NUL cuts the string short at the
   * first such byte: the resulting string is shorter.
   */
  lemma SanitisedTruncates(buf: seq<byte>, table: seq<byte>, k: nat)
    requires IsCString(buf) && |table| == 256
    requires k < Length(buf) && table[buf[k] as int] == NUL
    ensures IsCString(Sanitised(buf, table))
    ensures Length(Sanitised(buf, table)) <= k
  {
    var r := Sanitised(buf, table);
    assert r[k] == NUL;
    assert NUL in r;
  }

  /**
   * Sanitising twice is sanitising once with the composed table, when the
   * table sends no non-NUL byte to NUL.
   */
  lemma SanitiseTwice(buf: seq<byte>, table: seq<byte>)
    requires IsCString(buf) && |table| == 256
    requires forall b :: 1 <= b < 256 ==> table[b] != NUL
    ensures IsCString(Sanitised(buf, table))
    ensures Sanitised(Sanitised(buf, table), table)
            == Sanitised(buf, seq(256, b requires 0 <= b < 256 => table[table[b] as int]))
  {
    SanitisedLength(buf, table);
  }
}
