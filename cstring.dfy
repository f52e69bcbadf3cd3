/** Bytes and NUL-terminated C strings, shared by the two byte-level scanners. */
module CString {

  /** An `unsigned char`. */
  type byte = bv8

  const NUL: byte := 0

  /** A buffer holds a C string when a NUL terminator occurs somewhere in it. */
  predicate IsCString(a: seq<byte>) {
    NUL in a
  }

  /** Number of bytes before the first NUL (what `strlen` returns). */
  function Length(a: seq<byte>): (n: nat)
    requires IsCString(a)
    ensures n < |a| && a[n] == NUL
    ensures forall k :: 0 <= k < n ==> a[k] != NUL
  {
    if a[0] == NUL then 0 else 1 + Length(a[1..])
  }

  /** The bytes of the string, without its terminator. */
  function Contents(a: seq<byte>): (s: seq<byte>)
    requires IsCString(a)
    ensures NUL !in s && s + [NUL] <= a
  {
    a[..Length(a)]
  }

  /** A buffer whose first NUL is at `n` holds a string of length `n`. */
  lemma TerminatedAt(a: seq<byte>, n: nat)
    requires n < |a| && a[n] == NUL && NUL !in a[..n]
    ensures IsCString(a) && Length(a) == n && Contents(a) == a[..n]
  {
  }

  /** Taking and dropping the first `n` bytes splits a sequence. */
  lemma SplitAt(s: seq<byte>, n: nat)
    requires n <= |s|
    ensures s[..n] + s[n..] == s
  {
  }

  /** Dropping `i` bytes and then `k` more drops `i + k`. */
  lemma DropDrop(s: seq<byte>, i: nat, k: nat)
    requires i + k <= |s|
    ensures s[i..][k..] == s[i + k..]
  {
  }

  /** `strlen`: walks the buffer up to its first NUL. */
  method Strlen(a: array<byte>) returns (n: nat)
    requires IsCString(a[..])
    ensures n < a.Length && a[n] == NUL
    ensures forall k :: 0 <= k < n ==> a[k] != NUL
  {
    n := 0;
    while a[n] != NUL
      invariant n < a.Length
      invariant forall k :: 0 <= k < n ==> a[k] != NUL
      invariant NUL in a[n..]
      decreases a.Length - n
    {
      assert a[n..] == [a[n]] + a[n + 1..];
      n := n + 1;
    }
  }
}
