/** The two C library string routines that `join` relies on, over a `char` buffer
    that holds a NUL-terminated string. */
module CStrings {

  /** The terminator that ends every C string. */
  const NUL: char := 0 as char

  /** Buffer contents `a` hold the C string `s`: the characters of `s`, none of
      them a terminator, followed by a terminator. */
  ghost predicate Holds(a: seq<char>, s: seq<char>)
  {
    |s| < |a| && a[..|s|] == s && a[|s|] == NUL && NUL !in s
  }

  /** `strlen`: scan for the first terminator; its index is the length of the
      string the buffer holds. */
  method StrLen(a: array<char>) returns (n: nat)
    requires NUL in a[..]
    ensures n < a.Length && a[n] == NUL
    ensures forall k :: 0 <= k < n ==> a[k] != NUL
  {
    n := 0;
    while a[n] != NUL
      invariant n < a.Length && NUL in a[n..]
      invariant forall k :: 0 <= k < n ==> a[k] != NUL
      decreases a.Length - n
    {
      assert a[n..] == [a[n]] + a[n + 1..];
      n := n + 1;
    }
  }

  /** `strcat`: find the end of the string `dest` holds, copy `s` there and
      terminate it. The caller must have room for `s` and the terminator: that
      is the precondition every `strcat` in `join` has to meet. */
  method StrCat(dest: array<char>, s: seq<char>, ghost cur: seq<char>)
    requires Holds(dest[..], cur)
    requires NUL !in s
    requires |cur| + |s| < dest.Length
    modifies dest
    ensures Holds(dest[..], cur + s)
    ensures dest[|cur| + |s| + 1..] == old(dest[|cur| + |s| + 1..])
  {
    assert dest[..][|cur|] == NUL;
    var n := StrLen(dest);
    var k := 0;
    while k < |s|
      invariant 0 <= k <= |s| && n == |cur|
      invariant dest[..n + k] == cur + s[..k]
      invariant dest[n + k..] == old(dest[n + k..])
    {
      dest[n + k] := s[k];
      k := k + 1;
    }
    dest[n + |s|] := NUL;
    assert s[..|s|] == s;
  }
}
