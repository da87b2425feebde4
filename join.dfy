/** `join` from src/main.c: glue `strings[start..count]` together with a
    separator between neighbours, in two passes over the arguments. The first
    pass sizes a zeroed buffer, the second fills it with `strcat`. */
module Join {
  import opened CStrings

  /** The arguments `join` reads: `strings[start..count]`, none when `start >= count`. */
  function Segment(strings: seq<string>, count: int, start: int): (xs: seq<string>)
    requires 0 <= start && count <= |strings|
    ensures |xs| == if start < count then count - start else 0
    ensures forall k :: 0 <= k < |xs| ==> xs[k] == strings[start + k]
  {
    if start < count then strings[start..count] else []
  }

  /** The joined text: the elements in order, `sep` between neighbours, none after the last. */
  function Joined(xs: seq<string>, sep: string): (joined: string)
    decreases |xs|
  {
    if |xs| == 0 then []
    else if |xs| == 1 then xs[0]
    else Joined(xs[..|xs| - 1], sep) + sep + xs[|xs| - 1]
  }

  /** Total number of characters in the elements. */
  function SumLengths(xs: seq<string>): (total: nat)
  {
    if xs == [] then 0 else |xs[0]| + SumLengths(xs[1..])
  }

  lemma {:induction false} SumLengthsAppend(xs: seq<string>, x: string)
    ensures SumLengths(xs + [x]) == SumLengths(xs) + |x|
  {
    if xs != [] {
      assert (xs + [x])[1..] == xs[1..] + [x];
      SumLengthsAppend(xs[1..], x);
    }
  }

  /** Dropping elements from the front never adds characters. */
  lemma {:induction false} SumLengthsSuffix(xs: seq<string>, j: nat)
    requires j <= |xs|
    ensures SumLengths(xs[j..]) <= SumLengths(xs)
  {
    if j > 0 {
      assert xs[1..][j - 1..] == xs[j..];
      SumLengthsSuffix(xs[1..], j - 1);
    }
  }

  /** n >= 1 elements join to their characters plus n - 1 separators. */
  lemma {:induction false} JoinedLength(xs: seq<string>, sep: string)
    requires |xs| >= 1
    ensures |Joined(xs, sep)| == SumLengths(xs) + (|xs| - 1) * |sep|
  {
    if |xs| == 1 {
      assert xs[1..] == [];
    } else {
      var init := xs[..|xs| - 1];
      JoinedLength(init, sep);
      SumLengthsAppend(init, xs[|xs| - 1]);
      assert init + [xs[|xs| - 1]] == xs;
    }
  }

  /** Cutting the elements anywhere cuts the joined text at one separator. */
  lemma {:induction false} JoinedSplit(xs: seq<string>, k: nat, sep: string)
    requires 0 < k < |xs|
    ensures Joined(xs, sep) == Joined(xs[..k], sep) + sep + Joined(xs[k..], sep)
    decreases |xs|
  {
    var last := xs[|xs| - 1];
    var init := xs[..|xs| - 1];
    if k == |xs| - 1 {
      assert xs[k..] == [last];
      assert init == xs[..k];
    } else {
      JoinedSplit(init, k, sep);
      assert init[..k] == xs[..k];
      assert xs[k..][..|xs[k..]| - 1] == init[k..];
      assert xs[k..][|xs[k..]| - 1] == last;
    }
  }

  /** The first element, then a separator before each further one. */
  lemma JoinedCons(xs: seq<string>, sep: string)
    requires |xs| >= 2
    ensures Joined(xs, sep) == xs[0] + sep + Joined(xs[1..], sep)
  {
    JoinedSplit(xs, 1, sep);
    assert xs[..1] == [xs[0]];
  }

  /** One more element extends the joined text by a separator and that element. */
  lemma ExtendSegment(strings: seq<string>, start: int, i: int, sep: string)
    requires 0 <= start <= i < |strings|
    ensures Joined(strings[start..i + 1], sep)
         == (if i == start then [] else Joined(strings[start..i], sep) + sep) + strings[i]
  {
    if i > start {
      assert strings[start..i + 1][..i - start] == strings[start..i];
    }
  }

  /** The first pass as the comment at src/main.c:108 intends it: every
      argument's length, a separator after each one but the last, and one for
      the terminator. */
  method JoinedSize(strings: seq<string>, count: int, start: int, sep: string) returns (length: int)
    requires 0 <= start && count <= |strings|
    ensures length == |Joined(Segment(strings, count, start), sep)| + 1
    ensures start < count ==>
      length == SumLengths(strings[start..count]) + (count - start - 1) * |sep| + 1
  {
    var sepLen := |sep|;
    length := 0;
    var i := start;
    while i < count
      invariant i == start || start < i <= count
      invariant length == (if i == start then 0 else |Joined(strings[start..i], sep)|)
                          + (if start < i < count then sepLen else 0)
    {
      ExtendSegment(strings, start, i, sep);
      length := length + |strings[i]|;
      if i != count - 1 {
        length := length + sepLen;
      }
      i := i + 1;
    }
    length := length + 1;
    if start < count {
      JoinedLength(strings[start..count], sep);
    }
  }

  /** What the first pass of src/main.c:100-107 adds up: it visits `i`, then
      jumps to `i + 1 + sepLen`, so it reads every (1 + sepLen)-th argument and
      never counts a separator. It counts at most the total length of
      `strings[i..count]`, and exactly that when the separator is empty. */
  function AsWrittenLength(strings: seq<string>, i: int, count: int, sepLen: nat): (n: nat)
    requires 0 <= i && count <= |strings|
    ensures i <= count ==> n <= SumLengths(strings[i..count])
    ensures i <= count && sepLen == 0 ==> n == SumLengths(strings[i..count])
    decreases count - i
  {
    if i >= count then 0
    else
      var next := i + 1 + sepLen;
      var rest := AsWrittenLength(strings, next, count, sepLen);
      assert strings[i..count][1..] == strings[i + 1..count];
      if next <= count then
        assert strings[i + 1..count][sepLen..] == strings[next..count];
        SumLengthsSuffix(strings[i + 1..count], sepLen);
        |strings[i]| + rest
      else
        |strings[i]| + rest
  }

  /** The as-written size never exceeds what `strcat` needs, and equals it
      exactly when at most one argument is joined or the separator is empty. */
  lemma AsWrittenSizeIff(strings: seq<string>, count: int, start: int, sep: string)
    requires 0 <= start && count <= |strings|
    ensures AsWrittenLength(strings, start, count, |sep|) <= |Joined(Segment(strings, count, start), sep)|
    ensures AsWrittenLength(strings, start, count, |sep|) == |Joined(Segment(strings, count, start), sep)|
        <==> count - start <= 1 || sep == []
  {
    if start < count {
      var xs := strings[start..count];
      assert Segment(strings, count, start) == xs;
      JoinedLength(xs, sep);
      if count - start >= 2 && sep != [] {
        SeparatorsPositive(|xs| - 1, |sep|);
      }
    }
  }

  lemma SeparatorsPositive(separators: int, sepLen: int)
    requires separators >= 1 && sepLen >= 1
    ensures separators * sepLen >= 1
  {
  }

  /** The first pass as src/main.c:98-108 writes it. */
  method SizeAsWritten(strings: seq<string>, count: int, start: int, sep: string) returns (length: int)
    requires 0 <= start && count <= |strings|
    ensures length == AsWrittenLength(strings, start, count, |sep|) + 1
    ensures length <= |Joined(Segment(strings, count, start), sep)| + 1
    ensures length == |Joined(Segment(strings, count, start), sep)| + 1 <==> count - start <= 1 || sep == []
  {
    var sepLen := |sep|;
    length := 0;
    var i := start;
    while i < count
      invariant start <= i
      invariant length + AsWrittenLength(strings, i, count, sepLen) == AsWrittenLength(strings, start, count, sepLen)
      decreases count - i
    {
      length := length + |strings[i]|;
      if i != count - 1 {
        i := i + sepLen;
      }
      i := i + 1;
    }
    length := length + 1;
    AsWrittenSizeIff(strings, count, start, sep);
  }

  /** `main` joins `argv = ["diane", "hello", "world"]` from index 1 with " ":
      the as-written pass allocates 6 characters, `strcat` writes 12. */
  lemma AsWrittenOverflowExample()
    ensures AsWrittenLength(["diane", "hello", "world"], 1, 3, 1) + 1 == 6
    ensures |Joined(Segment(["diane", "hello", "world"], 3, 1), " ")| + 1 == 12
  {
  }

  /** What the buffer holds once the second pass has handled `strings[start..i]`. */
  ghost function Filled(strings: seq<string>, count: int, start: int, i: int, sep: string): (text: string)
    requires 0 <= start <= i && (i == start || i <= |strings|)
  {
    (if i == start then [] else Joined(strings[start..i], sep)) + (if start < i < count then sep else [])
  }

  /** One turn of the second pass appends the argument and, unless it is the
      last, the separator; what it has written so far begins the joined text. */
  lemma FillStep(strings: seq<string>, count: int, start: int, i: int, sep: string)
    requires 0 <= start <= i < count <= |strings|
    ensures Filled(strings, count, start, i + 1, sep)
         == Filled(strings, count, start, i, sep) + strings[i] + (if i != count - 1 then sep else [])
    ensures |Filled(strings, count, start, i + 1, sep)| <= |Joined(Segment(strings, count, start), sep)|
  {
    ExtendSegment(strings, start, i, sep);
    if i + 1 < count {
      JoinedSplit(strings[start..count], i + 1 - start, sep);
      assert strings[start..count][..i + 1 - start] == strings[start..i + 1];
    } else {
      assert strings[start..i + 1] == strings[start..count];
    }
  }

  /** The second pass (src/main.c:111-118): `strcat` each argument, and the
      separator after every one but the last, onto the zeroed buffer. Every
      `strcat` needs room, so the buffer must exceed the joined length. */
  method Fill(dest: array<char>, strings: seq<string>, count: int, start: int, sep: string)
    requires 0 <= start && count <= |strings|
    requires forall k :: 0 <= k < |strings| ==> NUL !in strings[k]
    requires NUL !in sep
    requires Holds(dest[..], [])
    requires |Joined(Segment(strings, count, start), sep)| < dest.Length
    modifies dest
    ensures Holds(dest[..], Joined(Segment(strings, count, start), sep))
  {
    var i := start;
    while i < count
      invariant i == start || start < i <= count
      invariant Holds(dest[..], Filled(strings, count, start, i, sep))
    {
      FillTurn(dest, strings, count, start, i, sep);
      i := i + 1;
    }
    if start < count {
      assert strings[start..i] == Segment(strings, count, start);
    }
  }

  /** One turn of the second pass (src/main.c:113-117): `strcat` the argument,
      then the separator unless it is the last argument. */
  method FillTurn(dest: array<char>, strings: seq<string>, count: int, start: int, i: int, sep: string)
    requires 0 <= start <= i < count <= |strings|
    requires NUL !in strings[i] && NUL !in sep
    requires Holds(dest[..], Filled(strings, count, start, i, sep))
    requires |Joined(Segment(strings, count, start), sep)| < dest.Length
    modifies dest
    ensures Holds(dest[..], Filled(strings, count, start, i + 1, sep))
  {
    ghost var cur := Filled(strings, count, start, i, sep);
    ghost var next := Filled(strings, count, start, i + 1, sep);
    FillStep(strings, count, start, i, sep);
    StrCat(dest, strings[i], cur);
    if i != count - 1 {
      StrCat(dest, sep, cur + strings[i]);
      assert next == cur + strings[i] + sep;
    } else {
      assert next == cur + strings[i];
    }
  }

  /** `join` with the first pass corrected: the buffer is exactly the joined
      text plus its terminator, and afterwards holds the joined text. */
  method Join(strings: seq<string>, count: int, start: int, sep: string) returns (dest: array<char>)
    requires 0 <= start && count <= |strings|
    requires forall k :: 0 <= k < |strings| ==> NUL !in strings[k]
    requires NUL !in sep
    ensures dest.Length == |Joined(Segment(strings, count, start), sep)| + 1
    ensures Holds(dest[..], Joined(Segment(strings, count, start), sep))
  {
    var length := JoinedSize(strings, count, start, sep);
    dest := new char[length](_ => NUL);
    Fill(dest, strings, count, start, sep);
  }

  /** `join` as src/main.c:95-119 writes it. Its `strcat` writes stay inside the
      `calloc`'d buffer only when at most one argument is joined or the
      separator is empty; that is what this requires. */
  method JoinAsWritten(strings: seq<string>, count: int, start: int, sep: string) returns (dest: array<char>)
    requires 0 <= start && count <= |strings|
    requires forall k :: 0 <= k < |strings| ==> NUL !in strings[k]
    requires NUL !in sep
    requires count - start <= 1 || sep == []
    ensures dest.Length == |Joined(Segment(strings, count, start), sep)| + 1
    ensures Holds(dest[..], Joined(Segment(strings, count, start), sep))
  {
    var length := SizeAsWritten(strings, count, start, sep);
    dest := new char[length](_ => NUL);
    Fill(dest, strings, count, start, sep);
  }
}
