/** Values shared by every component: Go strings as byte sequences, byte-wise string
    order, and the "last n" operator that the context buffers are specified with.
    Times are integers (nanoseconds) and 0 is Go's zero time. */
module Common {

  newtype byte = x: int | 0 <= x < 256

  /** A Go string: an immutable sequence of bytes. */
  type Str = seq<byte>

  datatype Option<+T> = None | Some(value: T)

  const ZERO_TIME := 0

  /** The bytes of an ASCII literal. */
  function Ascii(s: string): (r: Str) {
    seq(|s|, i requires 0 <= i < |s| => (s[i] as int % 256) as byte)
  }

  // ---------------------------------------------------------------- suffixes

  /** The last n elements of s, or all of s when it has fewer; none when n <= 0. */
  function Suffix<T>(s: seq<T>, n: int): (r: seq<T>)
    ensures |r| == if n <= 0 then 0 else if |s| <= n then |s| else n
  {
    if n <= 0 then [] else if |s| <= n then s else s[|s| - n..]
  }

  lemma SuffixOfSuffix<T>(s: seq<T>, n: int, m: int)
    ensures Suffix(Suffix(s, n), m) == Suffix(s, if n <= m then n else m)
  {
    if 0 < n < |s| && 0 < m < n {
      SliceOfTail(s, |s| - n, n - m, n);
      assert s[|s| - n..][n - m..n] == s[|s| - n..][n - m..];
      assert s[|s| - m..|s|] == s[|s| - m..];
    }
  }

  lemma SuffixOfAppend<T>(s: seq<T>, x: T, n: int)
    requires 0 < n
    ensures Suffix(Suffix(s, n) + [x], n) == Suffix(s + [x], n)
  {
    var t := Suffix(s, n);
    assert t == s[|s| - |t|..];
    assert t + [x] == (s + [x])[|s| - |t|..];
  }

  // ------------------------------------------------------------- string order

  /** Go's `<` on strings: byte-wise lexicographic order. */
  predicate Less(a: Str, b: Str) {
    b != [] && (a == [] || a[0] < b[0] || (a[0] == b[0] && Less(a[1..], b[1..])))
  }

  lemma {:induction false} LessTrichotomy(a: Str, b: Str)
    ensures !(Less(a, b) && Less(b, a))
    ensures a == b ==> !Less(a, b)
    ensures a != b ==> Less(a, b) || Less(b, a)
  {
    if a != [] && b != [] && a[0] == b[0] {
      LessTrichotomy(a[1..], b[1..]);
      assert a == [a[0]] + a[1..] && b == [b[0]] + b[1..];
    }
  }

  lemma {:induction false} LessTransitive(a: Str, b: Str, c: Str)
    requires Less(a, b) && Less(b, c)
    ensures Less(a, c)
  {
    if a != [] && a[0] == b[0] == c[0] {
      LessTransitive(a[1..], b[1..], c[1..]);
    }
  }

  /** At the first difference b goes on, and a has ended or has the smaller byte. */
  ghost predicate DiffersAt(a: Str, b: Str, i: nat) {
    i < |b| && i <= |a| && a[..i] == b[..i] && (i == |a| || a[i] < b[i])
  }

  lemma {:induction false} LessIff(a: Str, b: Str)
    ensures Less(a, b) <==> exists i: nat :: DiffersAt(a, b, i)
  {
    if b != [] && (a == [] || a[0] != b[0]) {
      assert DiffersAt(a, b, 0) <==> Less(a, b);
      assert forall i: nat :: DiffersAt(a, b, i) && i > 0 ==> a[..i][0] == b[..i][0];
    } else if b != [] {
      LessIff(a[1..], b[1..]);
      if Less(a, b) {
        var i: nat :| DiffersAt(a[1..], b[1..], i);
        assert a[..i + 1] == [a[0]] + a[1..][..i] && b[..i + 1] == [b[0]] + b[1..][..i];
        assert DiffersAt(a, b, i + 1);
      }
      if i: nat :| DiffersAt(a, b, i) {
        assert i > 0;
        assert a[1..][..i - 1] == a[..i][1..] && b[1..][..i - 1] == b[..i][1..];
        assert DiffersAt(a[1..], b[1..], i - 1);
      }
    }
  }

  // ------------------------------------------------------- filtering by time

  /** The elements that are at least bound, in order. */
  function AtLeast(s: seq<int>, bound: int): (r: seq<int>)
    ensures |r| <= |s|
  {
    if s == [] then [] else (if s[0] >= bound then [s[0]] else []) + AtLeast(s[1..], bound)
  }

  lemma {:induction false} AtLeastConcat(a: seq<int>, b: seq<int>, bound: int)
    ensures AtLeast(a + b, bound) == AtLeast(a, bound) + AtLeast(b, bound)
  {
    if a == [] {
      assert a + b == b;
    } else {
      assert (a + b)[1..] == a[1..] + b;
      AtLeastConcat(a[1..], b, bound);
      Reassociate(if a[0] >= bound then [a[0]] else [], AtLeast(a[1..], bound), AtLeast(b, bound));
    }
  }

  lemma {:induction false} AtLeastTwice(s: seq<int>, low: int, high: int)
    requires low <= high
    ensures AtLeast(AtLeast(s, low), high) == AtLeast(s, high)
  {
    if s != [] {
      AtLeastTwice(s[1..], low, high);
      AtLeastConcat(if s[0] >= low then [s[0]] else [], AtLeast(s[1..], low), high);
    }
  }

  // ------------------------------------------------------- searching in text

  const LF: byte := 10

  /** The number that bytes denote, most significant first. */
  function ValueOf(bytes: Str): (n: nat) {
    if bytes == [] then 0 else 256 * ValueOf(bytes[..|bytes| - 1]) + bytes[|bytes| - 1] as nat
  }

  function IndexOf(s: Str, b: byte): (i: int)
    ensures -1 <= i < |s|
    ensures i >= 0 ==> s[i] == b && b !in s[..i]
    ensures i < 0 ==> b !in s
  {
    if s == [] then -1
    else if s[0] == b then 0
    else
      var i := IndexOf(s[1..], b);
      assert s == [s[0]] + s[1..];
      assert i >= 0 ==> s[..i + 1] == [s[0]] + s[1..][..i];
      if i < 0 then -1 else i + 1
  }

  lemma {:induction false} IndexOfFirst(head: Str, b: byte, tail: Str)
    requires b !in head
    ensures IndexOf(head + [b] + tail, b) == |head|
  {
    var s := head + [b] + tail;
    if head != [] {
      assert s[0] == head[0] && s[1..] == head[1..] + [b] + tail;
      IndexOfFirst(head[1..], b, tail);
    }
  }

  lemma PartOfSlice<T>(s: seq<T>, lo: nat, hi: nat, x: nat, y: nat)
    requires lo <= hi <= |s| && x <= y <= hi - lo
    ensures s[lo..hi][x..y] == s[lo + x..lo + y]
  {
    forall i | 0 <= i < y - x ensures s[lo..hi][x..y][i] == s[lo + x..lo + y][i] {
      assert s[lo..hi][x + i] == s[lo + x + i];
    }
  }

  lemma SliceOfTail<T>(s: seq<T>, p: nat, a: nat, b: nat)
    requires a <= b && p + b <= |s|
    ensures s[p..][a..b] == s[p + a..p + b] && s[p..][b..] == s[p + b..]
  {
  }

  lemma Reassociate<T>(x: seq<T>, y: seq<T>, z: seq<T>)
    ensures x + (y + z) == (x + y) + z
  {
  }
}
