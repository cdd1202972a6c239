/** Rendering captured context within a byte budget. Model of Capture.Lines and
    truncateUTF8 in internal/context/capture.go. */
module Capture {
  import opened Common
  import opened ContextBuffer

  datatype Capture = Capture(before: seq<LogEntry>, trigger: LogEntry, after: seq<LogEntry>, timedOut: bool)

  function LineFor(e: LogEntry): Str { if e.raw != [] then e.raw else e.message }

  function LinesFor(es: seq<LogEntry>): (r: seq<Str>)
    ensures |r| == |es| && forall i :: 0 <= i < |es| ==> r[i] == LineFor(es[i])
  {
    seq(|es|, i requires 0 <= i < |es| => LineFor(es[i]))
  }

  // ------------------------------------------------------------------- UTF-8

  /** A continuation byte, UTF8-tail in section 4 of RFC 3629. */
  predicate IsTail(b: byte) { 0x80 <= b as int <= 0xBF }

  /** The program tests continuation bytes with a mask. */
  lemma MaskFindsTail(b: bv8)
    ensures b & 0xC0 == 0x80 <==> 0x80 <= b <= 0xBF
    ensures b & 0xC0 == 0x80 <==> IsTail(b as int as byte)
  {
  }

  predicate Between(b: byte, low: int, high: int) { low <= b as int <= high }

  predicate Tails(s: Str, from: nat, to: nat)
    requires to <= |s|
  {
    forall i :: from <= i < to ==> IsTail(s[i])
  }

  /** The length of the well-formed character that s starts with (section 4 of RFC 3629),
      or 0 if s starts with none. */
  function CharLen(s: Str): (n: nat)
    ensures n <= |s|
    ensures n > 0 ==> !IsTail(s[0]) && Tails(s, 1, n)
  {
    if s == [] then 0
    else if s[0] as int <= 0x7F then 1
    else if |s| >= 2 && Between(s[0], 0xC2, 0xDF) && IsTail(s[1]) then 2
    else if |s| >= 3 && Tails(s, 1, 3)
            && ((s[0] as int == 0xE0 && Between(s[1], 0xA0, 0xBF)) || Between(s[0], 0xE1, 0xEC)
                || (s[0] as int == 0xED && Between(s[1], 0x80, 0x9F)) || Between(s[0], 0xEE, 0xEF)) then 3
    else if |s| >= 4 && Tails(s, 1, 4)
            && ((s[0] as int == 0xF0 && Between(s[1], 0x90, 0xBF)) || Between(s[0], 0xF1, 0xF3)
                || (s[0] as int == 0xF4 && Between(s[1], 0x80, 0x8F))) then 4
    else 0
  }

  predicate ValidUtf8(s: Str) {
    s == [] || (CharLen(s) > 0 && ValidUtf8(s[CharLen(s)..]))
  }

  lemma CharLenOfPrefix(s: Str, k: nat)
    requires k <= |s| && 0 < CharLen(s)
    ensures CharLen(s[..k]) == if CharLen(s) <= k then CharLen(s) else 0
  {
    var n := CharLen(s);
    assert forall i :: 0 <= i < k ==> s[..k][i] == s[i];
  }

  // The characters themselves: the encodings of the Unicode scalar values.

  predicate IsScalar(c: nat) { c < 0x110000 && !(0xD800 <= c <= 0xDFFF) }

  function Tail(c: nat): (b: byte)
    ensures IsTail(b)
  {
    (0x80 + c % 64) as byte
  }

  /** The encoding of a scalar value, by the table in section 3 of RFC 3629. */
  function Utf8(c: nat): (r: Str)
    requires IsScalar(c)
    ensures 1 <= |r| <= 4
  {
    if c < 0x80 then [c as byte]
    else if c < 0x800 then [(0xC0 + c / 64) as byte, Tail(c)]
    else if c < 0x10000 then [(0xE0 + c / 4096) as byte, Tail(c / 64), Tail(c)]
    else [(0xF0 + c / 262144) as byte, Tail(c / 4096), Tail(c / 64), Tail(c)]
  }

  lemma ThreeBytes(c: nat, s: Str)
    requires 0x800 <= c < 0x10000 && IsScalar(c) && |s| >= 3
    requires s[0] == (0xE0 + c / 4096) as byte && s[1] == Tail(c / 64) && s[2] == Tail(c)
    ensures CharLen(s) == 3
  {
    assert c / 64 == c / 4096 * 64 + c / 64 % 64;
  }

  lemma FourBytes(c: nat, s: Str)
    requires 0x10000 <= c && IsScalar(c) && |s| >= 4
    requires s[0] == (0xF0 + c / 262144) as byte && s[1] == Tail(c / 4096) && s[2] == Tail(c / 64) && s[3] == Tail(c)
    ensures CharLen(s) == 4
  {
    assert c / 4096 == c / 262144 * 64 + c / 4096 % 64;
  }

  /** An encoded scalar value is read as one character of its length... */
  lemma CharLenOfUtf8(c: nat, s: Str)
    requires IsScalar(c) && Utf8(c) <= s
    ensures CharLen(s) == |Utf8(c)|
  {
    var u := Utf8(c);
    assert forall i :: 0 <= i < |u| ==> s[i] == u[i];
    if 0x800 <= c < 0x10000 {
      ThreeBytes(c, s);
    } else if 0x10000 <= c {
      FourBytes(c, s);
    }
  }

  lemma LowDigit(high: nat, low: nat)
    requires low < 64
    ensures (64 * high + low) / 64 == high && (64 * high + low) % 64 == low
  {
  }

  lemma DropTwo(c: nat)
    ensures c / 4096 == c / 64 / 64 && c / 262144 == c / 64 / 64 / 64
  {
  }

  lemma ReadThree(x: nat, y: nat, z: nat) returns (c: nat)
    requires x < 16 && y < 64 && z < 64
    ensures c == 4096 * x + 64 * y + z && c / 4096 == x && c / 64 % 64 == y && c % 64 == z
  {
    c := 64 * (64 * x + y) + z;
    LowDigit(64 * x + y, z);
    LowDigit(x, y);
    DropTwo(c);
  }

  lemma ReadFour(w: nat, x: nat, y: nat, z: nat) returns (c: nat)
    requires w < 8 && x < 64 && y < 64 && z < 64
    ensures c == 262144 * w + 4096 * x + 64 * y + z && c / 262144 == w && c / 4096 % 64 == x && c / 64 % 64 == y && c % 64 == z
  {
    c := 64 * (64 * (64 * w + x) + y) + z;
    LowDigit(64 * (64 * w + x) + y, z);
    LowDigit(64 * w + x, y);
    LowDigit(w, x);
    DropTwo(c);
  }

  /** ...and whatever is read as a character encodes a scalar value. */
  lemma CharIsUtf8(s: Str) returns (c: nat)
    requires CharLen(s) > 0
    ensures IsScalar(c) && Utf8(c) == s[..CharLen(s)]
  {
    var n := CharLen(s);
    if n == 1 {
      c := s[0] as int;
    } else if n == 2 {
      c := 64 * (s[0] as int - 0xC0) + (s[1] as int - 0x80);
      LowDigit(s[0] as int - 0xC0, s[1] as int - 0x80);
    } else if n == 3 {
      c := ReadThree(s[0] as int - 0xE0, s[1] as int - 0x80, s[2] as int - 0x80);
    } else {
      c := ReadFour(s[0] as int - 0xF0, s[1] as int - 0x80, s[2] as int - 0x80, s[3] as int - 0x80);
    }
    assert s[..n] == Utf8(c);
  }

  ghost predicate AllScalars(cs: seq<nat>) { forall i :: 0 <= i < |cs| ==> IsScalar(cs[i]) }

  ghost function Utf8All(cs: seq<nat>): (text: Str)
    requires AllScalars(cs)
  {
    if cs == [] then [] else Utf8(cs[0]) + Utf8All(cs[1..])
  }

  /** Valid text is any sequence of encoded scalar values... */
  lemma {:induction false} Utf8AllIsValid(cs: seq<nat>)
    requires AllScalars(cs)
    ensures ValidUtf8(Utf8All(cs))
  {
    if cs != [] {
      var text := Utf8All(cs);
      CharLenOfUtf8(cs[0], text);
      assert text[|Utf8(cs[0])|..] == Utf8All(cs[1..]);
      Utf8AllIsValid(cs[1..]);
    }
  }

  /** ...and nothing else. */
  lemma {:induction false} ValidIsUtf8All(s: Str) returns (cs: seq<nat>)
    requires ValidUtf8(s)
    ensures AllScalars(cs) && Utf8All(cs) == s
  {
    if s == [] {
      cs := [];
    } else {
      var c := CharIsUtf8(s);
      var rest := ValidIsUtf8All(s[CharLen(s)..]);
      cs := [c] + rest;
      assert cs[1..] == rest && s == s[..CharLen(s)] + s[CharLen(s)..];
    }
  }

  /** In valid text, the prefixes that are whole characters are those that do not end just
      before a continuation byte. */
  lemma {:induction false} PrefixIsWholeCharacters(s: Str, k: nat)
    requires ValidUtf8(s) && k <= |s|
    ensures ValidUtf8(s[..k]) <==> (k == |s| || !IsTail(s[k]))
  {
    if k == 0 || s == [] {
      assert s != [] ==> CharLen(s) > 0;
      assert s[..k] == [];
    } else {
      var n := CharLen(s);
      CharLenOfPrefix(s, k);
      if n <= k {
        PrefixIsWholeCharacters(s[n..], k - n);
        assert s[..k][n..] == s[n..][..k - n];
        assert k < |s| ==> s[k] == s[n..][k - n];
      } else {
        assert IsTail(s[k]);
      }
    }
  }

  method TruncateUTF8(value: Str, maxBytes: nat) returns (r: Str)
    ensures r <= value && |r| <= maxBytes
    ensures |value| <= maxBytes ==> r == value
    // Valid text is cut to its longest prefix of whole characters within maxBytes.
    ensures ValidUtf8(value) ==> ValidUtf8(r)
    ensures ValidUtf8(value) ==> forall k :: |r| < k <= |value| && k <= maxBytes ==> !ValidUtf8(value[..k])
    ensures r == Cut(value, maxBytes)
  {
    if |value| <= maxBytes {
      CutIsLongest(value, maxBytes);
      return value;
    }
    var n := maxBytes;
    while n > 0 && !(n == |value| || !IsTail(value[n]))
      invariant 0 <= n <= maxBytes
      invariant Cut(value, n) == Cut(value, maxBytes)
    {
      n := n - 1;
    }
    CutIsLongest(value, maxBytes);
    r := value[..n];
  }

  /** The cut as a function: back off from maxBytes while a continuation byte follows. */
  function Cut(value: Str, maxBytes: nat): (r: Str)
    ensures r <= value && |r| <= maxBytes
  {
    if |value| <= maxBytes then value
    else if maxBytes == 0 || !IsTail(value[maxBytes]) then value[..maxBytes]
    else Cut(value, maxBytes - 1)
  }

  lemma {:induction false} CutIsLongest(value: Str, maxBytes: nat)
    ensures ValidUtf8(value) ==> ValidUtf8(Cut(value, maxBytes))
    ensures ValidUtf8(value) ==> forall k :: |Cut(value, maxBytes)| < k <= |value| && k <= maxBytes ==> !ValidUtf8(value[..k])
  {
    if |value| <= maxBytes {
      assert Cut(value, maxBytes) == value;
    } else if ValidUtf8(value) {
      PrefixIsWholeCharacters(value, maxBytes);
      if maxBytes == 0 {
        assert value[..0] == [];
      } else if IsTail(value[maxBytes]) {
        CutIsLongest(value, maxBytes - 1);
      }
    }
  }

  // ------------------------------------------------------------------- Lines

  /** The bytes that es add to a line: each line and one newline. */
  function Cost(es: seq<LogEntry>): (n: nat) {
    if es == [] then 0 else |LineFor(es[0])| + 1 + Cost(es[1..])
  }

  lemma {:induction false} CostConcat(a: seq<LogEntry>, b: seq<LogEntry>)
    ensures Cost(a + b) == Cost(a) + Cost(b)
  {
    if a == [] {
      assert a + b == b;
    } else {
      assert (a + b)[1..] == a[1..] + b;
      CostConcat(a[1..], b);
    }
  }

  /** The size of lines joined by newlines. */
  function JoinedSize(lines: seq<Str>): (n: nat) {
    if lines == [] then 0 else if |lines| == 1 then |lines[0]| else |lines[0]| + 1 + JoinedSize(lines[1..])
  }

  lemma {:induction false} JoinedSizeIsCost(es: seq<LogEntry>)
    requires es != []
    ensures JoinedSize(LinesFor(es)) + 1 == Cost(es)
  {
    if |es| > 1 {
      JoinedSizeIsCost(es[1..]);
      assert LinesFor(es)[1..] == LinesFor(es[1..]);
    }
  }

  /** k is the most entries of es, from the end, whose cost fits the budget. */
  ghost predicate LongestSuffix(es: seq<LogEntry>, budget: int, k: nat) {
    && k <= |es| && Cost(Suffix(es, k)) <= budget
    && forall m :: k < m <= |es| ==> Cost(Suffix(es, m)) > budget
  }

  /** k is the most entries of es, from the front, whose cost fits the budget. */
  ghost predicate LongestPrefix(es: seq<LogEntry>, budget: int, k: nat) {
    && k <= |es| && Cost(es[..k]) <= budget
    && forall m :: k < m <= |es| ==> Cost(es[..m]) > budget
  }

  /** What Lines promises: nothing without a budget; only the trigger, cut, when it fills the
      budget; otherwise the trigger within the longest run of before-context that fits and
      then the longest run of after-context that fits in what remains. */
  ghost predicate BestLines(c: Capture, maxBytes: int, lines: seq<Str>) {
    var trigger := LineFor(c.trigger);
    if maxBytes <= 0 then lines == []
    else if |trigger| >= maxBytes then lines == [Cut(trigger, maxBytes)]
    else exists b: nat, a: nat :: BestRun(c, maxBytes - |trigger|, b, a) && lines == LinesFor(Around(c, b, a))
  }

  /** The trigger with the last b entries before it and the first a after it. */
  function Around(c: Capture, b: nat, a: nat): (es: seq<LogEntry>)
    requires a <= |c.after|
  {
    Suffix(c.before, b) + [c.trigger] + c.after[..a]
  }

  /** b is as long as fits, and then a is. */
  ghost predicate BestRun(c: Capture, budget: int, b: nat, a: nat) {
    LongestSuffix(c.before, budget, b) && LongestPrefix(c.after, budget - Cost(Suffix(c.before, b)), a)
  }

  lemma LongerSuffixCostsMore(es: seq<LogEntry>, k: nat, m: nat)
    requires k <= m <= |es|
    ensures Cost(Suffix(es, k)) <= Cost(Suffix(es, m))
  {
    assert Suffix(es, m) == es[|es| - m..|es| - k] + Suffix(es, k);
    CostConcat(es[|es| - m..|es| - k], Suffix(es, k));
  }

  lemma NextSuffix(es: seq<LogEntry>, k: nat)
    requires k < |es|
    ensures Suffix(es, k + 1) == [es[|es| - 1 - k]] + Suffix(es, k)
    ensures Cost(Suffix(es, k + 1)) == |LineFor(es[|es| - 1 - k])| + 1 + Cost(Suffix(es, k))
  {
    var x := es[|es| - 1 - k];
    assert Suffix(es, k + 1) == [x] + Suffix(es, k);
    assert ([x] + Suffix(es, k))[1..] == Suffix(es, k);
  }

  lemma LongerPrefixCostsMore(es: seq<LogEntry>, k: nat, m: nat)
    requires k <= m <= |es|
    ensures Cost(es[..k]) <= Cost(es[..m])
  {
    assert es[..m] == es[..k] + es[k..m];
    CostConcat(es[..k], es[k..m]);
  }

  lemma SuffixStops(es: seq<LogEntry>, budget: int, k: nat)
    requires k <= |es| && Cost(Suffix(es, k)) <= budget
    requires k == |es| || |LineFor(es[|es| - 1 - k])| + 1 > budget - Cost(Suffix(es, k))
    ensures LongestSuffix(es, budget, k)
  {
    forall m | k < m <= |es| ensures Cost(Suffix(es, m)) > budget {
      NextSuffix(es, k);
      LongerSuffixCostsMore(es, k + 1, m);
    }
  }

  lemma PrefixStops(es: seq<LogEntry>, budget: int, k: nat)
    requires k <= |es| && Cost(es[..k]) <= budget
    requires k == |es| || |LineFor(es[k])| + 1 > budget - Cost(es[..k])
    ensures LongestPrefix(es, budget, k)
  {
    forall m | k < m <= |es| ensures Cost(es[..m]) > budget {
      LongerPrefixCostsMore(es, k + 1, m);
      assert es[..k + 1] == es[..k] + [es[k]];
      CostConcat(es[..k], [es[k]]);
    }
  }

  /** The lines of the last k entries, newest first. */
  ghost predicate NewestFirst(es: seq<LogEntry>, lines: seq<Str>) {
    |lines| <= |es| && forall i :: 0 <= i < |lines| ==> lines[i] == LineFor(es[|es| - 1 - i])
  }

  lemma OneOlder(es: seq<LogEntry>, lines: seq<Str>, line: Str)
    requires NewestFirst(es, lines) && |lines| < |es| && line == LineFor(es[|es| - 1 - |lines|])
    ensures NewestFirst(es, lines + [line])
  {
  }

  /** The backward scan over before-context. */
  method ScanBefore(es: seq<LogEntry>, budget: nat) returns (reversed: seq<Str>, remaining: int)
    ensures NewestFirst(es, reversed) && LongestSuffix(es, budget, |reversed|)
    ensures remaining == budget - Cost(Suffix(es, |reversed|)) && remaining >= 0
  {
    reversed := [];
    remaining := budget;
    var index := |es| - 1;
    while index >= 0 && |LineFor(es[index])| + 1 <= remaining
      invariant -1 <= index < |es| && |reversed| == |es| - 1 - index
      invariant NewestFirst(es, reversed)
      invariant remaining == budget - Cost(Suffix(es, |reversed|)) && remaining >= 0
    {
      var line := LineFor(es[index]);
      NextSuffix(es, |reversed|);
      OneOlder(es, reversed, line);
      reversed := reversed + [line];
      remaining := remaining - (|line| + 1);
      index := index - 1;
    }
    SuffixStops(es, budget, |reversed|);
  }

  /** The before-context that fits, in chronological order. */
  method CollectBefore(es: seq<LogEntry>, budget: nat) returns (lines: seq<Str>, remaining: int)
    ensures LongestSuffix(es, budget, |lines|) && lines == LinesFor(Suffix(es, |lines|))
    ensures remaining == budget - Cost(Suffix(es, |lines|)) && remaining >= 0
  {
    var reversed;
    reversed, remaining := ScanBefore(es, budget);
    lines := Reversed(reversed);
    ghost var k := |lines|;
    assert forall i :: 0 <= i < k ==> Suffix(es, k)[i] == es[|es| - k + i];
    assert lines == LinesFor(Suffix(es, k));
  }

  /** The two-index swap that reverses a list. */
  method Reversed(s: seq<Str>) returns (r: seq<Str>)
    ensures |r| == |s| && forall i :: 0 <= i < |s| ==> r[i] == s[|s| - 1 - i]
  {
    r := s;
    var left, right := 0, |s| - 1;
    while left < right
      invariant |r| == |s| && 0 <= left && right == |s| - 1 - left && left <= right + 1
      invariant forall i :: 0 <= i < left || right < i < |s| ==> r[i] == s[|s| - 1 - i]
      invariant forall i :: left <= i <= right ==> r[i] == s[i]
    {
      r := r[left := r[right]][right := r[left]];
      left, right := left + 1, right - 1;
    }
  }

  method CollectAfter(es: seq<LogEntry>, budget: nat) returns (lines: seq<Str>)
    ensures LongestPrefix(es, budget, |lines|) && lines == LinesFor(es[..|lines|])
  {
    lines := [];
    var remaining: int := budget;
    var index := 0;
    while index < |es| && |LineFor(es[index])| + 1 <= remaining
      invariant 0 <= index <= |es| && lines == LinesFor(es[..index])
      invariant remaining == budget - Cost(es[..index]) && remaining >= 0
    {
      var line := LineFor(es[index]);
      assert es[..index + 1] == es[..index] + [es[index]];
      CostConcat(es[..index], [es[index]]);
      lines := lines + [line];
      remaining := remaining - (|line| + 1);
      index := index + 1;
    }
    PrefixStops(es, budget, index);
  }

  method Lines(c: Capture, maxBytes: int) returns (lines: seq<Str>)
    ensures BestLines(c, maxBytes, lines)
    ensures JoinedSize(lines) <= if maxBytes <= 0 then 0 else maxBytes
  {
    if maxBytes <= 0 {
      return [];
    }
    var trigger := LineFor(c.trigger);
    if |trigger| >= maxBytes {
      var cut := TruncateUTF8(trigger, maxBytes);
      return [cut];
    }
    var before, remaining := CollectBefore(c.before, maxBytes - |trigger|);
    var after := CollectAfter(c.after, remaining);
    lines := before + [trigger] + after;
    BestLinesFit(c, maxBytes, lines, |before|, |after|);
  }

  lemma BestLinesFit(c: Capture, maxBytes: int, lines: seq<Str>, b: nat, a: nat)
    requires 0 < maxBytes && |LineFor(c.trigger)| < maxBytes
    requires BestRun(c, maxBytes - |LineFor(c.trigger)|, b, a)
    requires lines == LinesFor(Suffix(c.before, b)) + [LineFor(c.trigger)] + LinesFor(c.after[..a])
    ensures BestLines(c, maxBytes, lines) && JoinedSize(lines) <= maxBytes
  {
    var front, back := Suffix(c.before, b), c.after[..a];
    assert lines == LinesFor(Around(c, b, a));
    CostConcat(front + [c.trigger], back);
    CostConcat(front, [c.trigger]);
    assert Cost([c.trigger]) == |LineFor(c.trigger)| + 1;
    JoinedSizeIsCost(Around(c, b, a));
  }

  lemma LongestIsUnique(es: seq<LogEntry>, budget: int, j: nat, k: nat)
    ensures LongestSuffix(es, budget, j) && LongestSuffix(es, budget, k) ==> j == k
    ensures LongestPrefix(es, budget, j) && LongestPrefix(es, budget, k) ==> j == k
  {
  }

  /** The promise determines the lines, so it is a complete description. */
  lemma BestLinesUnique(c: Capture, maxBytes: int, l1: seq<Str>, l2: seq<Str>)
    requires BestLines(c, maxBytes, l1) && BestLines(c, maxBytes, l2)
    ensures l1 == l2
  {
    var budget := maxBytes - |LineFor(c.trigger)|;
    if 0 < maxBytes && 0 < budget {
      var b1: nat, a1: nat :| BestRun(c, budget, b1, a1) && l1 == LinesFor(Around(c, b1, a1));
      var b2: nat, a2: nat :| BestRun(c, budget, b2, a2) && l2 == LinesFor(Around(c, b2, a2));
      LongestIsUnique(c.before, budget, b1, b2);
      LongestIsUnique(c.after, budget - Cost(Suffix(c.before, b1)), a1, a2);
    }
  }

  /** A line is an entry's raw text, or its message if it has none. */
  predicate Prints(line: Str, e: LogEntry) {
    (e.raw != [] ==> line == e.raw) && (e.raw == [] ==> line == e.message)
  }

  /** The lines are the b entries before the trigger, the trigger and the a entries after it. */
  ghost predicate PrintedRun(c: Capture, lines: seq<Str>, b: nat, a: nat) {
    && b <= |c.before| && a <= |c.after| && |lines| == b + 1 + a
    && (forall i :: 0 <= i < b ==> Prints(lines[i], c.before[|c.before| - b + i]))
    && Prints(lines[b], c.trigger)
    && (forall i :: 0 <= i < a ==> Prints(lines[b + 1 + i], c.after[i]))
  }

  lemma AroundAt(c: Capture, b: nat, a: nat)
    requires b <= |c.before| && a <= |c.after|
    ensures var es := Around(c, b, a);
            && |es| == b + 1 + a && (forall i :: 0 <= i < b ==> es[i] == c.before[|c.before| - b + i])
            && es[b] == c.trigger && (forall i :: 0 <= i < a ==> es[b + 1 + i] == c.after[i])
  {
    assert Suffix(c.before, b) == c.before[|c.before| - b..];
  }

  lemma AroundPrints(c: Capture, b: nat, a: nat)
    requires b <= |c.before| && a <= |c.after|
    ensures PrintedRun(c, LinesFor(Around(c, b, a)), b, a)
  {
    AroundAt(c, b, a);
    var es := Around(c, b, a);
    assert forall i :: 0 <= i < |es| ==> Prints(LinesFor(es)[i], es[i]);
  }

  /** The printed lines, entry by entry: none without a limit above zero; if the trigger's own line is within the limit, a run of
      whole lines with the trigger in it, and otherwise the part of that line that fits. */
  lemma PrintedLinesAre(c: Capture, maxBytes: int, lines: seq<Str>, trigger: Str)
    requires BestLines(c, maxBytes, lines) && Prints(trigger, c.trigger)
    ensures maxBytes <= 0 ==> lines == []
    ensures |trigger| < maxBytes ==> exists b: nat, a: nat :: PrintedRun(c, lines, b, a)
    ensures 0 < maxBytes <= |trigger| ==> |lines| == 1 && lines[0] <= trigger && |lines[0]| <= maxBytes
  {
    assert trigger == LineFor(c.trigger);
    if |trigger| < maxBytes {
      var b: nat, a: nat :| BestRun(c, maxBytes - |trigger|, b, a) && lines == LinesFor(Around(c, b, a));
      AroundPrints(c, b, a);
    }
  }
}
