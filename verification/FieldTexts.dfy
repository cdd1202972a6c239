/** What any text parses to, in terms of its pieces between commas: which pieces are fields,
    what becomes of the pieces before the first field, and which value each key gets. */
module FieldTexts {
  import opened Common
  import opened FieldParser

  // ---------------------------------------------------------------- one piece

  /** The field pattern's key: [A-Za-z_][A-Za-z0-9_.-]* */
  predicate Letter(b: byte) {
    var ch := b as int as char; 'A' <= ch <= 'Z' || 'a' <= ch <= 'z' || ch == '_'
  }

  predicate KeyText(key: Str) {
    key != [] && Letter(key[0]) && forall i :: 0 <= i < |key| ==>
      var ch := key[i] as int as char; Letter(key[i]) || '0' <= ch <= '9' || ch == '.' || ch == '-'
  }

  /** Tab, line feed, form feed, carriage return and space are \s; TrimSpace takes the vertical
      tab too. */
  predicate Blank(b: byte, verticalTab: bool) {
    var n := b as int; n == 9 || n == 10 || n == 12 || n == 13 || n == 32 || (verticalTab && n == 11)
  }

  predicate AllBlank(s: Str, verticalTab: bool) { forall i :: 0 <= i < |s| ==> Blank(s[i], verticalTab) }

  /** s is key, colon, blanks, value. */
  predicate Spells(s: Str, key: Str, blanks: Str, value: Str) {
    && s == key + [58] + blanks + value
    && KeyText(key) && AllBlank(blanks, false) && (value != [] ==> !Blank(value[0], false)) && 10 !in value
  }

  lemma KeyTextIff(key: Str)
    ensures KeyText(key) <==> IsKey(key)
  {
  }

  lemma {:induction false} SkipsBlanks(s: Str) returns (blanks: Str)
    ensures s == blanks + SkipPatternSpace(s) && AllBlank(blanks, false)
    ensures SkipPatternSpace(s) != [] ==> !Blank(SkipPatternSpace(s)[0], false)
  {
    if s != [] && IsPatternSpace(s[0]) {
      var rest := SkipsBlanks(s[1..]);
      blanks := [s[0]] + rest;
      assert s == [s[0]] + s[1..];
      Reassociate([s[0]], rest, SkipPatternSpace(s));
    } else {
      blanks := [];
      assert [] + s == s;
    }
  }

  lemma {:induction false} SkipsExactly(blanks: Str, value: Str)
    requires AllBlank(blanks, false) && (value != [] ==> !Blank(value[0], false))
    ensures SkipPatternSpace(blanks + value) == value
  {
    if blanks == [] {
      assert blanks + value == value;
    } else {
      assert (blanks + value)[1..] == blanks[1..] + value;
      SkipsExactly(blanks[1..], value);
    }
  }

  /** A text is a field if and only if it spells one, and then with that key and value. */
  lemma MatchesIff(s: Str, key: Str, value: Str)
    ensures MatchField(s) == Some((key, value)) <==> exists blanks :: Spells(s, key, blanks, value)
  {
    if MatchField(s) == Some((key, value)) {
      var i := IndexOf(s, COLON);
      var blanks := SkipsBlanks(s[i + 1..]);
      KeyTextIff(key);
      assert s == s[..i] + [s[i]] + s[i + 1..];
      Reassociate(key + [58], blanks, value);
      assert Spells(s, key, blanks, value);
    }
    if exists blanks :: Spells(s, key, blanks, value) {
      var blanks :| Spells(s, key, blanks, value);
      KeyTextIff(key);
      SkipsExactly(blanks, value);
      Reassociate(key + [58], blanks, value);
      MatchKey(key, blanks + value);
    }
  }

  lemma {:induction false} TrimsLeft(s: Str) returns (blanks: Str)
    ensures s == blanks + TrimLeft(s) && AllBlank(blanks, true)
  {
    if s != [] && IsSpace(s[0]) {
      var rest := TrimsLeft(s[1..]);
      blanks := [s[0]] + rest;
      assert s == [s[0]] + s[1..];
      Reassociate([s[0]], rest, TrimLeft(s));
    } else {
      blanks := [];
      assert [] + s == s;
    }
  }

  lemma {:induction false} TrimsRight(s: Str) returns (blanks: Str)
    ensures s == TrimRight(s) + blanks && AllBlank(blanks, true)
    ensures TrimRight(s) != [] ==> s != [] && TrimRight(s)[0] == s[0]
  {
    if s != [] && IsSpace(s[|s| - 1]) {
      var rest := TrimsRight(s[..|s| - 1]);
      blanks := rest + [s[|s| - 1]];
      assert s == s[..|s| - 1] + [s[|s| - 1]];
      Reassociate(TrimRight(s), rest, [s[|s| - 1]]);
    } else {
      blanks := [];
      assert s + [] == s;
    }
  }

  /** Trimming takes blanks off both ends, and all of them. */
  lemma TrimsBlanks(s: Str) returns (left: Str, right: Str)
    ensures s == left + TrimSpace(s) + right && AllBlank(left, true) && AllBlank(right, true)
    ensures var t := TrimSpace(s); t != [] ==> !Blank(t[0], true) && !Blank(t[|t| - 1], true)
  {
    left := TrimsLeft(s);
    right := TrimsRight(TrimLeft(s));
    Reassociate(left, TrimSpace(s), right);
  }

  // --------------------------------------------------------------- all pieces

  /** The text is its pieces with a comma between each two. */
  lemma {:induction false} PiecesAreSplit(v: Str)
    ensures Glued(Split(v)[0], Split(v)[1..]) == v && forall i :: 0 <= i < |Split(v)| ==> 44 !in Split(v)[i]
    decreases |v|
  {
    GluedSplit(v);
    var i := IndexOf(v, COMMA);
    if i >= 0 {
      PiecesAreSplit(v[i + 1..]);
    }
  }

  lemma JoinLast(init: seq<Str>, last: Str, separator: Str)
    requires init != []
    ensures Join(init + [last], separator) == Join(init, separator) + separator + last
  {
    assert (init + [last])[..|init|] == init;
  }

  /** Joining puts the separator between each two pieces. */
  lemma {:induction false} JoinCons(x: Str, rest: seq<Str>, separator: Str)
    ensures Join([], separator) == [] && Join([x], separator) == x
    ensures rest != [] ==> Join([x] + rest, separator) == x + separator + Join(rest, separator)
  {
    if rest != [] {
      var init, last := rest[..|rest| - 1], rest[|rest| - 1];
      assert rest == init + [last] && [x] + rest == ([x] + init) + [last];
      JoinLast([x] + init, last, separator);
      if init == [] {
        assert [x] + init == [x] && rest == [last];
      } else {
        JoinCons(x, init, separator);
        JoinLast(init, last, separator);
        Reassociate(x + separator, Join(init, separator) + separator, last);
        Reassociate(x + separator, Join(init, separator), separator);
      }
    }
  }

  predicate IsFieldOf(part: Str, key: Str) {
    var m := MatchField(TrimSpace(part)); m.Some? && m.value.0 == key
  }

  function KeyIn(part: Str): Str {
    var m := MatchField(TrimSpace(part)); if m.Some? then m.value.0 else []
  }

  function ValueIn(part: Str): Str {
    var m := MatchField(TrimSpace(part)); if m.Some? then m.value.1 else []
  }

  /** What comes before the first element that stops. */
  function Until<T>(stops: T -> bool, s: seq<T>): (r: seq<T>) {
    if s == [] || stops(s[0]) then [] else [s[0]] + Until(stops, s[1..])
  }

  predicate NoneStops<T>(stops: T -> bool, s: seq<T>) { forall i :: 0 <= i < |s| ==> !stops(s[i]) }

  lemma {:induction false} UntilAppend<T>(stops: T -> bool, s: seq<T>, x: T)
    ensures Until(stops, s + [x]) == if NoneStops(stops, s) && !stops(x) then Until(stops, s) + [x] else Until(stops, s)
  {
    if s == [] {
      assert s + [x] == [x] && [x][1..] == [] && [] + [x] == [x];
    } else {
      var tail := s[1..];
      assert (s + [x])[1..] == tail + [x];
      UntilAppend(stops, tail, x);
      assert forall i :: 1 <= i < |s| ==> s[i] == tail[i - 1];
      Reassociate([s[0]], Until(stops, tail), [x]);
    }
  }

  /** The pieces before the first field. */
  function Lead(parts: seq<Str>): (r: seq<Str>) { Until(FieldShaped, parts) }

  /** The position of the last field of key, if there is one. */
  function LastFieldOf(parts: seq<Str>, key: Str): (r: Option<nat>)
    ensures r.Some? ==> r.value < |parts| && IsFieldOf(parts[r.value], key) && FieldShaped(parts[r.value])
    ensures forall i :: 0 <= i < |parts| && IsFieldOf(parts[i], key) ==> r.Some? && i <= r.value
  {
    if parts == [] then None
    else if IsFieldOf(parts[|parts| - 1], key) then Some(|parts| - 1)
    else LastFieldOf(parts[..|parts| - 1], key)
  }

  /** The value of the field at position j: its own, and the pieces up to the next field. */
  function FullValue(parts: seq<Str>, j: nat): (r: Str)
    requires j < |parts|
  {
    Glued(ValueIn(parts[j]), Lead(parts[j + 1..]))
  }

  predicate NoField(parts: seq<Str>) { NoneStops(FieldShaped, parts) }

  lemma {:induction false} GluedAppend(x: Str, parts: seq<Str>, p: Str)
    ensures Glued(x, parts + [p]) == Glued(x, parts) + [COMMA] + p
    decreases |parts|
  {
    if parts == [] {
      assert parts + [p] == [p] && [p][1..] == [];
    } else {
      assert (parts + [p])[1..] == parts[1..] + [p];
      GluedAppend(x + [COMMA] + parts[0], parts[1..], p);
    }
  }

  /** The last field of all is at j and has key. */
  ghost predicate LatestField(parts: seq<Str>, key: Str, j: nat) {
    j < |parts| && IsFieldOf(parts[j], key) && NoField(parts[j + 1..])
  }

  /** The value of key is what the pieces so far say. */
  ghost predicate ToldKey(fields: map<Str, Str>, parts: seq<Str>, key: Str) {
    && (key in fields <==> LastFieldOf(parts, key).Some?)
    && (key in fields ==> fields[key] == FullValue(parts, LastFieldOf(parts, key).value))
  }

  ghost predicate ToldLast(last: Option<Str>, parts: seq<Str>) {
    match last
    case None => NoField(parts)
    case Some(key) => exists j: nat :: LatestField(parts, key, j)
  }

  /** The parser's state is what the pieces so far say. */
  ghost predicate Told(st: State, parts: seq<Str>) {
    st.message == Trimmed(Lead(parts)) && ToldLast(st.last, parts) && forall key :: ToldKey(st.fields, parts, key)
  }

  lemma LaterPieces(parts: seq<Str>, i: nat)
    requires i < |parts|
    ensures NoField(parts[i + 1..]) <==> forall m :: i < m < |parts| ==> !FieldShaped(parts[m])
  {
    assert forall m :: i < m < |parts| ==> parts[m] == parts[i + 1..][m - i - 1];
  }

  lemma LatestIsLast(parts: seq<Str>, key: Str, j: nat)
    requires LatestField(parts, key, j)
    ensures LastFieldOf(parts, key) == Some(j) && !NoField(parts)
  {
    LaterPieces(parts, j);
    assert FieldShaped(parts[j]) && FieldShaped(parts[LastFieldOf(parts, key).value]);
  }

  /** One more piece leaves a finished value alone, and continues an unfinished one. */
  lemma FullValueAppend(parts: seq<Str>, p: Str, j: nat)
    requires j < |parts|
    ensures FullValue(parts + [p], j) ==
              if NoField(parts[j + 1..]) && !FieldShaped(p) then FullValue(parts, j) + [COMMA] + p else FullValue(parts, j)
  {
    assert (parts + [p])[j + 1..] == parts[j + 1..] + [p] && (parts + [p])[j] == parts[j];
    UntilAppend(FieldShaped, parts[j + 1..], p);
    GluedAppend(ValueIn(parts[j]), Lead(parts[j + 1..]), p);
  }

  lemma LastFieldAppend(parts: seq<Str>, p: Str, key: Str)
    ensures LastFieldOf(parts + [p], key) == if IsFieldOf(p, key) then Some(|parts|) else LastFieldOf(parts, key)
  {
    assert (parts + [p])[..|parts|] == parts;
  }

  lemma NewFieldTells(fields: map<Str, Str>, parts: seq<Str>, p: Str, key: Str)
    requires ToldKey(fields, parts, key) && FieldShaped(p)
    ensures ToldKey(fields[KeyIn(p) := ValueIn(p)], parts + [p], key)
  {
    LastFieldAppend(parts, p, key);
    if key == KeyIn(p) {
      assert (parts + [p])[|parts| + 1..] == [];
    } else if key in fields {
      FullValueAppend(parts, p, LastFieldOf(parts, key).value);
    }
  }

  /** A new field. */
  lemma FieldTells(st: State, parts: seq<Str>, p: Str)
    requires Told(st, parts) && FieldShaped(p) && (st.last.Some? ==> st.last.value in st.fields)
    ensures Told(ParsePart(st, p), parts + [p])
  {
    var all, st' := parts + [p], ParsePart(st, p);
    UntilAppend(FieldShaped, parts, p);
    assert all[|parts| + 1..] == [] && LatestField(all, KeyIn(p), |parts|);
    forall key ensures ToldKey(st'.fields, all, key) {
      NewFieldTells(st.fields, parts, p, key);
    }
  }

  /** A piece of the message, before any field. */
  lemma MessageTells(st: State, parts: seq<Str>, p: Str)
    requires Told(st, parts) && !FieldShaped(p) && st.last.None?
    ensures Told(ParsePart(st, p), parts + [p])
  {
    var all, st' := parts + [p], ParsePart(st, p);
    UntilAppend(FieldShaped, parts, p);
    assert Trimmed(Lead(parts) + [p]) == Trimmed(Lead(parts)) + [TrimSpace(p)];
    forall key ensures ToldKey(st'.fields, all, key) {
      assert ToldKey(st.fields, parts, key);
      LastFieldAppend(parts, p, key);
      NoFieldNoLast(parts, key);
    }
  }

  lemma NoFieldNoLast(parts: seq<Str>, key: Str)
    requires NoField(parts)
    ensures LastFieldOf(parts, key).None?
  {
  }

  /** Only the latest field is continued. */
  lemma OnlyLatestIsOpen(parts: seq<Str>, latest: Str, j: nat, i: nat)
    requires LatestField(parts, latest, j) && i < |parts| && FieldShaped(parts[i])
    ensures NoField(parts[i + 1..]) <==> i == j
  {
    LaterPieces(parts, i);
    LaterPieces(parts, j);
    assert FieldShaped(parts[j]);
  }

  lemma ContinuedTells(fields: map<Str, Str>, parts: seq<Str>, p: Str, latest: Str, j: nat, key: Str)
    requires ToldKey(fields, parts, key) && !FieldShaped(p) && LatestField(parts, latest, j) && latest in fields
    ensures ToldKey(fields[latest := fields[latest] + [COMMA] + p], parts + [p], key)
  {
    LastFieldAppend(parts, p, key);
    LatestIsLast(parts, latest, j);
    if key in fields {
      var i := LastFieldOf(parts, key).value;
      FullValueAppend(parts, p, i);
      OnlyLatestIsOpen(parts, latest, j, i);
    }
  }

  lemma LatestStays(parts: seq<Str>, p: Str, latest: Str, j: nat)
    requires LatestField(parts, latest, j) && !FieldShaped(p)
    ensures LatestField(parts + [p], latest, j)
  {
    var all := parts + [p];
    assert all[j + 1..] == parts[j + 1..] + [p] && all[j] == parts[j];
  }

  /** A piece that continues the latest field. */
  lemma PieceTells(st: State, parts: seq<Str>, p: Str)
    requires Told(st, parts) && !FieldShaped(p) && st.last.Some? && st.last.value in st.fields
    ensures Told(ParsePart(st, p), parts + [p])
  {
    var all, st', latest := parts + [p], ParsePart(st, p), st.last.value;
    var j: nat :| LatestField(parts, latest, j);
    LatestIsLast(parts, latest, j);
    UntilAppend(FieldShaped, parts, p);
    LatestStays(parts, p, latest, j);
    forall key ensures ToldKey(st'.fields, all, key) {
      ContinuedTells(st.fields, parts, p, latest, j, key);
    }
  }

  lemma OneMoreTells(st: State, parts: seq<Str>, p: Str)
    requires Told(st, parts) && (st.last.Some? ==> st.last.value in st.fields)
    ensures Told(ParsePart(st, p), parts + [p])
  {
    if FieldShaped(p) {
      FieldTells(st, parts, p);
    } else if st.last.None? {
      MessageTells(st, parts, p);
    } else {
      PieceTells(st, parts, p);
    }
  }

  lemma {:induction false} PrefixTells(parts: seq<Str>, n: nat)
    requires n <= |parts|
    ensures Told(ParseParts(EMPTY, parts[..n]), parts[..n])
  {
    if n == 0 {
      assert parts[..0] == [];
    } else {
      PrefixTells(parts, n - 1);
      ParseNext(parts, n - 1);
      OneMoreTells(ParseParts(EMPTY, parts[..n - 1]), parts[..n - 1], parts[n - 1]);
      assert parts[..n] == parts[..n - 1] + [parts[n - 1]];
    }
  }

  /** For every text: the message is made of the trimmed pieces before the first field; the keys
      are those of the pieces that are fields; and the value of a key is that of its last
      field, continued by the pieces up to the next field, commas and blanks included. */
  lemma EveryTextIsTold(text: Str)
    ensures var (parts, message, found) := (Split(text), Parsed(text).0, Parsed(text).1);
            && message == Join(Trimmed(Lead(parts)), [44, 32])
            && (found.None? <==> NoField(parts))
            && (found.Some? ==> forall key :: key in found.value <==> LastFieldOf(parts, key).Some?)
            && (found.Some? ==> forall key :: key in found.value ==>
                  found.value[key] == FullValue(parts, LastFieldOf(parts, key).value))
  {
    var parts := Split(text);
    PrefixTells(parts, |parts|);
    assert parts[..|parts|] == parts;
    var st := ParseParts(EMPTY, parts);
    forall i | 0 <= i < |parts| ensures FieldShaped(parts[i]) ==> KeyIn(parts[i]) in st.fields {
      assert ToldKey(st.fields, parts, KeyIn(parts[i]));
      assert FieldShaped(parts[i]) ==> IsFieldOf(parts[i], KeyIn(parts[i]));
    }
    forall key ensures ToldKey(st.fields, parts, key) && (key in st.fields ==> !NoField(parts)) {
      if NoField(parts) {
        NoFieldNoLast(parts, key);
      }
    }
    assert NoField(parts) ==> st.fields == map[];
  }
}
