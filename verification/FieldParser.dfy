/** Splitting a graph-node line into message and fields. Model of parseMessageAndFields in
    internal/parser/graphnode.go on ASCII text: the field pattern, strings.Split,
    strings.TrimSpace and strings.Join are written out for bytes. */
module FieldParser {
  import opened Common

  const COMMA: byte := 44
  const COLON: byte := 58
  const SPACE: byte := 32

  // ------------------------------------------------------------ text functions

  /** What strings.TrimSpace removes from ASCII text. */
  predicate IsSpace(b: byte) { 9 <= b as int <= 13 || b == SPACE }

  /** The regular expression class \s, which lacks the vertical tab. */
  predicate IsPatternSpace(b: byte) { IsSpace(b) && b as int != 11 }

  function TrimLeft(s: Str): (r: Str)
    ensures r != [] ==> !IsSpace(r[0])
  {
    if s != [] && IsSpace(s[0]) then TrimLeft(s[1..]) else s
  }

  function TrimRight(s: Str): (r: Str)
    ensures r != [] ==> !IsSpace(r[|r| - 1])
  {
    if s != [] && IsSpace(s[|s| - 1]) then TrimRight(s[..|s| - 1]) else s
  }

  function TrimSpace(s: Str): Str { TrimRight(TrimLeft(s)) }

  function SkipPatternSpace(s: Str): Str {
    if s != [] && IsPatternSpace(s[0]) then SkipPatternSpace(s[1..]) else s
  }

  function Split(s: Str): (parts: seq<Str>)
    ensures parts != []
  {
    var i := IndexOf(s, COMMA);
    if i < 0 then [s] else [s[..i]] + Split(s[i + 1..])
  }

  function Join(parts: seq<Str>, separator: Str): (r: Str) {
    if parts == [] then []
    else if |parts| == 1 then parts[0]
    else Join(parts[..|parts| - 1], separator) + separator + parts[|parts| - 1]
  }

  predicate IsLetterOrUnderscore(b: byte) { 65 <= b as int <= 90 || 97 <= b as int <= 122 || b as int == 95 }

  predicate IsKeyByte(b: byte) { IsLetterOrUnderscore(b) || 48 <= b as int <= 57 || b as int == 46 || b as int == 45 }

  predicate IsKey(s: Str) {
    s != [] && IsLetterOrUnderscore(s[0]) && forall i :: 0 <= i < |s| ==> IsKeyByte(s[i])
  }

  /** The field pattern: a key, a colon, white space, and a value without line feeds. */
  function MatchField(s: Str): (r: Option<(Str, Str)>)
    ensures r.Some? ==> IsKey(r.value.0)
  {
    var i := IndexOf(s, COLON);
    if i < 0 || !IsKey(s[..i]) then None
    else
      var value := SkipPatternSpace(s[i + 1..]);
      if LF in value then None else Some((s[..i], value))
  }

  predicate FieldShaped(part: Str) { MatchField(TrimSpace(part)).Some? }

  // ------------------------------------------------------------------ parsing

  datatype State = State(message: seq<Str>, fields: map<Str, Str>, last: Option<Str>)

  function ParsePart(st: State, part: Str): (r: State)
    requires st.last.Some? ==> st.last.value in st.fields
    ensures r.last.Some? ==> r.last.value in r.fields
  {
    var m := MatchField(TrimSpace(part));
    if m.Some? then st.(fields := st.fields[m.value.0 := m.value.1], last := Some(m.value.0))
    else if st.last.Some? then st.(fields := st.fields[st.last.value := st.fields[st.last.value] + [COMMA] + part])
    else st.(message := st.message + [TrimSpace(part)])
  }

  function ParseParts(st: State, parts: seq<Str>): (r: State)
    requires st.last.Some? ==> st.last.value in st.fields
    ensures r.last.Some? ==> r.last.value in r.fields
    decreases |parts|
  {
    if parts == [] then st else ParseParts(ParsePart(st, parts[0]), parts[1..])
  }

  const EMPTY := State([], map[], None)

  function Result(st: State): (r: (Str, Option<map<Str, Str>>)) {
    (Join(st.message, [COMMA, SPACE]), if st.fields == map[] then None else Some(st.fields))
  }

  function Parsed(value: Str): (r: (Str, Option<map<Str, Str>>)) { Result(ParseParts(EMPTY, Split(value))) }

  lemma {:induction false} ParseConcat(st: State, a: seq<Str>, b: seq<Str>)
    requires st.last.Some? ==> st.last.value in st.fields
    ensures ParseParts(st, a + b) == ParseParts(ParseParts(st, a), b)
    decreases |a|
  {
    if a == [] {
      assert a + b == b;
    } else {
      assert (a + b)[0] == a[0] && (a + b)[1..] == a[1..] + b;
      ParseConcat(ParsePart(st, a[0]), a[1..], b);
    }
  }

  lemma ParseNext(parts: seq<Str>, i: nat)
    requires i < |parts|
    ensures ParseParts(EMPTY, parts[..i + 1]) == ParsePart(ParseParts(EMPTY, parts[..i]), parts[i])
  {
    assert parts[..i + 1] == parts[..i] + [parts[i]];
    ParseConcat(EMPTY, parts[..i], [parts[i]]);
    ParseOne(ParseParts(EMPTY, parts[..i]), parts[i]);
  }

  lemma ParseOne(st: State, part: Str)
    requires st.last.Some? ==> st.last.value in st.fields
    ensures ParseParts(st, [part]) == ParsePart(st, part)
  {
    assert [part][1..] == [];
    assert ParseParts(ParsePart(st, part), []) == ParsePart(st, part);
  }

  /** The loop of the program; an empty field map is returned as no map. */
  method ParseMessageAndFields(value: Str) returns (message: Str, fields: Option<map<Str, Str>>)
    ensures (message, fields) == Parsed(value)
  {
    var parts := Split(value);
    var messageParts: seq<Str>, found: map<Str, Str>, lastField: Str := [], map[], [];
    for i := 0 to |parts|
      invariant lastField != [] ==> lastField in found
      invariant ParseParts(EMPTY, parts[..i]) == State(messageParts, found, if lastField == [] then None else Some(lastField))
    {
      var part := parts[i];
      ParseNext(parts, i);
      var trimmed := TrimSpace(part);
      var matches := MatchField(trimmed);
      if matches.Some? {
        lastField := matches.value.0;
        found := found[lastField := matches.value.1];
      } else if lastField != [] {
        found := found[lastField := found[lastField] + [COMMA] + part];
      } else {
        messageParts := messageParts + [trimmed];
      }
    }
    assert parts[..|parts|] == parts;
    message := Join(messageParts, [COMMA, SPACE]);
    fields := if |found| == 0 then None else Some(found);
  }

  // ---------------------------------------------------------------- rendering

  datatype Field = Field(key: Str, value: Str)

  function RenderField(f: Field): Str { [SPACE] + f.key + [COLON, SPACE] + f.value }

  /** message, k1: v1, k2: v2 and so on. */
  function Render(message: Str, fields: seq<Field>): (r: Str) {
    if fields == [] then message
    else Render(message, fields[..|fields| - 1]) + [COMMA] + RenderField(fields[|fields| - 1])
  }

  /** The pieces of the message are trimmed and joined by ", ", and none looks like a field. */
  predicate CanonicalMessage(m: Str) {
    && m == Join(Trimmed(Split(m)), [COMMA, SPACE])
    && forall p :: p in Split(m) ==> !FieldShaped(p)
  }

  function Trimmed(parts: seq<Str>): (r: seq<Str>)
    ensures |r| == |parts| && forall i :: 0 <= i < |parts| ==> r[i] == TrimSpace(parts[i])
  {
    seq(|parts|, i requires 0 <= i < |parts| => TrimSpace(parts[i]))
  }

  predicate Tight(s: Str) { s == [] || (!IsSpace(s[0]) && !IsSpace(s[|s| - 1])) }

  /** A key, and a value whose first piece has no space around it and no line feed and whose
      later pieces do not look like fields. */
  predicate CanonicalField(f: Field) {
    && IsKey(f.key)
    && Tight(Split(f.value)[0]) && LF !in Split(f.value)[0]
    && forall i :: 1 <= i < |Split(f.value)| ==> !FieldShaped(Split(f.value)[i])
  }

  predicate DistinctKeys(fields: seq<Field>) {
    forall i, j :: 0 <= i < j < |fields| ==> fields[i].key != fields[j].key
  }

  function AsMap(fields: seq<Field>): (m: map<Str, Str>) {
    if fields == [] then map[]
    else AsMap(fields[..|fields| - 1])[fields[|fields| - 1].key := fields[|fields| - 1].value]
  }

  // ------------------------------------------------------------------- proofs

  lemma FirstPiece(head: Str, tail: Str)
    requires COMMA !in head
    ensures Split(head + [COMMA] + tail) == [head] + Split(tail)
  {
    IndexOfFirst(head, COMMA, tail);
    assert (head + [COMMA] + tail)[..|head|] == head && (head + [COMMA] + tail)[|head| + 1..] == tail;
  }

  lemma {:induction false} SplitConcat(a: Str, b: Str)
    ensures Split(a + [COMMA] + b) == Split(a) + Split(b)
    decreases |a|
  {
    var i := IndexOf(a, COMMA);
    if i < 0 {
      FirstPiece(a, b);
    } else {
      var head, tail := a[..i], a[i + 1..];
      assert a == head + [COMMA] + tail && a + [COMMA] + b == head + [COMMA] + (tail + [COMMA] + b);
      FirstPiece(head, tail);
      FirstPiece(head, tail + [COMMA] + b);
      SplitConcat(tail, b);
      Reassociate([head], Split(tail), Split(b));
    }
  }

  lemma SplitPrefix(prefix: Str, v: Str)
    requires COMMA !in prefix
    ensures Split(prefix + v) == [prefix + Split(v)[0]] + Split(v)[1..]
  {
    var i := IndexOf(v, COMMA);
    if i < 0 {
      assert COMMA !in prefix + v;
    } else {
      var head, tail := v[..i], v[i + 1..];
      assert v == head + [COMMA] + tail && prefix + v == (prefix + head) + [COMMA] + tail;
      FirstPiece(head, tail);
      FirstPiece(prefix + head, tail);
      assert ([head] + Split(tail))[1..] == Split(tail);
    }
  }

  /** x continued by further pieces, each behind a comma. */
  function Glued(x: Str, parts: seq<Str>): (r: Str)
    decreases |parts|
  {
    if parts == [] then x else Glued(x + [COMMA] + parts[0], parts[1..])
  }

  lemma {:induction false} GluedPrefix(a: Str, x: Str, parts: seq<Str>)
    ensures Glued(a + x, parts) == a + Glued(x, parts)
    decreases |parts|
  {
    if parts != [] {
      assert a + x + [COMMA] + parts[0] == a + (x + [COMMA] + parts[0]);
      GluedPrefix(a, x + [COMMA] + parts[0], parts[1..]);
    }
  }

  /** Gluing undoes splitting. */
  lemma {:induction false} GluedSplit(v: Str)
    ensures Glued(Split(v)[0], Split(v)[1..]) == v
    decreases |v|
  {
    var i := IndexOf(v, COMMA);
    if i >= 0 {
      var head, tail := v[..i], v[i + 1..];
      assert v == head + [COMMA] + tail;
      FirstPiece(head, tail);
      var rest := Split(tail);
      assert ([head] + rest)[1..] == rest;
      GluedPrefix(head + [COMMA], rest[0], rest[1..]);
      GluedSplit(tail);
    }
  }

  lemma {:induction false} ValueContinues(st: State, key: Str, parts: seq<Str>)
    requires st.last == Some(key) && key in st.fields
    requires forall i :: 0 <= i < |parts| ==> !FieldShaped(parts[i])
    ensures ParseParts(st, parts) == st.(fields := st.fields[key := Glued(st.fields[key], parts)])
    decreases |parts|
  {
    if parts != [] {
      ValueContinues(ParsePart(st, parts[0]), key, parts[1..]);
    }
  }

  lemma KeyBytes(key: Str)
    requires IsKey(key)
    ensures COMMA !in key && COLON !in key && !IsSpace(key[0])
  {
  }

  /** A rendered first piece matches the field pattern with its own key and text. */
  lemma MatchRendered(key: Str, text: Str)
    requires IsKey(key) && Tight(text) && LF !in text
    ensures MatchField(TrimSpace([SPACE] + key + [COLON, SPACE] + text)) == Some((key, text))
  {
    KeyBytes(key);
    var x := key + [COLON, SPACE] + text;
    assert [SPACE] + key + [COLON, SPACE] + text == [SPACE] + x && ([SPACE] + x)[1..] == x;
    assert TrimLeft([SPACE] + x) == x;
    if text == [] {
      assert x[..|x| - 1] == key + [COLON] + [];
      assert TrimRight(x) == key + [COLON] + [];
      MatchKey(key, []);
    } else {
      assert TrimRight(x) == x && x == key + [COLON] + ([SPACE] + text);
      assert ([SPACE] + text)[1..] == text;
      MatchKey(key, [SPACE] + text);
    }
  }

  lemma MatchKey(key: Str, rest: Str)
    requires IsKey(key) && LF !in SkipPatternSpace(rest)
    ensures MatchField(key + [COLON] + rest) == Some((key, SkipPatternSpace(rest)))
  {
    KeyBytes(key);
    IndexOfFirst(key, COLON, rest);
    assert (key + [COLON] + rest)[..|key|] == key && (key + [COLON] + rest)[|key| + 1..] == rest;
  }

  /** The pieces of a rendered field: its first one carries the key. */
  lemma RenderedPieces(f: Field)
    requires IsKey(f.key)
    ensures Split(RenderField(f)) == [[SPACE] + f.key + [COLON, SPACE] + Split(f.value)[0]] + Split(f.value)[1..]
  {
    KeyBytes(f.key);
    SplitPrefix([SPACE] + f.key + [COLON, SPACE], f.value);
  }

  lemma FirstPieceParsed(st: State, key: Str, text: Str)
    requires IsKey(key) && Tight(text) && LF !in text && (st.last.Some? ==> st.last.value in st.fields)
    ensures ParsePart(st, [SPACE] + key + [COLON, SPACE] + text) == State(st.message, st.fields[key := text], Some(key))
  {
    MatchRendered(key, text);
  }

  lemma FieldStarts(st: State, f: Field)
    requires CanonicalField(f) && (st.last.Some? ==> st.last.value in st.fields)
    ensures ParseParts(st, Split(RenderField(f)))
         == ParseParts(State(st.message, st.fields[f.key := Split(f.value)[0]], Some(f.key)), Split(f.value)[1..])
  {
    var text, later := Split(f.value)[0], Split(f.value)[1..];
    var first := [SPACE] + f.key + [COLON, SPACE] + text;
    RenderedPieces(f);
    FirstPieceParsed(st, f.key, text);
    ParseConcat(st, [first], later);
    ParseOne(st, first);
  }

  lemma FieldParsed(st: State, f: Field)
    requires CanonicalField(f) && (st.last.Some? ==> st.last.value in st.fields)
    ensures ParseParts(st, Split(RenderField(f))) == State(st.message, st.fields[f.key := f.value], Some(f.key))
  {
    var text, later := Split(f.value)[0], Split(f.value)[1..];
    FieldStarts(st, f);
    ValueContinues(State(st.message, st.fields[f.key := text], Some(f.key)), f.key, later);
    GluedSplit(f.value);
    assert st.fields[f.key := text][f.key := f.value] == st.fields[f.key := f.value];
  }

  lemma MessagePiece(m: seq<Str>, part: Str)
    requires !FieldShaped(part)
    ensures ParsePart(State(m, map[], None), part) == State(m + [TrimSpace(part)], map[], None)
  {
  }

  lemma TrimmedCons(parts: seq<Str>)
    requires parts != []
    ensures Trimmed(parts) == [TrimSpace(parts[0])] + Trimmed(parts[1..])
  {
  }

  lemma {:induction false} MessageParsed(m: seq<Str>, parts: seq<Str>)
    requires forall p :: p in parts ==> !FieldShaped(p)
    ensures ParseParts(State(m, map[], None), parts) == State(m + Trimmed(parts), map[], None)
    decreases |parts|
  {
    if parts == [] {
      assert m + Trimmed(parts) == m;
    } else {
      MessagePiece(m, parts[0]);
      MessageParsed(m + [TrimSpace(parts[0])], parts[1..]);
      TrimmedCons(parts);
      Reassociate(m, [TrimSpace(parts[0])], Trimmed(parts[1..]));
    }
  }

  lemma {:induction false} RenderParsed(m: Str, fields: seq<Field>)
    requires CanonicalMessage(m) && forall i :: 0 <= i < |fields| ==> CanonicalField(fields[i])
    ensures var st := ParseParts(EMPTY, Split(Render(m, fields)));
            st.message == Trimmed(Split(m)) && st.fields == AsMap(fields)
  {
    if fields == [] {
      MessageParsed([], Split(m));
      assert [] + Trimmed(Split(m)) == Trimmed(Split(m));
    } else {
      var init, f := fields[..|fields| - 1], fields[|fields| - 1];
      RenderParsed(m, init);
      SplitConcat(Render(m, init), RenderField(f));
      ParseConcat(EMPTY, Split(Render(m, init)), Split(RenderField(f)));
      FieldParsed(ParseParts(EMPTY, Split(Render(m, init))), f);
    }
  }

  lemma {:induction false} AsMapHolds(fields: seq<Field>)
    requires DistinctKeys(fields)
    ensures AsMap(fields).Keys == set f | f in fields :: f.key
    ensures forall i :: 0 <= i < |fields| ==> AsMap(fields)[fields[i].key] == fields[i].value
  {
    if fields != [] {
      var n := |fields| - 1;
      AsMapHolds(fields[..n]);
      assert fields == fields[..n] + [fields[n]];
    }
  }

  /** Print, then parse: a canonical message and canonical fields with distinct keys come
      back exactly, values with commas included. */
  lemma RoundTrip(m: Str, fields: seq<Field>)
    requires CanonicalMessage(m) && (forall i :: 0 <= i < |fields| ==> CanonicalField(fields[i])) && DistinctKeys(fields)
    ensures var (message, found) := Parsed(Render(m, fields));
            && message == m
            && (fields == [] ==> found == None)
            && (fields != [] ==> found.Some? && found.value.Keys == (set f | f in fields :: f.key)
                                 && forall i :: 0 <= i < |fields| ==> found.value[fields[i].key] == fields[i].value)
  {
    RenderParsed(m, fields);
    AsMapHolds(fields);
    if fields != [] {
      assert fields[0].key in AsMap(fields);
    }
  }

  lemma {:induction false} FieldsStay(st: State, parts: seq<Str>)
    requires st.last.Some? ==> st.last.value in st.fields
    requires st.fields != map[] || exists p :: p in parts && FieldShaped(p)
    ensures ParseParts(st, parts).fields != map[]
    decreases |parts|
  {
    if parts != [] {
      var st1 := ParsePart(st, parts[0]);
      assert parts == [parts[0]] + parts[1..];
      if FieldShaped(parts[0]) {
        assert st1.last.value in st1.fields;
      } else if st.fields != map[] {
        var k :| k in st.fields;
        assert k in st1.fields;
      }
      FieldsStay(st1, parts[1..]);
    }
  }

  /** A text parses to itself without fields exactly when it is a canonical message. */
  lemma PlainMessageIff(m: Str)
    ensures Parsed(m) == (m, None) <==> CanonicalMessage(m)
  {
    if exists p :: p in Split(m) && FieldShaped(p) {
      FieldsStay(EMPTY, Split(m));
    } else {
      MessageParsed([], Split(m));
      assert [] + Trimmed(Split(m)) == Trimmed(Split(m));
    }
  }
}
