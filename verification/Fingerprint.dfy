/** Incident identities: the length-prefixed byte encoding that a fingerprint hashes. Model
    of internal/rule/fingerprint.go; the hash and the configured normalizer are arbitrary
    functions, so the results are about the bytes that are hashed. */
module Fingerprint {
  import opened Common
  import opened ContextBuffer

  const MODE_EXACT := Ascii("exact")
  const MODE_NORMALIZED := Ascii("normalized")
  const MODE_FIELDS := Ascii("fields")

  /** A rule's identity settings; `mode` is the configured text. */
  datatype Rule = Rule(id: Str, mode: Str, fields: seq<Str>, normalize: Str -> Str)

  // --------------------------------------------------------------- writePart

  /** The low k bytes of n, most significant first. */
  function BigEndian(n: nat, k: nat): (r: Str)
    ensures |r| == k
  {
    if k == 0 then [] else BigEndian(n / 256, k - 1) + [(n % 256) as byte]
  }

  function Pow256(k: nat): (p: nat)
    ensures p > 0
  {
    if k == 0 then 1 else 256 * Pow256(k - 1)
  }

  lemma {:induction false} BigEndianValue(n: nat, k: nat)
    requires n < Pow256(k)
    ensures ValueOf(BigEndian(n, k)) == n
  {
    if k > 0 {
      assert BigEndian(n, k)[..k - 1] == BigEndian(n / 256, k - 1);
      BigEndianValue(n / 256, k - 1);
    }
  }

  lemma {:induction false} BigEndianInjective(n: nat, m: nat, k: nat)
    requires n < Pow256(k) && m < Pow256(k) && BigEndian(n, k) == BigEndian(m, k)
    ensures n == m
  {
    if k > 0 {
      var a, b := BigEndian(n, k), BigEndian(m, k);
      assert a[k - 1] == b[k - 1];
      assert a[..k - 1] == BigEndian(n / 256, k - 1) && b[..k - 1] == BigEndian(m / 256, k - 1);
      BigEndianInjective(n / 256, m / 256, k - 1);
    }
  }

  function Part(value: Str): (r: Str)
    ensures |r| == 8 + |value|
  {
    BigEndian(|value|, 8) + value
  }

  /** Writes the eight length bytes from the last to the first, then the value. */
  method WritePart(written: Str, value: Str) returns (r: Str)
    ensures r == written + Part(value)
  {
    var length: nat := |value|;
    var size := new byte[8](_ => 0);
    for index := 8 downto 0
      invariant BigEndian(|value|, 8) == BigEndian(length, index) + size[index..]
    {
      size[index] := (length % 256) as byte;
      length := length / 256;
    }
    assert size[0..] == size[..];
    r := written + size[..] + value;
    assert r == written + (size[..] + value);
  }

  function Encode(parts: seq<Str>): (r: Str) {
    if parts == [] then [] else Part(parts[0]) + Encode(parts[1..])
  }

  lemma {:induction false} EncodeConcat(a: seq<Str>, b: seq<Str>)
    ensures Encode(a + b) == Encode(a) + Encode(b)
  {
    if a == [] {
      assert a + b == b;
    } else {
      assert (a + b)[1..] == a[1..] + b;
      EncodeConcat(a[1..], b);
      Reassociate(Part(a[0]), Encode(a[1..]), Encode(b));
    }
  }

  /** Every length fits the eight bytes written for it. */
  predicate Encodable(parts: seq<Str>) {
    forall i :: 0 <= i < |parts| ==> |parts[i]| < Pow256(8)
  }

  lemma FirstPart(p: Str, x: Str, q: Str, y: Str)
    requires |p| < Pow256(8) && |q| < Pow256(8) && Part(p) + x == Part(q) + y
    ensures p == q && x == y
  {
    var s, t := Part(p) + x, Part(q) + y;
    assert s[..8] == BigEndian(|p|, 8) && t[..8] == BigEndian(|q|, 8);
    BigEndianInjective(|p|, |q|, 8);
    assert s[8..8 + |p|] == p && t[8..8 + |q|] == q;
    assert s[8 + |p|..] == x && t[8 + |q|..] == y;
  }

  /** The encoding is uniquely decodable: it determines the list of parts. */
  lemma {:induction false} EncodeInjective(ps: seq<Str>, qs: seq<Str>)
    requires Encodable(ps) && Encodable(qs) && Encode(ps) == Encode(qs)
    ensures ps == qs
  {
    if ps != [] && qs != [] {
      FirstPart(ps[0], Encode(ps[1..]), qs[0], Encode(qs[1..]));
      EncodeInjective(ps[1..], qs[1..]);
      assert ps == [ps[0]] + ps[1..] && qs == [qs[0]] + qs[1..];
    }
  }

  // ------------------------------------------------------------ sorted fields

  predicate InOrder(s: seq<Str>) {
    forall i, j :: 0 <= i < j < |s| ==> !Less(s[j], s[i])
  }

  function InsertString(s: seq<Str>, x: Str): (r: seq<Str>) {
    if s == [] || Less(x, s[0]) then [x] + s else [s[0]] + InsertString(s[1..], x)
  }

  /** sort.Strings: the one ordered rearrangement (see SortIsTheSort). */
  function SortStrings(s: seq<Str>): (r: seq<Str>) {
    if s == [] then [] else InsertString(SortStrings(s[1..]), s[0])
  }

  lemma NotLessTransitive(a: Str, b: Str, c: Str)
    requires !Less(b, a) && !Less(c, b)
    ensures !Less(c, a)
  {
    LessTrichotomy(a, b);
    LessTrichotomy(b, c);
    LessTrichotomy(a, c);
    if a != b && b != c {
      LessTransitive(a, b, c);
    }
  }

  lemma {:induction false} InsertKeepsOrder(s: seq<Str>, x: Str)
    requires InOrder(s)
    ensures InOrder(InsertString(s, x)) && multiset(InsertString(s, x)) == multiset(s) + multiset{x}
  {
    if s != [] && !Less(x, s[0]) {
      InsertKeepsOrder(s[1..], x);
      var r := InsertString(s[1..], x);
      assert s == [s[0]] + s[1..];
      forall y | y in r ensures !Less(y, s[0]) {
        assert y in multiset(r);
      }
      OrderedCons(s[0], r);
    } else if s != [] {
      LessTrichotomy(x, s[0]);
      forall y | y in s ensures !Less(y, x) {
        if y != s[0] {
          var i :| 0 <= i < |s| && s[i] == y;
          NotLessTransitive(x, s[0], y);
        }
      }
      OrderedCons(x, s);
    }
  }

  lemma OrderedCons(x: Str, s: seq<Str>)
    requires InOrder(s) && forall y :: y in s ==> !Less(y, x)
    ensures InOrder([x] + s)
  {
    forall i, j | 0 <= i < j < |[x] + s| ensures !Less(([x] + s)[j], ([x] + s)[i]) {
      assert ([x] + s)[j] == s[j - 1] && s[j - 1] in s;
    }
  }

  lemma {:induction false} SortIsTheSort(s: seq<Str>)
    ensures InOrder(SortStrings(s)) && multiset(SortStrings(s)) == multiset(s)
  {
    if s != [] {
      SortIsTheSort(s[1..]);
      InsertKeepsOrder(SortStrings(s[1..]), s[0]);
      assert s == [s[0]] + s[1..];
    }
  }

  lemma HeadIsLeast(a: seq<Str>, b: seq<Str>)
    requires InOrder(a) && a != [] && b != [] && multiset(a) == multiset(b)
    ensures !Less(b[0], a[0])
  {
    assert b[0] in multiset(a);
    var i :| 0 <= i < |a| && a[i] == b[0];
    LessTrichotomy(a[0], b[0]);
  }

  lemma TailElements(a: seq<Str>)
    requires a != []
    ensures multiset(a[1..]) == multiset(a) - multiset{a[0]}
  {
    assert a == [a[0]] + a[1..];
  }

  /** Two ordered lists with the same elements are the same list. */
  lemma {:induction false} OrderIsUnique(a: seq<Str>, b: seq<Str>)
    requires InOrder(a) && InOrder(b) && multiset(a) == multiset(b)
    ensures a == b
  {
    assert |multiset(a)| == |a| && |multiset(b)| == |b|;
    if a != [] {
      HeadIsLeast(a, b);
      HeadIsLeast(b, a);
      LessTrichotomy(a[0], b[0]);
      TailElements(a);
      TailElements(b);
      OrderIsUnique(a[1..], b[1..]);
      assert a == [a[0]] + a[1..] && b == [b[0]] + b[1..];
    }
  }

  // -------------------------------------------------------------- fingerprint

  function RawIdentity(e: LogEntry): Str { if e.raw != [] then e.raw else e.message }

  function FieldValue(ruleId: Str, e: LogEntry, field: Str): Str {
    if field == Ascii("rule") then ruleId
    else if field == Ascii("container") then e.containerName
    else if field in e.fields then e.fields[field]
    else []
  }

  function FieldParts(ruleId: Str, e: LogEntry, fields: seq<Str>): (r: seq<Str>)
    ensures |r| == 2 * |fields|
  {
    if fields == [] then [] else [fields[0], FieldValue(ruleId, e, fields[0])] + FieldParts(ruleId, e, fields[1..])
  }

  function Identity(r: Rule, e: LogEntry): (parts: seq<Str>) {
    if r.mode == MODE_EXACT then [Ascii("raw"), RawIdentity(e)]
    else if r.mode == MODE_NORMALIZED then [Ascii("message"), r.normalize(e.message)]
    else if r.mode == MODE_FIELDS then FieldParts(r.id, e, SortStrings(r.fields))
    else []
  }

  function Parts(r: Rule, e: LogEntry): (parts: seq<Str>) {
    CommonParts(r, e) + Identity(r, e)
  }

  method WriteParts(written: Str, parts: seq<Str>) returns (r: Str)
    ensures r == written + Encode(parts)
  {
    r := written;
    for i := 0 to |parts|
      invariant r == written + Encode(parts[..i])
    {
      assert parts[..i + 1] == parts[..i] + [parts[i]];
      EncodeConcat(parts[..i], [parts[i]]);
      assert Encode([parts[i]]) == Part(parts[i]) by { assert [parts[i]][1..] == []; }
      r := WritePart(r, parts[i]);
    }
    assert parts[..|parts|] == parts;
  }

  /** The mode-specific parts, written behind the common ones. */
  method WriteIdentity(written: Str, r: Rule, e: LogEntry) returns (bytes: Str)
    ensures bytes == written + Encode(Identity(r, e))
  {
    bytes := written;
    if r.mode == MODE_EXACT {
      bytes := WriteParts(bytes, [Ascii("raw"), RawIdentity(e)]);
    } else if r.mode == MODE_NORMALIZED {
      bytes := WriteParts(bytes, [Ascii("message"), r.normalize(e.message)]);
    } else if r.mode == MODE_FIELDS {
      bytes := WriteParts(bytes, FieldParts(r.id, e, SortStrings(r.fields)));
    }
  }

  function CommonParts(r: Rule, e: LogEntry): (parts: seq<Str>) {
    [Ascii("rule"), r.id, Ascii("container"), e.containerName, Ascii("mode"), r.mode]
  }

  /** The bytes written into the hash. */
  method FingerprintBytes(r: Rule, e: LogEntry) returns (bytes: Str)
    ensures bytes == Encode(Parts(r, e))
  {
    bytes := WriteParts([], CommonParts(r, e));
    bytes := WriteIdentity(bytes, r, e);
    EncodeConcat(CommonParts(r, e), Identity(r, e));
  }

  /** Equal bytes force equal rule, container, mode and identity. */
  lemma FingerprintDeterminesIdentity(r: Rule, e: LogEntry, r': Rule, e': LogEntry)
    requires Encodable(Parts(r, e)) && Encodable(Parts(r', e'))
    requires Encode(Parts(r, e)) == Encode(Parts(r', e'))
    ensures r.id == r'.id && e.containerName == e'.containerName && r.mode == r'.mode && Identity(r, e) == Identity(r', e')
  {
    EncodeInjective(Parts(r, e), Parts(r', e'));
    var a, b := Parts(r, e), Parts(r', e');
    assert a[1] == b[1] && a[3] == b[3] && a[5] == b[5];
    assert a[6..] == Identity(r, e) && b[6..] == Identity(r', e');
  }

  lemma {:induction false} FieldPartsAgree(id: Str, e: LogEntry, fields: seq<Str>, e': LogEntry, fields': seq<Str>)
    ensures FieldParts(id, e, fields) == FieldParts(id, e', fields')
       <==> fields == fields' && forall f :: f in fields ==> FieldValue(id, e, f) == FieldValue(id, e', f)
  {
    if fields != [] && fields' != [] {
      var f, rest, f', rest' := fields[0], fields[1..], fields'[0], fields'[1..];
      FieldPartsAgree(id, e, rest, e', rest');
      assert fields == [f] + rest && fields' == [f'] + rest';
      var a, b := FieldParts(id, e, fields), FieldParts(id, e', fields');
      assert a == [f, FieldValue(id, e, f)] + FieldParts(id, e, rest) && b == [f', FieldValue(id, e', f')] + FieldParts(id, e', rest');
      assert a[0] == f && b[0] == f' && a[1] == FieldValue(id, e, f) && b[1] == FieldValue(id, e', f');
      assert a[2..] == FieldParts(id, e, rest) && b[2..] == FieldParts(id, e', rest');
    }
  }

  /** What a mode tells incidents of the same rule and container by: the line (the message if
      there is no raw line); the normalized message; the configured fields, read from the
      record, empty if missing; or, in any other mode, nothing. */
  ghost predicate SameIncident(r: Rule, e: LogEntry, r': Rule, e': LogEntry) {
    if r.mode == Ascii("exact") then
      (if e.raw != [] then e.raw else e.message) == (if e'.raw != [] then e'.raw else e'.message)
    else if r.mode == Ascii("normalized") then r.normalize(e.message) == r'.normalize(e'.message)
    else if r.mode == Ascii("fields") then multiset(r.fields) == multiset(r'.fields) && SameFields(r.fields, e, e')
    else true
  }

  ghost predicate SameFields(fields: seq<Str>, e: LogEntry, e': LogEntry) {
    forall f :: f in fields && f != Ascii("rule") && f != Ascii("container") ==>
      (if f in e.fields then e.fields[f] else []) == (if f in e'.fields then e'.fields[f] else [])
  }

  lemma SortedTogether(a: seq<Str>, b: seq<Str>)
    ensures SortStrings(a) == SortStrings(b) <==> multiset(a) == multiset(b)
    ensures forall f :: f in SortStrings(a) <==> f in a
  {
    SortIsTheSort(a);
    SortIsTheSort(b);
    assert forall f :: f in a <==> f in multiset(a);
    assert forall f :: f in SortStrings(a) <==> f in multiset(SortStrings(a));
    if multiset(a) == multiset(b) {
      OrderIsUnique(SortStrings(a), SortStrings(b));
    }
  }

  lemma FieldsAgree(id: Str, fields: seq<Str>, e: LogEntry, fields': seq<Str>, e': LogEntry)
    requires e.containerName == e'.containerName
    ensures FieldParts(id, e, SortStrings(fields)) == FieldParts(id, e', SortStrings(fields'))
       <==> multiset(fields) == multiset(fields') && SameFields(fields, e, e')
  {
    FieldPartsAgree(id, e, SortStrings(fields), e', SortStrings(fields'));
    SortedTogether(fields, fields');
  }

  lemma IdentityAgrees(r: Rule, e: LogEntry, r': Rule, e': LogEntry)
    requires r.id == r'.id && e.containerName == e'.containerName && r.mode == r'.mode
    ensures Identity(r, e) == Identity(r', e') <==> SameIncident(r, e, r', e')
  {
    ModesDiffer();
    if r.mode == MODE_FIELDS {
      FieldsAgree(r.id, r.fields, e, r'.fields, e');
    } else if r.mode == MODE_EXACT || r.mode == MODE_NORMALIZED {
      var a, b := Identity(r, e), Identity(r', e');
      assert |a| == |b| == 2 && a[0] == b[0];
    }
  }

  /** Two fingerprints hash the same bytes if and only if the rule, the container and the mode
      agree and the incidents agree in what the mode tells them by. */
  lemma SameFingerprintIff(r: Rule, e: LogEntry, r': Rule, e': LogEntry)
    requires Encodable(Parts(r, e)) && Encodable(Parts(r', e'))
    ensures Encode(Parts(r, e)) == Encode(Parts(r', e'))
       <==> r.id == r'.id && e.containerName == e'.containerName && r.mode == r'.mode && SameIncident(r, e, r', e')
  {
    if Encode(Parts(r, e)) == Encode(Parts(r', e')) {
      FingerprintDeterminesIdentity(r, e, r', e');
    }
    if r.id == r'.id && e.containerName == e'.containerName && r.mode == r'.mode {
      IdentityAgrees(r, e, r', e');
    }
  }

  /** In fields mode two entries are the same incident exactly when the container and every
      selected field agree; a missing field reads as empty. */
  lemma SameIncidentIff(r: Rule, e: LogEntry, e': LogEntry)
    requires r.mode == MODE_FIELDS && Encodable(Parts(r, e)) && Encodable(Parts(r, e'))
    ensures Encode(Parts(r, e)) == Encode(Parts(r, e')) <==> e.containerName == e'.containerName && SameFields(r.fields, e, e')
  {
    ModesDiffer();
    SameFingerprintIff(r, e, r, e');
  }

  lemma ModesDiffer()
    ensures MODE_FIELDS != MODE_EXACT && MODE_FIELDS != MODE_NORMALIZED && MODE_EXACT != MODE_NORMALIZED
  {
    assert |MODE_FIELDS| == 6 && |MODE_EXACT| == 5 && |MODE_NORMALIZED| == 10;
  }

  /** The order in which the fields are configured does not matter. */
  lemma FieldOrderDoesNotMatter(r: Rule, fields: seq<Str>, e: LogEntry)
    requires multiset(r.fields) == multiset(fields)
    ensures Encode(Parts(r, e)) == Encode(Parts(r.(fields := fields), e))
  {
    SortIsTheSort(r.fields);
    SortIsTheSort(fields);
    OrderIsUnique(SortStrings(r.fields), SortStrings(fields));
  }
}
