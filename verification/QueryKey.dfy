/** The key material of a QUERY cache identity: a self-delimiting encoding that two identities
    share exactly when they agree on everything the cache must tell apart.
 */
module QueryKey {
  import opened Basics

  /** Byte strings and field lists as they fit a machine. */
  type Blob = s: seq<Byte> | |s| <= U64_MAX
  type Fields = s: seq<Field> | |s| <= U64_MAX

  datatype Field = Field(name: Blob, value: Blob)

  datatype Representation = Representation(
    scheme: Blob,
    authority: Blob,
    uri: Blob,
    bodyLength: Word,
    bodyDigest: Blob,
    contentHeaders: Fields,
    trailers: Fields)

  datatype Identity = Identity(original: Representation, effective: Representation)

  // ----- big-endian words

  function Pow256(k: nat): nat {
    if k == 0 then 1 else 256 * Pow256(k - 1)
  }

  function BigEndian(n: nat, k: nat): (s: seq<Byte>)
    ensures |s| == k
  {
    if k == 0 then [] else BigEndian(n / 256, k - 1) + [n % 256]
  }

  function Value(s: seq<Byte>): nat {
    if s == [] then 0 else 256 * Value(s[..|s| - 1]) + s[|s| - 1]
  }

  lemma {:induction false} BigEndianValue(n: nat, k: nat)
    requires n < Pow256(k)
    ensures Value(BigEndian(n, k)) == n
  {
    if k > 0 {
      BigEndianValue(n / 256, k - 1);
      assert BigEndian(n, k)[..k - 1] == BigEndian(n / 256, k - 1);
    }
  }

  lemma WordsFit()
    ensures Pow256(8) == U64_MAX + 1
  {
    assert Pow256(2) == 65536;
    assert Pow256(4) == 65536 * 65536;
    assert Pow256(6) == 65536 * 65536 * 65536;
  }

  function WordBytes(n: Word): (s: seq<Byte>)
    ensures |s| == 8
  {
    BigEndian(n, 8)
  }

  lemma WordBytesInjective(m: Word, n: Word)
    requires WordBytes(m) == WordBytes(n)
    ensures m == n
  {
    WordsFit();
    BigEndianValue(m, 8);
    BigEndianValue(n, 8);
  }

  // ----- the order of field names

  /** Lexicographic order of byte strings. */
  predicate Below(a: seq<Byte>, b: seq<Byte>) {
    || a == []
    || (b != [] && (a[0] < b[0] || (a[0] == b[0] && Below(a[1..], b[1..]))))
  }

  lemma {:induction false} BelowTotal(a: seq<Byte>, b: seq<Byte>)
    ensures Below(a, b) || Below(b, a)
    ensures Below(a, b) && Below(b, a) ==> a == b
  {
    if a != [] && b != [] {
      BelowTotal(a[1..], b[1..]);
      if a[0] == b[0] && a[1..] == b[1..] {
        assert a == [a[0]] + a[1..] && b == [b[0]] + b[1..];
      }
    }
  }

  lemma {:induction false} BelowTransitive(a: seq<Byte>, b: seq<Byte>, c: seq<Byte>)
    requires Below(a, b) && Below(b, c)
    ensures Below(a, c)
  {
    if a != [] && a[0] == b[0] == c[0] {
      BelowTransitive(a[1..], b[1..], c[1..]);
    }
  }

  /** `a` and `b` agree up to position `i`, where `a` ends or is smaller. */
  ghost predicate Differ(a: seq<Byte>, b: seq<Byte>, i: int) {
    && 0 <= i <= |a| && i <= |b| && (forall j :: 0 <= j < i ==> a[j] == b[j])
    && (i == |a| || (i < |b| && a[i] < b[i]))
  }

  /** The order is decided by the first difference; a name precedes its extensions. */
  lemma {:induction false} BelowExact(a: seq<Byte>, b: seq<Byte>)
    ensures Below(a, b) <==> exists i :: Differ(a, b, i)
  {
    if a == [] || (b != [] && a[0] < b[0]) {
      assert Differ(a, b, 0);
    } else if b != [] && a[0] == b[0] {
      BelowExact(a[1..], b[1..]);
      if i :| Differ(a[1..], b[1..], i) {
        assert forall j :: 0 < j < i + 1 ==> a[j] == a[1..][j - 1] && b[j] == b[1..][j - 1];
        assert Differ(a, b, i + 1);
      }
      if i :| Differ(a, b, i) {
        assert i > 0;
        assert forall j :: 0 <= j < i - 1 ==> a[1..][j] == a[j + 1] && b[1..][j] == b[j + 1];
        assert Differ(a[1..], b[1..], i - 1);
      }
    }
  }

  // ----- the stable sort by name

  ghost predicate Sorted(fields: seq<Field>) {
    forall i, j :: 0 <= i < j < |fields| ==> Below(fields[i].name, fields[j].name)
  }

  /** The values under one name, in order. */
  function ValuesOf(fields: seq<Field>, name: Blob): seq<Blob> {
    if fields == [] then []
    else (if fields[0].name == name then [fields[0].value] else []) + ValuesOf(fields[1..], name)
  }

  function Insert(f: Field, fields: seq<Field>): (r: seq<Field>)
    ensures |r| == |fields| + 1
  {
    if fields == [] || Below(f.name, fields[0].name) then [f] + fields
    else [fields[0]] + Insert(f, fields[1..])
  }

  function StableSort(fields: seq<Field>): (r: seq<Field>)
    ensures |r| == |fields|
  {
    if fields == [] then [] else Insert(fields[0], StableSort(fields[1..]))
  }

  lemma SortedCons(f: Field, fields: seq<Field>)
    requires Sorted(fields)
    requires fields != [] ==> Below(f.name, fields[0].name)
    ensures Sorted([f] + fields)
  {
    var all := [f] + fields;
    forall i, j | 0 <= i < j < |all|
      ensures Below(all[i].name, all[j].name)
    {
      assert all[j] == fields[j - 1];
      if i == 0 && j > 1 {
        BelowTransitive(f.name, fields[0].name, fields[j - 1].name);
      }
    }
  }

  lemma {:induction false} InsertSorted(f: Field, fields: seq<Field>)
    requires Sorted(fields)
    ensures Sorted(Insert(f, fields))
    ensures Insert(f, fields)[0] == f || (fields != [] && Insert(f, fields)[0] == fields[0])
  {
    if fields == [] || Below(f.name, fields[0].name) {
      SortedCons(f, fields);
    } else {
      BelowTotal(f.name, fields[0].name);
      InsertSorted(f, fields[1..]);
      SortedCons(fields[0], Insert(f, fields[1..]));
    }
  }

  lemma ValuesCons(f: Field, fields: seq<Field>, name: Blob)
    ensures ValuesOf([f] + fields, name) == (if f.name == name then [f.value] else []) + ValuesOf(fields, name)
  {
    assert ([f] + fields)[1..] == fields;
  }

  /** Inserting puts a value before the others of its own name and moves no other name. */
  lemma {:induction false} InsertValues(f: Field, fields: seq<Field>, name: Blob)
    requires Sorted(fields)
    ensures ValuesOf(Insert(f, fields), name) == (if f.name == name then [f.value] else []) + ValuesOf(fields, name)
  {
    if fields == [] || Below(f.name, fields[0].name) {
      ValuesCons(f, fields, name);
    } else {
      var head, rest := fields[0], fields[1..];
      BelowTotal(f.name, head.name);
      InsertValues(f, rest, name);
      ValuesCons(head, Insert(f, rest), name);
      assert fields == [head] + rest;
      ValuesCons(head, rest, name);
    }
  }

  /** The sort orders names and keeps the order of values within each name. */
  lemma {:induction false} StableSortCorrect(fields: seq<Field>, name: Blob)
    ensures Sorted(StableSort(fields))
    ensures ValuesOf(StableSort(fields), name) == ValuesOf(fields, name)
  {
    if fields == [] {
    } else {
      StableSortCorrect(fields[1..], name);
      InsertSorted(fields[0], StableSort(fields[1..]));
      InsertValues(fields[0], StableSort(fields[1..]), name);
    }
  }

  ghost predicate SameValues(a: seq<Field>, b: seq<Field>) {
    forall name :: ValuesOf(a, name) == ValuesOf(b, name)
  }

  lemma {:induction false} ValuesPresent(fields: seq<Field>, name: Blob)
    ensures ValuesOf(fields, name) != [] <==> exists i :: 0 <= i < |fields| && fields[i].name == name
  {
    if fields == [] {
    } else {
      ValuesPresent(fields[1..], name);
      assert forall i :: 0 <= i < |fields| - 1 ==> fields[1..][i] == fields[i + 1];
      if i :| 0 <= i < |fields| && fields[i].name == name && i > 0 {
        assert fields[1..][i - 1].name == name;
      }
    }
  }

  /** A sorted list is determined by its values per name. */
  lemma {:induction false} SortedDetermined(a: seq<Field>, b: seq<Field>)
    requires Sorted(a) && Sorted(b)
    requires SameValues(a, b)
    ensures a == b
  {
    if a == [] {
      if b != [] {
        ValuesPresent(b, b[0].name);
      }
    } else {
      SameHead(a, b);
      forall name
        ensures ValuesOf(a[1..], name) == ValuesOf(b[1..], name)
      {
        TailValues(a, name);
        TailValues(b, name);
        assert ValuesOf(a, name) == ValuesOf(b, name);
      }
      SortedDetermined(a[1..], b[1..]);
      assert a == [a[0]] + a[1..] && b == [b[0]] + b[1..];
    }
  }

  lemma TailValues(fields: seq<Field>, name: Blob)
    requires fields != []
    ensures ValuesOf(fields[1..], name) == if fields[0].name == name then ValuesOf(fields, name)[1..]
            else ValuesOf(fields, name)
  {
  }

  lemma SameHead(a: seq<Field>, b: seq<Field>)
    requires Sorted(a) && Sorted(b) && a != []
    requires SameValues(a, b)
    ensures b != [] && a[0] == b[0]
  {
    assert ValuesOf(a, a[0].name) == ValuesOf(b, a[0].name);
    ValuesPresent(b, a[0].name);
    var i :| 0 <= i < |b| && b[i].name == a[0].name;
    assert ValuesOf(a, b[0].name) == ValuesOf(b, b[0].name);
    ValuesPresent(a, b[0].name);
    var j :| 0 <= j < |a| && a[j].name == b[0].name;
    assert Below(b[0].name, a[0].name) by {
      BelowTotal(b[0].name, b[0].name);
    }
    assert Below(a[0].name, b[0].name) by {
      BelowTotal(a[0].name, a[0].name);
    }
    BelowTotal(a[0].name, b[0].name);
    var name := a[0].name;
    assert ValuesOf(a, name)[0] == a[0].value && ValuesOf(b, name)[0] == b[0].value;
  }

  // ----- the encoding

  function EncodeField(value: Blob): seq<Byte> {
    WordBytes(|value|) + value
  }

  function EncodeSorted(fields: seq<Field>): seq<Byte> {
    if fields == [] then []
    else EncodeField(fields[0].name) + EncodeField(fields[0].value) + EncodeSorted(fields[1..])
  }

  function EncodeHeaders(headers: Fields): seq<Byte> {
    EncodeField(WordBytes(|headers|)) + EncodeSorted(StableSort(headers))
  }

  function EncodeRepresentation(r: Representation): seq<Byte> {
    EncodeField(r.scheme) + EncodeField(r.authority) + EncodeField(r.uri)
    + EncodeField(WordBytes(r.bodyLength)) + EncodeField(r.bodyDigest)
    + EncodeHeaders(r.contentHeaders) + EncodeHeaders(r.trailers)
  }

  function KeyMaterial(id: Identity): seq<Byte> {
    EncodeRepresentation(id.original) + EncodeRepresentation(id.effective)
  }

  // ----- what two identities have in common

  /** Equal as the cache tells representations apart: all parts equal, and under each header
      name the same values in the same order; the order of different names is immaterial. */
  ghost predicate SameRepresentation(a: Representation, b: Representation) {
    && a.scheme == b.scheme && a.authority == b.authority && a.uri == b.uri
    && a.bodyLength == b.bodyLength && a.bodyDigest == b.bodyDigest
    && SameValues(a.contentHeaders, b.contentHeaders)
    && SameValues(a.trailers, b.trailers)
  }

  ghost predicate SameIdentity(a: Identity, b: Identity) {
    SameRepresentation(a.original, b.original) && SameRepresentation(a.effective, b.effective)
  }

  // ----- each layer can be read back from any stream it starts

  lemma SplitAt(a: seq<Byte>, x: seq<Byte>, b: seq<Byte>, y: seq<Byte>)
    requires a + x == b + y && |a| == |b|
    ensures a == b && x == y
  {
    assert a == (a + x)[..|a|] && b == (b + y)[..|b|];
    assert x == (a + x)[|a|..] && y == (b + y)[|b|..];
  }

  lemma Assoc(a: seq<Byte>, b: seq<Byte>, c: seq<Byte>)
    ensures (a + b) + c == a + (b + c)
  {
  }

  lemma Assoc4(a: seq<Byte>, b: seq<Byte>, c: seq<Byte>, d: seq<Byte>)
    ensures ((a + b) + c) + d == a + (b + (c + d))
  {
  }

  lemma FieldPrefixFree(v: Blob, x: seq<Byte>, w: Blob, y: seq<Byte>)
    requires EncodeField(v) + x == EncodeField(w) + y
    ensures v == w && x == y
  {
    assert EncodeField(v) + x == WordBytes(|v|) + (v + x);
    assert EncodeField(w) + y == WordBytes(|w|) + (w + y);
    SplitAt(WordBytes(|v|), v + x, WordBytes(|w|), w + y);
    WordBytesInjective(|v|, |w|);
    SplitAt(v, x, w, y);
  }

  lemma SortedUnrolled(fields: seq<Field>, x: seq<Byte>)
    requires fields != []
    ensures EncodeSorted(fields) + x
            == EncodeField(fields[0].name) + (EncodeField(fields[0].value) + (EncodeSorted(fields[1..]) + x))
  {
    Assoc4(EncodeField(fields[0].name), EncodeField(fields[0].value), EncodeSorted(fields[1..]), x);
  }

  lemma {:induction false} SortedPrefixFree(a: seq<Field>, x: seq<Byte>, b: seq<Field>, y: seq<Byte>)
    requires |a| == |b|
    requires EncodeSorted(a) + x == EncodeSorted(b) + y
    ensures a == b && x == y
  {
    if a == [] {
      assert [] + x == x && [] + y == y;
    } else {
      var restA, restB := EncodeSorted(a[1..]) + x, EncodeSorted(b[1..]) + y;
      SortedUnrolled(a, x);
      SortedUnrolled(b, y);
      FieldPrefixFree(a[0].name, EncodeField(a[0].value) + restA, b[0].name, EncodeField(b[0].value) + restB);
      FieldPrefixFree(a[0].value, restA, b[0].value, restB);
      SortedPrefixFree(a[1..], x, b[1..], y);
      assert a == [a[0]] + a[1..] && b == [b[0]] + b[1..];
    }
  }

  lemma HeadersPrefixFree(a: Fields, x: seq<Byte>, b: Fields, y: seq<Byte>)
    requires EncodeHeaders(a) + x == EncodeHeaders(b) + y
    ensures SameValues(a, b) && x == y
  {
    var sortedA, sortedB := StableSort(a), StableSort(b);
    Assoc(EncodeField(WordBytes(|a|)), EncodeSorted(sortedA), x);
    Assoc(EncodeField(WordBytes(|b|)), EncodeSorted(sortedB), y);
    FieldPrefixFree(WordBytes(|a|), EncodeSorted(sortedA) + x, WordBytes(|b|), EncodeSorted(sortedB) + y);
    WordBytesInjective(|a|, |b|);
    SortedPrefixFree(sortedA, x, sortedB, y);
    forall name
      ensures ValuesOf(a, name) == ValuesOf(b, name)
    {
      StableSortCorrect(a, name);
      StableSortCorrect(b, name);
    }
  }

  lemma RepresentationPrefixFree(a: Representation, x: seq<Byte>, b: Representation, y: seq<Byte>)
    requires EncodeRepresentation(a) + x == EncodeRepresentation(b) + y
    ensures SameRepresentation(a, b) && x == y
  {
    Unrolled(a, x);
    Unrolled(b, y);
    FieldPrefixFree(a.scheme, AfterScheme(a, x), b.scheme, AfterScheme(b, y));
    FieldPrefixFree(a.authority, AfterAuthority(a, x), b.authority, AfterAuthority(b, y));
    FieldPrefixFree(a.uri, AfterUri(a, x), b.uri, AfterUri(b, y));
    FieldPrefixFree(WordBytes(a.bodyLength), AfterLength(a, x), WordBytes(b.bodyLength), AfterLength(b, y));
    WordBytesInjective(a.bodyLength, b.bodyLength);
    FieldPrefixFree(a.bodyDigest, AfterDigest(a, x), b.bodyDigest, AfterDigest(b, y));
    HeadersPrefixFree(a.contentHeaders, EncodeHeaders(a.trailers) + x, b.contentHeaders, EncodeHeaders(b.trailers) + y);
    HeadersPrefixFree(a.trailers, x, b.trailers, y);
  }

  // The stream that follows each part of a representation.

  function AfterDigest(r: Representation, x: seq<Byte>): seq<Byte> {
    EncodeHeaders(r.contentHeaders) + (EncodeHeaders(r.trailers) + x)
  }

  function AfterLength(r: Representation, x: seq<Byte>): seq<Byte> {
    EncodeField(r.bodyDigest) + AfterDigest(r, x)
  }

  function AfterUri(r: Representation, x: seq<Byte>): seq<Byte> {
    EncodeField(WordBytes(r.bodyLength)) + AfterLength(r, x)
  }

  function AfterAuthority(r: Representation, x: seq<Byte>): seq<Byte> {
    EncodeField(r.uri) + AfterUri(r, x)
  }

  function AfterScheme(r: Representation, x: seq<Byte>): seq<Byte> {
    EncodeField(r.authority) + AfterAuthority(r, x)
  }

  lemma Unrolled(r: Representation, x: seq<Byte>)
    ensures EncodeRepresentation(r) + x == EncodeField(r.scheme) + AfterScheme(r, x)
  {
    Nested(EncodeField(r.scheme), EncodeField(r.authority), EncodeField(r.uri), EncodeField(WordBytes(r.bodyLength)),
      EncodeField(r.bodyDigest), EncodeHeaders(r.contentHeaders), EncodeHeaders(r.trailers), x);
  }

  lemma Nested(a: seq<Byte>, b: seq<Byte>, c: seq<Byte>, d: seq<Byte>, e: seq<Byte>, f: seq<Byte>, g: seq<Byte>,
               x: seq<Byte>)
    ensures a + b + c + d + e + f + g + x == a + (b + (c + (d + (e + (f + (g + x))))))
  {
    Assoc(a + b + c + d + e + f, g, x);
    Assoc(a + b + c + d + e, f, g + x);
    Assoc(a + b + c + d, e, f + (g + x));
    Assoc(a + b + c, d, e + (f + (g + x)));
    Assoc(a + b, c, d + (e + (f + (g + x))));
    Assoc(a, b, c + (d + (e + (f + (g + x)))));
  }

  lemma SameHeadersEncodeAlike(a: Fields, b: Fields)
    requires SameValues(a, b)
    ensures EncodeHeaders(a) == EncodeHeaders(b)
  {
    forall name
      ensures ValuesOf(StableSort(a), name) == ValuesOf(StableSort(b), name)
    {
      StableSortCorrect(a, name);
      StableSortCorrect(b, name);
      assert ValuesOf(a, name) == ValuesOf(b, name);
    }
    StableSortCorrect(a, []);
    StableSortCorrect(b, []);
    SortedDetermined(StableSort(a), StableSort(b));
  }

  /** No key material is a proper prefix of another. */
  lemma KeyPrefixFree(a: Identity, x: seq<Byte>, b: Identity, y: seq<Byte>)
    requires KeyMaterial(a) + x == KeyMaterial(b) + y
    ensures SameIdentity(a, b) && x == y
  {
    Assoc(EncodeRepresentation(a.original), EncodeRepresentation(a.effective), x);
    Assoc(EncodeRepresentation(b.original), EncodeRepresentation(b.effective), y);
    RepresentationPrefixFree(a.original, EncodeRepresentation(a.effective) + x, b.original,
      EncodeRepresentation(b.effective) + y);
    RepresentationPrefixFree(a.effective, x, b.effective, y);
  }

  /** Two identities share their key material exactly when the cache must not tell them apart. */
  lemma KeyDeterminesIdentity(a: Identity, b: Identity)
    ensures KeyMaterial(a) == KeyMaterial(b) <==> SameIdentity(a, b)
  {
    if KeyMaterial(a) == KeyMaterial(b) {
      assert KeyMaterial(a) + [] == KeyMaterial(b) + [];
      KeyPrefixFree(a, [], b, []);
    }
    if SameIdentity(a, b) {
      SameHeadersEncodeAlike(a.original.contentHeaders, b.original.contentHeaders);
      SameHeadersEncodeAlike(a.original.trailers, b.original.trailers);
      SameHeadersEncodeAlike(a.effective.contentHeaders, b.effective.contentHeaders);
      SameHeadersEncodeAlike(a.effective.trailers, b.effective.trailers);
    }
  }

  // ----- the appending loops

  method AppendField(output: seq<Byte>, value: Blob) returns (output': seq<Byte>)
    ensures output' == output + EncodeField(value)
  {
    output' := output + WordBytes(|value|);
    output' := output' + value;
  }

  method AppendHeaders(output: seq<Byte>, headers: Fields) returns (output': seq<Byte>)
    ensures output' == output + EncodeHeaders(headers)
  {
    var fields := StableSort(headers);
    output' := AppendField(output, WordBytes(|fields|));
    output' := AppendSorted(output', fields);
    Assoc(output, EncodeField(WordBytes(|fields|)), EncodeSorted(fields));
  }

  method AppendSorted(output: seq<Byte>, fields: seq<Field>) returns (output': seq<Byte>)
    ensures output' == output + EncodeSorted(fields)
  {
    output' := output;
    for i := 0 to |fields|
      invariant output' + EncodeSorted(fields[i..]) == output + EncodeSorted(fields)
    {
      SortedStep(output', fields[i..]);
      assert fields[i..][1..] == fields[i + 1..];
      output' := AppendField(output', fields[i].name);
      output' := AppendField(output', fields[i].value);
    }
    assert output' + [] == output';
  }

  lemma SortedStep(output: seq<Byte>, fields: seq<Field>)
    requires fields != []
    ensures output + EncodeSorted(fields)
            == ((output + EncodeField(fields[0].name)) + EncodeField(fields[0].value)) + EncodeSorted(fields[1..])
  {
    var n, v, r := EncodeField(fields[0].name), EncodeField(fields[0].value), EncodeSorted(fields[1..]);
    Assoc4(output, n, v, r);
    Assoc(n, v, r);
  }

  method AppendRepresentation(output: seq<Byte>, r: Representation) returns (output': seq<Byte>)
    ensures output' == output + EncodeRepresentation(r)
  {
    output' := AppendField(output, r.scheme);
    output' := AppendField(output', r.authority);
    output' := AppendField(output', r.uri);
    output' := AppendField(output', WordBytes(r.bodyLength));
    output' := AppendField(output', r.bodyDigest);
    output' := AppendHeaders(output', r.contentHeaders);
    output' := AppendHeaders(output', r.trailers);
    Assoc8(output, EncodeField(r.scheme), EncodeField(r.authority), EncodeField(r.uri),
      EncodeField(WordBytes(r.bodyLength)), EncodeField(r.bodyDigest),
      EncodeHeaders(r.contentHeaders), EncodeHeaders(r.trailers));
  }

  lemma Assoc8(o: seq<Byte>, a: seq<Byte>, b: seq<Byte>, c: seq<Byte>, d: seq<Byte>, e: seq<Byte>, f: seq<Byte>,
               g: seq<Byte>)
    ensures o + a + b + c + d + e + f + g == o + (a + b + c + d + e + f + g)
  {
    Assoc(o, a, b);
    Assoc(o, a + b, c);
    Assoc(o, a + b + c, d);
    Assoc(o, a + b + c + d, e);
    Assoc(o, a + b + c + d + e, f);
    Assoc(o, a + b + c + d + e + f, g);
  }

  method AppendKeyMaterial(output: seq<Byte>, id: Identity) returns (output': seq<Byte>)
    ensures output' == output + KeyMaterial(id)
  {
    output' := AppendRepresentation(output, id.original);
    output' := AppendRepresentation(output', id.effective);
    Assoc(output, EncodeRepresentation(id.original), EncodeRepresentation(id.effective));
  }
}
