/** A writer of chart archives in the ustar interchange format, independent of the reader, and
    the round trip: what it writes is read back. */
module ChartWriter {
  import opened Basics
  import opened ChartArchive
  import opened ChartFields

  /** A member as it is written, its name split over the two fields for it. */
  datatype Entry = Entry(prefix: seq<Byte>, base: seq<Byte>, mode: nat, mtime: nat, kind: Byte, content: seq<Byte>)

  function MemberOf(e: Entry): Member {
    Member((if e.prefix == [] then [] else e.prefix + [47]) + e.base, e.mode, e.mtime, e.kind, e.content)
  }

  function MembersOf(entries: seq<Entry>): seq<Member> {
    if entries == [] then [] else [MemberOf(entries[0])] + MembersOf(entries[1..])
  }

  /** The fields hold what is to be written. */
  ghost predicate Writable(e: Entry) {
    && |e.prefix| <= 155 && NoNul(e.prefix)
    && |e.base| <= 100 && NoNul(e.base)
    && e.mode < Pow8(7) && e.mtime < Pow8(11) && |e.content| < Pow8(11)
    && e.kind != 0
  }

  function Zeros(n: nat): seq<Byte> {
    seq(n, i => 0)
  }

  function Filled(s: seq<Byte>, width: nat): seq<Byte> {
    if |s| < width then s + Zeros(width - |s|) else s
  }

  function Number(n: nat, width: nat): seq<Byte>
    requires width > 0
  {
    Octal(n, width - 1) + [0]
  }

  /** The bytes of a header before and after its checksum. */
  function Before(e: Entry): seq<Byte> {
    Filled(e.base, 100) + Number(e.mode, 8) + Zeros(16) + Number(|e.content|, 12) + Number(e.mtime, 12)
  }

  function Behind(e: Entry): seq<Byte> {
    [e.kind] + Zeros(188) + Filled(e.prefix, 155) + Zeros(12)
  }

  function Total(s: seq<Byte>): nat {
    if s == [] then 0 else s[0] + Total(s[1..])
  }

  /** The checksum: all bytes added up, with spaces in its own place. */
  function Checksum(e: Entry): nat {
    Total(Before(e)) + 8 * 32 + Total(Behind(e))
  }

  function HeaderOf(e: Entry): seq<Byte> {
    Before(e) + (Octal(Checksum(e), 6) + [0, 32]) + Behind(e)
  }

  /** The members one after the other, each in whole blocks, and then the trailer. */
  function Laid(header: Entry -> seq<Byte>, entries: seq<Entry>): seq<Byte> {
    if entries == [] then Zeros(1024)
    else header(entries[0]) + entries[0].content + Pad(entries[0]) + Laid(header, entries[1..])
  }

  function Pad(e: Entry): seq<Byte> {
    Zeros((512 - |e.content| % 512) % 512)
  }

  function Written(entries: seq<Entry>): seq<Byte> {
    Laid(HeaderOf, entries)
  }

  // ----- lengths

  lemma {:induction false} OctalLength(n: nat, width: nat)
    ensures |Octal(n, width)| == width
  {
    if width == 0 {
    } else {
      OctalLength(n / 8, width - 1);
    }
  }

  lemma BeforeLength(e: Entry)
    requires Writable(e)
    ensures |Filled(e.base, 100)| == 100 && |Before(e)| == 148
  {
    OctalLength(e.mode, 7);
    OctalLength(|e.content|, 11);
    OctalLength(e.mtime, 11);
  }

  lemma BehindLength(e: Entry)
    requires Writable(e)
    ensures |Filled(e.prefix, 155)| == 155 && |Behind(e)| == 356
  {
  }

  lemma HeaderLength(e: Entry)
    requires Writable(e)
    ensures |HeaderOf(e)| == BLOCK
  {
    BeforeLength(e);
    BehindLength(e);
    OctalLength(Checksum(e), 6);
  }

  // ----- the checksum

  lemma {:induction false} TotalAppend(a: seq<Byte>, b: seq<Byte>)
    ensures Total(a + b) == Total(a) + Total(b)
  {
    if a == [] {
      assert a + b == b;
    } else {
      assert (a + b)[1..] == a[1..] + b;
      TotalAppend(a[1..], b);
    }
  }

  lemma {:induction false} TotalBound(s: seq<Byte>)
    ensures Total(s) <= 255 * |s|
  {
    if s == [] {
    } else {
      TotalBound(s[1..]);
    }
  }

  lemma TotalNext(s: seq<Byte>, n: nat)
    requires n < |s|
    ensures Total(s[..n + 1]) == Total(s[..n]) + s[n]
  {
    assert s[..n + 1] == s[..n] + [s[n]];
    TotalAppend(s[..n], [s[n]]);
    assert [s[n]][1..] == [];
  }

  /** The header with spaces in place of its checksum. */
  ghost predicate Blanked(h: Header, b: seq<Byte>) {
    |b| == |h| && forall i :: 0 <= i < |b| ==> b[i] == if 148 <= i < 156 then 32 else h[i]
  }

  lemma {:induction false} ByteSumIsTotal(h: Header, b: seq<Byte>, n: nat)
    requires Blanked(h, b) && n <= |b|
    ensures ByteSum(h, n) == Total(b[..n])
  {
    if n == 0 {
    } else {
      ByteSumIsTotal(h, b, n - 1);
      TotalNext(b, n - 1);
    }
  }

  lemma {:induction false} ByteSumChanged(h: Header, g: Header, i: nat, n: nat)
    requires n <= BLOCK && i < BLOCK && !(148 <= i < 156)
    requires g == h[..i] + [g[i]] + h[i + 1..]
    ensures ByteSum(g, n) + (if i < n then h[i] else 0) == ByteSum(h, n) + (if i < n then g[i] else 0)
  {
    if n == 0 {
    } else {
      ByteSumChanged(h, g, i, n - 1);
    }
  }

  /** No byte outside the checksum can change without the checksum telling. */
  lemma ChangeDetected(h: Header, g: Header, i: nat)
    requires i < BLOCK && !(148 <= i < 156)
    requires g == h[..i] + [g[i]] + h[i + 1..] && g[i] != h[i]
    requires ChecksumHolds(h)
    ensures !ChecksumHolds(g)
  {
    ByteSumChanged(h, g, i, BLOCK);
    assert g[148..156] == h[148..156];
  }

  function Spaces(): seq<Byte> {
    [32, 32, 32, 32, 32, 32, 32, 32]
  }

  lemma SpacesTotal(s: seq<Byte>)
    requires s == Spaces()
    ensures Total(s) == 256
  {
    assert s[1..][1..][1..][1..] == [32, 32, 32, 32];
    assert s[4..][1..][1..][1..][1..] == [];
  }

  lemma BlankedTotal(before: seq<Byte>, behind: seq<Byte>)
    ensures Total(before + Spaces() + behind) == Total(before) + 256 + Total(behind)
  {
    TotalAppend(before + Spaces(), behind);
    TotalAppend(before, Spaces());
    SpacesTotal(Spaces());
  }

  lemma ChecksumFrom(h: Header, b: seq<Byte>)
    requires Blanked(h, b) && ReadOctal(h[148..156]) == Some(Total(b))
    ensures ChecksumHolds(h)
  {
    ByteSumIsTotal(h, b, |b|);
    assert b[..|b|] == b;
  }

  lemma Sliced(a: seq<Byte>, b: seq<Byte>, c: seq<Byte>)
    ensures (a + b + c)[|a|..|a| + |b|] == b
  {
  }

  lemma BlankedParts(before: seq<Byte>, sum: seq<Byte>, behind: seq<Byte>, h: Header)
    requires |before| == 148 && |sum| == 8 && |behind| == 356 && h == before + sum + behind
    ensures Blanked(h, before + Spaces() + behind)
  {
  }

  lemma ChecksumWritten(e: Entry, h: Header)
    requires Writable(e) && h == HeaderOf(e)
    ensures ChecksumHolds(h)
  {
    var before, behind := Before(e), Behind(e);
    var sum := Octal(Checksum(e), 6) + [0, 32];
    BeforeLength(e);
    BehindLength(e);
    OctalLength(Checksum(e), 6);
    Sliced(before, sum, behind);
    BlankedParts(before, sum, behind, h);
    BlankedTotal(before, behind);
    TotalBound(before);
    TotalBound(behind);
    SixDigits();
    OctalRoundTrip(Checksum(e), 6, [0, 32]);
    ChecksumFrom(h, before + Spaces() + behind);
  }

  lemma SixDigits()
    ensures Pow8(6) == 262144
  {
    assert Pow8(3) == 512;
  }

  // ----- the fields

  lemma FilledReads(text: seq<Byte>, width: nat)
    requires NoNul(text) && |text| <= width
    ensures UntilNul(Filled(text, width)) == text
  {
    if |text| < width {
      NulEnds(text, Zeros(width - |text|));
    } else {
      assert text + [] == text;
      NulEnds(text, []);
    }
  }

  lemma NumberReads(n: nat, width: nat)
    requires width > 0 && n < Pow8(width - 1) && n <= MAX_SAFE_INTEGER
    ensures ReadOctal(Number(n, width)) == Some(n)
  {
    OctalRoundTrip(n, width - 1, [0]);
  }

  lemma BeforeFields(e: Entry)
    requires Writable(e)
    ensures |Before(e)| == 148 && Before(e)[0..100] == Filled(e.base, 100) && Before(e)[100..108] == Number(e.mode, 8)
    ensures Before(e)[124..136] == Number(|e.content|, 12) && Before(e)[136..148] == Number(e.mtime, 12)
  {
    var base, mode, gap := Filled(e.base, 100), Number(e.mode, 8), Zeros(16);
    var size, mtime := Number(|e.content|, 12), Number(e.mtime, 12);
    BeforeLength(e);
    OctalLength(e.mode, 7);
    OctalLength(|e.content|, 11);
    OctalLength(e.mtime, 11);
    FiveParts(base, mode, gap, size, mtime);
  }

  lemma FiveParts(a: seq<Byte>, b: seq<Byte>, c: seq<Byte>, d: seq<Byte>, e: seq<Byte>)
    ensures var s := a + b + c + d + e;
            var p, q := |a| + |b|, |a| + |b| + |c| + |d|;
            && s[0..|a|] == a && s[|a|..p] == b && s[p + |c|..q] == d && s[q..q + |e|] == e
  {
  }

  lemma BehindFields(e: Entry)
    requires Writable(e)
    ensures |Behind(e)| == 356 && Behind(e)[0] == e.kind && Behind(e)[189..344] == Filled(e.prefix, 155)
  {
    BehindLength(e);
    Sliced([e.kind] + Zeros(188), Filled(e.prefix, 155), Zeros(12));
  }

  /** The header's fields are those of its parts. */
  lemma HeaderFields(before: seq<Byte>, sum: seq<Byte>, behind: seq<Byte>, h: Header)
    requires |before| == 148 && |sum| == 8 && |behind| == 356 && h == before + sum + behind
    ensures h[0..100] == before[0..100] && h[100..108] == before[100..108]
    ensures h[124..136] == before[124..136] && h[136..148] == before[136..148]
    ensures h[156] == behind[0] && h[345..500] == behind[189..344]
  {
  }

  lemma SafeNumbers()
    ensures Pow8(11) <= MAX_SAFE_INTEGER && Pow8(7) <= MAX_SAFE_INTEGER
  {
    assert Pow8(3) == 512;
    assert Pow8(6) == 262144;
    assert Pow8(9) == 134217728;
  }

  lemma NameWritten(h: Header, e: Entry)
    requires Writable(e) && h[0..100] == Filled(e.base, 100) && h[345..500] == Filled(e.prefix, 155)
    ensures NameOf(h) == MemberOf(e).name
  {
    FilledReads(e.base, 100);
    FilledReads(e.prefix, 155);
  }

  lemma NumbersWritten(h: Header, e: Entry)
    requires Writable(e) && h[100..108] == Number(e.mode, 8)
    requires h[124..136] == Number(|e.content|, 12) && h[136..148] == Number(e.mtime, 12)
    ensures ReadOctal(h[100..108]) == Some(e.mode) && ReadOctal(h[124..136]) == Some(|e.content|)
    ensures ReadOctal(h[136..148]) == Some(e.mtime)
  {
    SafeNumbers();
    NumberReads(e.mode, 8);
    NumberReads(|e.content|, 12);
    NumberReads(e.mtime, 12);
  }

  /** The fields of a written header. */
  lemma FieldsWritten(e: Entry, h: Header)
    requires Writable(e) && h == HeaderOf(e)
    ensures h[0..100] == Filled(e.base, 100) && h[100..108] == Number(e.mode, 8)
    ensures h[124..136] == Number(|e.content|, 12) && h[136..148] == Number(e.mtime, 12)
    ensures h[156] == e.kind && h[345..500] == Filled(e.prefix, 155)
  {
    var sum := Octal(Checksum(e), 6) + [0, 32];
    OctalLength(Checksum(e), 6);
    BeforeFields(e);
    BehindFields(e);
    HeaderFields(Before(e), sum, Behind(e), h);
  }

  lemma KindWritten(h: Header, kind: Byte)
    requires h[156] == kind != 0
    ensures !AllZero(h)
  {
  }

  lemma DescribesFrom(h: Header, e: Entry)
    requires Writable(e) && h[156] == e.kind && ChecksumHolds(h) && NameOf(h) == MemberOf(e).name
    requires ReadOctal(h[100..108]) == Some(e.mode) && ReadOctal(h[124..136]) == Some(|e.content|)
    requires ReadOctal(h[136..148]) == Some(e.mtime)
    ensures Describes(h, MemberOf(e))
  {
    KindWritten(h, e.kind);
  }

  lemma HeaderDescribes(e: Entry) returns (h: Header)
    requires Writable(e)
    ensures h == HeaderOf(e) && Describes(h, MemberOf(e))
  {
    HeaderLength(e);
    h := HeaderOf(e);
    FieldsWritten(e, h);
    ChecksumWritten(e, h);
    NumbersWritten(h, e);
    NameWritten(h, e);
    DescribesFrom(h, e);
  }

  // ----- the archive

  lemma PaddedBy(size: nat)
    ensures Padded(size) == size + (512 - size % 512) % 512
  {
  }

  lemma ZerosTrail(s: seq<Byte>)
    requires s == Zeros(1024)
    ensures Trailer(s)
  {
  }

  lemma FourParts(h: Header, content: seq<Byte>, pad: seq<Byte>, rest: seq<Byte>, tar: seq<Byte>)
    requires tar == h + content + pad + rest
    ensures tar[..BLOCK] == h && tar[BLOCK..BLOCK + |content|] == content && tar[BLOCK + |content| + |pad|..] == rest
  {
  }

  lemma FrontFrom(h: Header, m: Member, pad: seq<Byte>, rest: seq<Byte>, tar: seq<Byte>)
    requires Describes(h, m) && tar == h + m.content + pad + rest && |m.content| + |pad| == Padded(|m.content|)
    ensures Front(tar, m) && End(m) <= |tar| && tar[End(m)..] == rest
  {
    FourParts(h, m.content, pad, rest, tar);
  }

  /** Whatever follows it, `h` with the content of `e` is the front of an archive. */
  ghost predicate Fronts(front: (seq<Byte>, Member) -> bool, h: seq<Byte>, e: Entry) {
    forall rest :: front(h + e.content + Pad(e) + rest, MemberOf(e))
  }

  ghost predicate Heads(front: (seq<Byte>, Member) -> bool, header: Entry -> seq<Byte>, e: Entry) {
    |header(e)| == BLOCK && Fronts(front, header(e), e)
  }

  lemma FrontsFrom(h: Header, e: Entry)
    requires Describes(h, MemberOf(e))
    ensures Fronts(Front, h, e)
  {
    PaddedBy(|e.content|);
    forall rest
      ensures Front(h + e.content + Pad(e) + rest, MemberOf(e))
    {
      FrontFrom(h, MemberOf(e), Pad(e), rest, h + e.content + Pad(e) + rest);
    }
  }

  lemma HeaderHeads(e: Entry)
    requires Writable(e)
    ensures Heads(Front, HeaderOf, e)
  {
    var h := HeaderDescribes(e);
    FrontsFrom(h, e);
  }

  lemma {:induction false} LaidIsChain(front: (seq<Byte>, Member) -> bool, header: Entry -> seq<Byte>,
                                       entries: seq<Entry>)
    requires forall e :: e in entries ==> Heads(front, header, e)
    ensures Chain(front, Laid(header, entries), MembersOf(entries))
  {
    if entries == [] {
    } else {
      var e, more := entries[0], entries[1..];
      assert forall x :: x in more ==> x in entries;
      LaidIsChain(front, header, more);
      PaddedBy(|e.content|);
      var rest := Laid(header, more);
      var tar := header(e) + e.content + Pad(e) + rest;
      assert Heads(front, header, e) && front(tar, MemberOf(e));
      assert tar[End(MemberOf(e))..] == rest;
      ChainCons(front, tar, MemberOf(e), MembersOf(more));
    }
  }

  lemma ChainCons(front: (seq<Byte>, Member) -> bool, tar: seq<Byte>, m: Member, members: seq<Member>)
    requires End(m) <= |tar| && front(tar, m) && Chain(front, tar[End(m)..], members)
    ensures Chain(front, tar, [m] + members)
  {
    assert ([m] + members)[1..] == members;
  }

  /** What is written is an archive of its members. */
  lemma WrittenIsArchive(entries: seq<Entry>)
    requires forall e :: e in entries ==> Writable(e)
    ensures Archive(Written(entries), MembersOf(entries))
  {
    forall e | e in entries
      ensures Heads(Front, HeaderOf, e)
    {
      HeaderHeads(e);
    }
    LaidIsChain(Front, HeaderOf, entries);
  }

  /** The round trip: what is written within the limits is read back, and as nothing else. */
  lemma WrittenReads(entries: seq<Entry>)
    requires forall e :: e in entries ==> Writable(e)
    ensures ReadFrom(Written(entries), 0, 0) == Some(MembersOf(entries)) <==> Within(MembersOf(entries), 0, 0)
  {
    WrittenIsArchive(entries);
    ReadExact(Written(entries), 0, 0, MembersOf(entries));
  }
}
