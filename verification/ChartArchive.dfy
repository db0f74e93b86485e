/** Reading a chart archive (already decompressed) in the ustar interchange format, and
    checking its inventory.  File names are byte strings.
 */
module ChartArchive {
  import opened Basics

  const BLOCK: nat := 512
  const MAX_MEMBERS: nat := 256
  const MAX_MEMBER_BYTES: nat := 4 * 1024 * 1024
  const MAX_CONTENT_BYTES: nat := 16 * 1024 * 1024
  const MAX_TAR_BYTES: nat := 32 * 1024 * 1024
  const MAX_SAFE_INTEGER: nat := 0x1F_FFFF_FFFF_FFFF
  const NORMAL_MODE: nat := 420
  const REGULAR: Byte := 48

  type Header = s: seq<Byte> | |s| == BLOCK witness seq(BLOCK, i => 0)

  datatype Member = Member(name: seq<Byte>, mode: nat, mtime: nat, kind: Byte, content: seq<Byte>)

  // ----- header fields

  function UntilNul(s: seq<Byte>): seq<Byte> {
    if s == [] || s[0] == 0 then [] else [s[0]] + UntilNul(s[1..])
  }

  predicate Whitespace(b: Byte) {
    9 <= b <= 13 || b == 32
  }

  function TrimLeft(s: seq<Byte>): seq<Byte> {
    if s != [] && Whitespace(s[0]) then TrimLeft(s[1..]) else s
  }

  function TrimRight(s: seq<Byte>): seq<Byte> {
    if s != [] && Whitespace(s[|s| - 1]) then TrimRight(s[..|s| - 1]) else s
  }

  predicate AllOctal(s: seq<Byte>) {
    forall i :: 0 <= i < |s| ==> 48 <= s[i] <= 55
  }

  function OctalValue(s: seq<Byte>): nat
    requires AllOctal(s)
  {
    if s == [] then 0 else 8 * OctalValue(s[..|s| - 1]) + (s[|s| - 1] - 48)
  }

  /** A numeric field: blank counts as zero, anything but octal digits is an error. */
  function ReadOctal(field: seq<Byte>): Option<nat> {
    var text := TrimRight(TrimLeft(UntilNul(field)));
    if !AllOctal(text) then None
    else if OctalValue(text) > MAX_SAFE_INTEGER then None
    else Some(OctalValue(text))
  }

  /** The byte sum of a header, with the checksum field itself counted as spaces. */
  function ByteSum(h: Header, n: nat): nat
    requires n <= BLOCK
  {
    if n == 0 then 0 else ByteSum(h, n - 1) + if 148 <= n - 1 < 156 then 32 else h[n - 1]
  }

  predicate ChecksumHolds(h: Header) {
    ReadOctal(h[148..156]) == Some(ByteSum(h, BLOCK))
  }

  function NameOf(h: Header): seq<Byte> {
    var prefix := UntilNul(h[345..500]);
    (if prefix == [] then [] else prefix + [47]) + UntilNul(h[0..100])
  }

  function Parts(name: seq<Byte>): (parts: seq<seq<Byte>>)
    ensures parts != []
  {
    if name == [] then [[]]
    else
      var rest := Parts(name[1..]);
      if name[0] == 47 then [[]] + rest else [[name[0]] + rest[0]] + rest[1..]
  }

  /** Relative, without backslashes, and with no empty, `.` or `..` component. */
  predicate SafePath(name: seq<Byte>) {
    && name != []
    && name[0] != 47
    && (forall i :: 0 <= i < |name| ==> name[i] != 92)
    && (forall i :: 0 <= i < |Parts(name)| ==>
       Parts(name)[i] != [] && Parts(name)[i] != [46] && Parts(name)[i] != [46, 46])
  }

  predicate AllZero(s: seq<Byte>) {
    forall i :: 0 <= i < |s| ==> s[i] == 0
  }

  /** Content is padded to whole blocks. */
  function Blocks(size: nat): nat {
    (size + BLOCK - 1) / BLOCK
  }

  function Padded(size: nat): nat {
    Blocks(size) * BLOCK
  }

  lemma PaddedBounds(size: nat)
    ensures size <= Padded(size) < size + BLOCK
  {
  }

  /** Where the next header follows a member: after its own header, content and padding. */
  function End(m: Member): nat {
    BLOCK + Padded(|m.content|)
  }

  // ----- what an archive is

  /** A header that describes `m`. */
  ghost predicate Describes(h: Header, m: Member) {
    && !AllZero(h)
    && ChecksumHolds(h)
    && m.name == NameOf(h)
    && ReadOctal(h[124..136]) == Some(|m.content|)
    && ReadOctal(h[100..108]) == Some(m.mode)
    && ReadOctal(h[136..148]) == Some(m.mtime)
    && m.kind == (if h[156] == 0 then REGULAR else h[156])
  }

  /** `tar` starts with the header and content of `m`. */
  ghost predicate Front(tar: seq<Byte>, m: Member) {
    && BLOCK + |m.content| <= |tar|
    && Describes(tar[..BLOCK], m)
    && m.content == tar[BLOCK..BLOCK + |m.content|]
  }

  /** At least two blocks' worth of zeros and nothing else. */
  predicate Trailer(tar: seq<Byte>) {
    |tar| >= 2 * BLOCK && AllZero(tar)
  }

  /** `tar` is one region per member, each with `front` at its start, and then a trailer. */
  ghost predicate Chain(front: (seq<Byte>, Member) -> bool, tar: seq<Byte>, members: seq<Member>) {
    if members == [] then
      Trailer(tar)
    else
      && End(members[0]) <= |tar|
      && front(tar, members[0])
      && Chain(front, tar[End(members[0])..], members[1..])
  }

  /** `tar` is the header, content and padding blocks of the members, one after the other, and
      then the trailer. */
  ghost predicate Archive(tar: seq<Byte>, members: seq<Member>) {
    Chain(Front, tar, members)
  }

  function TotalContent(members: seq<Member>): nat {
    if members == [] then 0 else |members[0].content| + TotalContent(members[1..])
  }

  ghost predicate Bounded(members: seq<Member>) {
    && |members| <= MAX_MEMBERS
    && TotalContent(members) <= MAX_CONTENT_BYTES
    && forall m :: m in members ==> SafePath(m.name) && |m.content| <= MAX_MEMBER_BYTES
  }

  // ----- the reader

  /** The member at the front of `tar`, after `count` members with `total` bytes of content. */
  function ReadMember(tar: seq<Byte>, count: nat, total: nat): (m: Option<Member>)
    requires |tar| >= BLOCK
    ensures m.Some? ==> End(m.value) <= |tar|
  {
    var h: Header := tar[..BLOCK];
    var size := ReadOctal(h[124..136]);
    var mode := ReadOctal(h[100..108]);
    var mtime := ReadOctal(h[136..148]);
    if !ChecksumHolds(h) || count >= MAX_MEMBERS || !SafePath(NameOf(h)) || size.None? then None
    else if size.value > MAX_MEMBER_BYTES || total + size.value > MAX_CONTENT_BYTES then None
    else if BLOCK + size.value > |tar| || mode.None? || mtime.None? then None
    else if BLOCK + Padded(size.value) > |tar| then None
    else
      var kind := if h[156] == 0 then REGULAR else h[156];
      Some(Member(NameOf(h), mode.value, mtime.value, kind, tar[BLOCK..BLOCK + size.value]))
  }

  /** What the reader makes of `tar`, given how it reads one member. */
  ghost function Walk(read: (seq<Byte>, nat, nat) -> Option<Member>, tar: seq<Byte>, count: nat,
                      total: nat): Option<seq<Member>>
    decreases |tar|
  {
    if |tar| < BLOCK then None
    else if AllZero(tar[..BLOCK]) then
      if Trailer(tar) then Some([]) else None
    else
      var m := read(tar, count, total);
      if m.None? || End(m.value) > |tar| then None
      else
        var rest := Walk(read, tar[End(m.value)..], count + 1, total + |m.value.content|);
        if rest.None? then None else Some([m.value] + rest.value)
  }

  function ReadOne(tar: seq<Byte>, count: nat, total: nat): Option<Member> {
    if |tar| >= BLOCK then ReadMember(tar, count, total) else None
  }

  ghost function ReadFrom(tar: seq<Byte>, count: nat, total: nat): Option<seq<Member>> {
    Walk(ReadOne, tar, count, total)
  }

  predicate Acceptable(m: Member, count: nat, total: nat) {
    && count < MAX_MEMBERS && total + |m.content| <= MAX_CONTENT_BYTES
    && SafePath(m.name) && |m.content| <= MAX_MEMBER_BYTES
  }

  /** Each member is acceptable after those before it. */
  ghost predicate Within(members: seq<Member>, count: nat, total: nat) {
    members != [] ==>
      Acceptable(members[0], count, total) && Within(members[1..], count + 1, total + |members[0].content|)
  }

  lemma MemberExact(tar: seq<Byte>, count: nat, total: nat, m: Member)
    requires |tar| >= BLOCK && !AllZero(tar[..BLOCK])
    ensures ReadOne(tar, count, total) == Some(m) <==> End(m) <= |tar| && Front(tar, m) && Acceptable(m, count, total)
  {
    var size := ReadOctal(tar[..BLOCK][124..136]);
    if size.Some? {
      PaddedBounds(size.value);
    }
    PaddedBounds(|m.content|);
  }

  lemma WalkCons(read: (seq<Byte>, nat, nat) -> Option<Member>, tar: seq<Byte>, count: nat, total: nat,
                 members: seq<Member>)
    requires |tar| >= BLOCK && !AllZero(tar[..BLOCK]) && members != []
    ensures Walk(read, tar, count, total) == Some(members) <==>
            && read(tar, count, total) == Some(members[0])
            && End(members[0]) <= |tar|
            && Walk(read, tar[End(members[0])..], count + 1, total + |members[0].content|) == Some(members[1..])
  {
    var m, rest := members[0], members[1..];
    assert members == [m] + rest;
    var first := read(tar, count, total);
    if first.Some? && End(first.value) <= |tar| {
      var tail := Walk(read, tar[End(first.value)..], count + 1, total + |first.value.content|);
      if tail.Some? {
        var all := [first.value] + tail.value;
        assert all[0] == first.value && all[1..] == tail.value;
      }
    }
  }

  lemma WalkEnds(read: (seq<Byte>, nat, nat) -> Option<Member>, tar: seq<Byte>, count: nat, total: nat,
                 members: seq<Member>)
    requires |tar| < BLOCK || AllZero(tar[..BLOCK])
    ensures Walk(read, tar, count, total) == Some(members) <==> members == [] && Trailer(tar)
  {
  }

  /** Reading one member is exact on this text, and only a header can be a front. */
  ghost predicate ExactOn(read: (seq<Byte>, nat, nat) -> Option<Member>, front: (seq<Byte>, Member) -> bool,
                          t: seq<Byte>, c: nat, n: nat, m: Member)
  {
    if |t| >= BLOCK && !AllZero(t[..BLOCK]) then
      read(t, c, n) == Some(m) <==> End(m) <= |t| && front(t, m) && Acceptable(m, c, n)
    else
      !front(t, m)
  }

  /** If reading one member is exact, so is reading the archive. */
  lemma {:induction false} WalkExact(read: (seq<Byte>, nat, nat) -> Option<Member>, front: (seq<Byte>, Member) -> bool,
                                     tar: seq<Byte>, count: nat, total: nat, members: seq<Member>)
    requires forall t: seq<Byte>, c: nat, n: nat, m: Member :: ExactOn(read, front, t, c, n, m)
    ensures Walk(read, tar, count, total) == Some(members) <==>
            Chain(front, tar, members) && Within(members, count, total)
    decreases |tar|
  {
    if members != [] {
      assert ExactOn(read, front, tar, count, total, members[0]);
    }
    if |tar| < BLOCK || AllZero(tar[..BLOCK]) {
      WalkEnds(read, tar, count, total, members);
    } else if members == [] {
      NoTrailerYet(tar);
    } else {
      WalkCons(read, tar, count, total, members);
      if End(members[0]) <= |tar| {
        WalkExact(read, front, tar[End(members[0])..], count + 1, total + |members[0].content|, members[1..]);
      }
    }
  }

  lemma NoTrailerYet(tar: seq<Byte>)
    requires |tar| >= BLOCK && !AllZero(tar[..BLOCK])
    ensures !Trailer(tar)
  {
    var i :| 0 <= i < BLOCK && tar[..BLOCK][i] != 0;
    assert tar[i] in tar;
  }

  /** The reader accepts exactly the well-formed archives within the limits, and returns exactly
      their members. */
  lemma ReadExact(tar: seq<Byte>, count: nat, total: nat, members: seq<Member>)
    ensures ReadFrom(tar, count, total) == Some(members) <==> Archive(tar, members) && Within(members, count, total)
  {
    forall t: seq<Byte>, c: nat, n: nat, m: Member
      ensures ExactOn(ReadOne, Front, t, c, n, m)
    {
      if |t| >= BLOCK && !AllZero(t[..BLOCK]) {
        MemberExact(t, c, n, m);
      }
    }
    WalkExact(ReadOne, Front, tar, count, total, members);
  }

  lemma {:induction false} WithinMeansBounded(members: seq<Member>, count: nat, total: nat)
    ensures Within(members, count, total) <==>
            && (members != [] ==> count + |members| <= MAX_MEMBERS)
            && (members != [] ==> total + TotalContent(members) <= MAX_CONTENT_BYTES)
            && forall m :: m in members ==> SafePath(m.name) && |m.content| <= MAX_MEMBER_BYTES
  {
    if members == [] {
    } else {
      WithinMeansBounded(members[1..], count + 1, total + |members[0].content|);
      assert members[0] in members;
      assert members == [members[0]] + members[1..];
      assert forall m :: m in members <==> m == members[0] || m in members[1..];
    }
  }

  // ----- the layout, by offsets

  /** Blocks taken by the first `k` members. */
  function BlocksBefore(members: seq<Member>, k: nat): nat
    requires k <= |members|
  {
    if k == 0 then 0 else BlocksBefore(members, k - 1) + 1 + Blocks(|members[k - 1].content|)
  }

  function OffsetOf(members: seq<Member>, k: nat): nat
    requires k <= |members|
  {
    BLOCK * BlocksBefore(members, k)
  }

  /** Skipping `k` members leads to where the rest of the archive begins. */
  lemma {:induction false} ChainSuffix(front: (seq<Byte>, Member) -> bool, tar: seq<Byte>, members: seq<Member>, k: nat)
    requires Chain(front, tar, members)
    requires k <= |members|
    ensures OffsetOf(members, k) <= |tar|
    ensures Chain(front, tar[OffsetOf(members, k)..], members[k..])
  {
    if k == 0 {
      assert tar[0..] == tar && members[0..] == members;
    } else {
      ChainSuffix(front, tar, members, k - 1);
      OffsetNext(members, k - 1);
      var offset, rest := OffsetOf(members, k - 1), members[k - 1..];
      assert rest[0] == members[k - 1] && rest[1..] == members[k..];
      assert tar[offset..][End(rest[0])..] == tar[offset + End(rest[0])..];
    }
  }

  /** Member contents are consecutive, disjoint slices, each a block after a block boundary. */
  lemma MemberSlice(tar: seq<Byte>, members: seq<Member>, k: nat)
    requires Archive(tar, members)
    requires k < |members|
    ensures OffsetOf(members, k) % BLOCK == 0
    ensures var start := OffsetOf(members, k) + BLOCK;
            && start + |members[k].content| <= OffsetOf(members, k + 1) <= |tar|
            && members[k].content == tar[start..start + |members[k].content|]
  {
    ChainSuffix(Front, tar, members, k);
    assert members[k..][0] == members[k];
    SliceAt(tar, OffsetOf(members, k), members[k..]);
    OffsetNext(members, k);
  }

  /** Everything after the last member is zero, and it is at least two blocks. */
  lemma TrailerSlice(tar: seq<Byte>, members: seq<Member>)
    requires Archive(tar, members)
    ensures OffsetOf(members, |members|) % BLOCK == 0
    ensures OffsetOf(members, |members|) + 2 * BLOCK <= |tar|
    ensures AllZero(tar[OffsetOf(members, |members|)..])
  {
    ChainSuffix(Front, tar, members, |members|);
  }

  lemma OffsetNext(members: seq<Member>, k: nat)
    requires k < |members|
    ensures OffsetOf(members, k + 1) == OffsetOf(members, k) + End(members[k])
    ensures OffsetOf(members, k) + BLOCK + |members[k].content| <= OffsetOf(members, k + 1)
  {
    PaddedBounds(|members[k].content|);
  }

  lemma SliceAt(tar: seq<Byte>, offset: nat, members: seq<Member>)
    requires offset <= |tar| && members != []
    requires Archive(tar[offset..], members)
    ensures offset + End(members[0]) <= |tar|
    ensures var start, size := offset + BLOCK, |members[0].content|;
            start + size <= |tar| && members[0].content == tar[start..start + size]
  {
    var size := |members[0].content|;
    PaddedBounds(size);
    assert Front(tar[offset..], members[0]);
    assert tar[offset..][BLOCK..BLOCK + size] == tar[offset + BLOCK..offset + BLOCK + size];
  }

  // ----- the loops

  method HeaderChecksum(h: Header) returns (ok: bool)
    ensures ok <==> ChecksumHolds(h)
  {
    var stored := ReadOctal(h[148..156]);
    if stored.None? {
      return false;
    }
    var calculated: nat := 0;
    for i := 0 to BLOCK
      invariant calculated == ByteSum(h, i)
    {
      calculated := calculated + if 148 <= i < 156 then 32 else h[i];
    }
    return stored.value == calculated;
  }

  /** Reads one member at `offset` with the checks in the order the reader makes them. */
  method ReadAt(tar: seq<Byte>, offset: nat, count: nat, total: nat) returns (m: Option<Member>)
    requires offset + BLOCK <= |tar|
    ensures m == ReadMember(tar[offset..], count, total)
  {
    var h: Header := tar[offset..offset + BLOCK];
    assert h == tar[offset..][..BLOCK];
    var ok := HeaderChecksum(h);
    if !ok || count >= MAX_MEMBERS || !SafePath(NameOf(h)) {
      return None;
    }
    var size := ReadOctal(h[124..136]);
    if size.None? || size.value > MAX_MEMBER_BYTES || total > MAX_CONTENT_BYTES - size.value {
      return None;
    }
    var contentStart := offset + BLOCK;
    if contentStart + size.value > |tar| {
      return None;
    }
    var mode, mtime := ReadOctal(h[100..108]), ReadOctal(h[136..148]);
    if mode.None? || mtime.None? {
      return None;
    }
    if contentStart + Padded(size.value) > |tar| {
      return None;
    }
    assert tar[offset..][BLOCK..BLOCK + size.value] == tar[contentStart..contentStart + size.value];
    return Some(Member(NameOf(h), mode.value, mtime.value,
      if h[156] == 0 then REGULAR else h[156], tar[contentStart..contentStart + size.value]));
  }

  /** `read` is the reader of one member, where there is room for a header. */
  ghost predicate Reads(read: (seq<Byte>, nat, nat) -> Option<Member>) {
    forall tar, count, total {:trigger ReadMember(tar, count, total)} ::
      |tar| >= BLOCK ==> read(tar, count, total) == ReadMember(tar, count, total)
  }

  /** One turn of the reading loop. */
  method ReadNext(ghost read: (seq<Byte>, nat, nat) -> Option<Member>, tar: seq<Byte>, offset: nat, count: nat,
                  total: nat)
    returns (m: Option<Member>)
    requires Reads(read) && offset + BLOCK <= |tar|
    ensures m == read(tar[offset..], count, total)
    ensures m.Some? ==> offset + End(m.value) <= |tar|
  {
    m := ReadAt(tar, offset, count, total);
  }

  /** The members read so far, followed by what the rest of the archive yields. */
  ghost function Continued(members: seq<Member>, rest: Option<seq<Member>>): Option<seq<Member>> {
    if rest.None? then None else Some(members + rest.value)
  }

  /** What is known of a reading that has come to `offset` with these members. */
  ghost predicate ReadUpTo(read: (seq<Byte>, nat, nat) -> Option<Member>, tar: seq<Byte>, offset: nat,
                           members: seq<Member>, total: nat) {
    offset <= |tar| && Walk(read, tar, 0, 0) == Continued(members, Walk(read, tar[offset..], |members|, total))
  }

  lemma ReadUpToNext(read: (seq<Byte>, nat, nat) -> Option<Member>, tar: seq<Byte>, offset: nat, members: seq<Member>,
                     total: nat, m: Member)
    requires ReadUpTo(read, tar, offset, members, total)
    requires offset + BLOCK <= |tar| && !AllZero(tar[offset..][..BLOCK])
    requires read(tar[offset..], |members|, total) == Some(m)
    requires offset + End(m) <= |tar|
    ensures ReadUpTo(read, tar, offset + End(m), members + [m], total + |m.content|)
  {
    assert tar[offset..][End(m)..] == tar[offset + End(m)..];
    var rest := Walk(read, tar[offset + End(m)..], |members + [m]|, total + |m.content|);
    if rest.Some? {
      assert members + ([m] + rest.value) == (members + [m]) + rest.value;
    }
  }

  /** Where the reading ends. */
  lemma ReadUpToEnd(read: (seq<Byte>, nat, nat) -> Option<Member>, tar: seq<Byte>, offset: nat, members: seq<Member>,
                    total: nat)
    requires ReadUpTo(read, tar, offset, members, total)
    requires |tar| - offset < BLOCK || AllZero(tar[offset..][..BLOCK]) || read(tar[offset..], |members|, total).None?
    ensures Walk(read, tar, 0, 0) ==
            if |tar| - offset >= BLOCK && AllZero(tar[offset..][..BLOCK]) && Trailer(tar[offset..]) then Some(members)
              else None
  {
    assert members + [] == members;
  }

  /** The reading loop, told by how one member is read. */
  method ReadAll(ghost read: (seq<Byte>, nat, nat) -> Option<Member>, tar: seq<Byte>) returns (r: Option<seq<Member>>)
    requires Reads(read)
    ensures r == Walk(read, tar, 0, 0)
  {
    var members: seq<Member>, offset: nat, total: nat := [], 0, 0;
    assert tar[0..] == tar;
    ContinuedNothing(Walk(read, tar, 0, 0));
    while offset < |tar|
      invariant ReadUpTo(read, tar, offset, members, total)
      decreases |tar| - offset
    {
      if |tar| - offset < BLOCK {
        ReadUpToEnd(read, tar, offset, members, total);
        return None;
      }
      assert tar[offset..][..BLOCK] == tar[offset..offset + BLOCK];
      if AllZero(tar[offset..offset + BLOCK]) {
        ReadUpToEnd(read, tar, offset, members, total);
        if |tar| - offset < 2 * BLOCK || !AllZero(tar[offset..]) {
          return None;
        }
        return Some(members);
      }
      var m := ReadNext(read, tar, offset, |members|, total);
      if m.None? {
        ReadUpToEnd(read, tar, offset, members, total);
        return None;
      }
      ReadUpToNext(read, tar, offset, members, total, m.value);
      members, offset, total := members + [m.value], offset + End(m.value), total + |m.value.content|;
    }
    ReadUpToEnd(read, tar, offset, members, total);
    return None;
  }

  lemma ContinuedNothing(o: Option<seq<Member>>)
    ensures Continued([], o) == o
  {
    if o.Some? {
      assert [] + o.value == o.value;
    }
  }

  /** Accepts an archive exactly when it is well formed, within every limit and not empty; the
      members returned are then its members. */
  method InspectArchive(tar: seq<Byte>) returns (r: Option<seq<Member>>)
    ensures forall members :: r == Some(members) <==>
                                |tar| <= MAX_TAR_BYTES && members != [] && Archive(tar, members) && Bounded(members)
  {
    if |tar| > MAX_TAR_BYTES {
      return None;
    }
    assert Reads(ReadOne);
    r := ReadAll(ReadOne, tar);
    forall members
      ensures r == Some(members) <==> Archive(tar, members) && Within(members, 0, 0)
      ensures members != [] ==> (Within(members, 0, 0) <==> Bounded(members))
    {
      ReadExact(tar, 0, 0, members);
      WithinMeansBounded(members, 0, 0);
    }
    if r == Some([]) {
      ghost var empty := r;
      assert forall members :: empty == Some(members) <==> Archive(tar, members) && Within(members, 0, 0);
      r := None;
    }
  }

  // ----- the inventory

  ghost function NamesOf(members: seq<Member>): set<seq<Byte>> {
    set m | m in members :: m.name
  }

  /** The members carry normalized metadata and their names match `expected` one to one. */
  ghost predicate Complete(members: seq<Member>, expected: set<seq<Byte>>, epoch: nat) {
    && (forall m :: m in members ==> m.kind == REGULAR && m.mode == NORMAL_MODE && m.mtime == epoch)
    && (forall i, j :: 0 <= i < j < |members| ==> members[i].name != members[j].name)
    && NamesOf(members) == expected
  }

  predicate Normalized(m: Member, epoch: nat) {
    m.kind == REGULAR && m.mode == NORMAL_MODE && m.mtime == epoch
  }

  lemma NamesSnoc(members: seq<Member>, m: Member)
    ensures NamesOf(members + [m]) == NamesOf(members) + {m.name}
  {
    assert forall x :: x in members + [m] <==> x in members || x == m;
  }

  lemma Refuted(members: seq<Member>, expected: set<seq<Byte>>, epoch: nat, i: nat)
    requires i < |members| && (!Normalized(members[i], epoch) || members[i].name !in expected)
    ensures !Complete(members, expected, epoch)
  {
    assert members[i] in members;
    assert members[i].name in NamesOf(members);
  }

  lemma Confirmed(members: seq<Member>, expected: set<seq<Byte>>, epoch: nat)
    requires forall i :: 0 <= i < |members| ==> Normalized(members[i], epoch)
    requires forall i, j :: 0 <= i < j < |members| ==> members[i].name != members[j].name
    requires NamesOf(members) <= expected
    ensures Complete(members, expected, epoch) <==> |NamesOf(members)| == |expected|
  {
    if NamesOf(members) != expected {
      SubsetSize(NamesOf(members), expected);
    }
  }

  method CheckInventory(members: seq<Member>, expected: set<seq<Byte>>, epoch: nat) returns (ok: bool)
    ensures ok <==> Complete(members, expected, epoch)
  {
    var seen: set<seq<Byte>> := {};
    for i := 0 to |members|
      invariant seen == NamesOf(members[..i])
      invariant seen <= expected
      invariant forall k :: 0 <= k < i ==> Normalized(members[k], epoch)
      invariant forall k, j :: 0 <= k < j < i ==> members[k].name != members[j].name
    {
      var m := members[i];
      if !Normalized(m, epoch) || m.name !in expected {
        Refuted(members, expected, epoch, i);
        return false;
      }
      if m.name in seen {
        var k :| 0 <= k < i && members[k].name == m.name;
        return false;
      }
      assert members[..i + 1] == members[..i] + [m];
      NamesSnoc(members[..i], m);
      assert forall k :: 0 <= k < i ==> members[k] in members[..i];
      seen := seen + {m.name};
    }
    assert members[..|members|] == members;
    Confirmed(members, expected, epoch);
    return |seen| == |expected|;
  }
}
