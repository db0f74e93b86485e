/** What the fields of a tar header mean, told without the way they are read. */
module ChartFields {
  import opened Basics
  import opened ChartArchive

  // ----- strings up to a NUL

  ghost predicate NoNul(s: seq<Byte>) {
    forall i :: 0 <= i < |s| ==> s[i] != 0
  }

  /** Nothing, or something that starts with a NUL. */
  predicate Stops(rest: seq<Byte>) {
    rest == [] || rest[0] == 0
  }

  lemma {:induction false} NulEnds(text: seq<Byte>, rest: seq<Byte>)
    requires NoNul(text) && Stops(rest)
    ensures UntilNul(text + rest) == text
  {
    if text == [] {
      assert text + rest == rest;
    } else {
      assert (text + rest)[1..] == text[1..] + rest;
      NulEnds(text[1..], rest);
    }
  }

  lemma {:induction false} NulSplits(field: seq<Byte>) returns (rest: seq<Byte>)
    ensures field == UntilNul(field) + rest && NoNul(UntilNul(field)) && Stops(rest)
  {
    if field == [] || field[0] == 0 {
      rest := field;
    } else {
      rest := NulSplits(field[1..]);
    }
  }

  // ----- blanks around it

  ghost predicate Blanks(s: seq<Byte>) {
    forall i :: 0 <= i < |s| ==> Whitespace(s[i])
  }

  lemma {:induction false} TrimmedLeft(lead: seq<Byte>, s: seq<Byte>)
    requires Blanks(lead) && (s == [] || !Whitespace(s[0]))
    ensures TrimLeft(lead + s) == s
  {
    if lead == [] {
      assert lead + s == s;
    } else {
      assert (lead + s)[1..] == lead[1..] + s;
      TrimmedLeft(lead[1..], s);
    }
  }

  lemma {:induction false} TrimmedRight(s: seq<Byte>, trail: seq<Byte>)
    requires Blanks(trail) && (s == [] || !Whitespace(s[|s| - 1]))
    ensures TrimRight(s + trail) == s
  {
    if trail == [] {
      assert s + trail == s;
    } else {
      var all := s + trail;
      assert all[..|all| - 1] == s + trail[..|trail| - 1];
      TrimmedRight(s, trail[..|trail| - 1]);
    }
  }

  lemma {:induction false} TrimLeftSplits(s: seq<Byte>) returns (lead: seq<Byte>)
    ensures s == lead + TrimLeft(s) && Blanks(lead) && (TrimLeft(s) == [] || !Whitespace(TrimLeft(s)[0]))
  {
    if s != [] && Whitespace(s[0]) {
      lead := TrimLeftSplits(s[1..]);
      lead := [s[0]] + lead;
    } else {
      lead := [];
    }
  }

  lemma {:induction false} TrimRightSplits(s: seq<Byte>) returns (trail: seq<Byte>)
    ensures s == TrimRight(s) + trail && Blanks(trail)
  {
    if s != [] && Whitespace(s[|s| - 1]) {
      trail := TrimRightSplits(s[..|s| - 1]);
      trail := trail + [s[|s| - 1]];
    } else {
      trail := [];
    }
  }

  lemma AllBlank(lead: seq<Byte>, trail: seq<Byte>)
    requires Blanks(lead) && Blanks(trail)
    ensures TrimRight(TrimLeft(lead + trail)) == []
  {
    assert (lead + trail) + [] == lead + trail;
    TrimmedLeft(lead + trail, []);
  }

  // ----- numbers

  /** Eight to the power `n`. */
  ghost function Pow8(n: nat): nat {
    if n == 0 then 1 else 8 * Pow8(n - 1)
  }

  /** The number that octal digits stand for, by the place of each. */
  ghost function Worth(digits: seq<Byte>): nat
    requires AllOctal(digits)
  {
    if digits == [] then 0 else (digits[0] - 48) * Pow8(|digits| - 1) + Worth(digits[1..])
  }

  lemma Shift(x: nat, place: nat)
    ensures x * (8 * place) == 8 * (x * place)
  {
  }

  lemma {:induction false} WorthSnoc(digits: seq<Byte>, d: Byte)
    requires AllOctal(digits) && 48 <= d <= 55
    ensures AllOctal(digits + [d]) && Worth(digits + [d]) == 8 * Worth(digits) + (d - 48)
  {
    var all := digits + [d];
    if digits == [] {
      assert all[1..] == [];
    } else {
      var place := Pow8(|digits| - 1);
      assert all[1..] == digits[1..] + [d];
      WorthSnoc(digits[1..], d);
      Shift(digits[0] - 48, place);
      assert Pow8(|all| - 1) == 8 * place;
    }
  }

  lemma {:induction false} ValueIsWorth(digits: seq<Byte>)
    requires AllOctal(digits)
    ensures OctalValue(digits) == Worth(digits)
  {
    if digits == [] {
    } else {
      var front := digits[..|digits| - 1];
      assert digits == front + [digits[|digits| - 1]];
      ValueIsWorth(front);
      WorthSnoc(front, digits[|digits| - 1]);
    }
  }

  /** `field` is octal digits between blanks, up to its end or a NUL. */
  ghost predicate Numeral(field: seq<Byte>, lead: seq<Byte>, digits: seq<Byte>, trail: seq<Byte>, rest: seq<Byte>) {
    && field == lead + digits + trail + rest
    && Blanks(lead) && AllOctal(digits) && Blanks(trail) && Stops(rest)
  }

  lemma NumeralRead(field: seq<Byte>, lead: seq<Byte>, digits: seq<Byte>, trail: seq<Byte>, rest: seq<Byte>)
    requires Numeral(field, lead, digits, trail, rest)
    ensures ReadOctal(field) == if Worth(digits) <= MAX_SAFE_INTEGER then Some(Worth(digits)) else None
  {
    var text := lead + digits + trail;
    assert NoNul(text);
    NulEnds(text, rest);
    if digits == [] {
      assert text == lead + trail;
      AllBlank(lead, trail);
    } else {
      assert text == lead + (digits + trail);
      TrimmedLeft(lead, digits + trail);
      TrimmedRight(digits, trail);
    }
    ValueIsWorth(digits);
  }

  lemma NumeralOf(field: seq<Byte>) returns (lead: seq<Byte>, digits: seq<Byte>, trail: seq<Byte>, rest: seq<Byte>)
    requires ReadOctal(field).Some?
    ensures Numeral(field, lead, digits, trail, rest)
  {
    rest := NulSplits(field);
    var text := UntilNul(field);
    lead := TrimLeftSplits(text);
    trail := TrimRightSplits(TrimLeft(text));
    digits := TrimRight(TrimLeft(text));
    assert field == lead + digits + trail + rest;
  }

  /** A number field is read as `n` exactly when it is octal digits worth `n`, leading zeros or
      none at all included, between blanks and up to a NUL, and `n` is a safe integer; whatever
      else stands before the NUL makes it an error. */
  lemma OctalExact(field: seq<Byte>, n: nat)
    ensures ReadOctal(field) == Some(n) <==>
            exists lead, digits, trail, rest ::
              Numeral(field, lead, digits, trail, rest) && Worth(digits) == n && n <= MAX_SAFE_INTEGER
  {
    if ReadOctal(field) == Some(n) {
      var lead, digits, trail, rest := NumeralOf(field);
      NumeralRead(field, lead, digits, trail, rest);
    }
    if lead, digits, trail, rest :|
      Numeral(field, lead, digits, trail, rest) && Worth(digits) == n && n <= MAX_SAFE_INTEGER
    {
      NumeralRead(field, lead, digits, trail, rest);
    }
  }

  // ----- writing numbers

  /** `width` octal digits of `n`, the last ones if it has more. */
  function Octal(n: nat, width: nat): seq<Byte> {
    if width == 0 then [] else Octal(n / 8, width - 1) + [48 + n % 8]
  }

  lemma {:induction false} OctalWorth(n: nat, width: nat)
    requires n < Pow8(width)
    ensures |Octal(n, width)| == width && AllOctal(Octal(n, width)) && Worth(Octal(n, width)) == n
  {
    if width == 0 {
    } else {
      OctalWorth(n / 8, width - 1);
      WorthSnoc(Octal(n / 8, width - 1), 48 + n % 8);
    }
  }

  lemma DigitsRead(digits: seq<Byte>, rest: seq<Byte>)
    requires AllOctal(digits) && Worth(digits) <= MAX_SAFE_INTEGER && Stops(rest)
    ensures ReadOctal(digits + rest) == Some(Worth(digits))
  {
    assert digits + rest == [] + digits + [] + rest;
    NumeralRead(digits + rest, [], digits, [], rest);
  }

  /** Every safe integer is read back from its octal digits, with leading zeros or without. */
  lemma OctalRoundTrip(n: nat, width: nat, rest: seq<Byte>)
    requires n < Pow8(width) && n <= MAX_SAFE_INTEGER && Stops(rest)
    ensures ReadOctal(Octal(n, width) + rest) == Some(n)
  {
    OctalWorth(n, width);
    DigitsRead(Octal(n, width), rest);
  }

  // ----- paths

  /** The components with a slash between each two. */
  ghost function Joined(parts: seq<seq<Byte>>): seq<Byte>
    requires parts != []
  {
    if |parts| == 1 then parts[0] else parts[0] + [47] + Joined(parts[1..])
  }

  ghost predicate Lacks(s: seq<Byte>, b: Byte) {
    forall i :: 0 <= i < |s| ==> s[i] != b
  }

  ghost predicate Slashless(parts: seq<seq<Byte>>) {
    forall i :: 0 <= i < |parts| ==> Lacks(parts[i], 47)
  }

  lemma JoinSlash(rest: seq<seq<Byte>>)
    requires rest != []
    ensures Joined([[]] + rest) == [47] + Joined(rest)
  {
    assert ([[]] + rest)[1..] == rest;
  }

  lemma JoinByte(b: Byte, rest: seq<seq<Byte>>)
    requires rest != []
    ensures Joined([[b] + rest[0]] + rest[1..]) == [b] + Joined(rest)
  {
    assert ([[b] + rest[0]] + rest[1..])[1..] == rest[1..];
    if |rest| > 1 {
      assert [b] + rest[0] + [47] + Joined(rest[1..]) == [b] + (rest[0] + [47] + Joined(rest[1..]));
    }
  }

  lemma {:induction false} PartsSlashless(name: seq<Byte>)
    ensures Slashless(Parts(name))
  {
    if name == [] {
    } else {
      PartsSlashless(name[1..]);
    }
  }

  lemma {:induction false} PartsJoin(name: seq<Byte>)
    ensures Joined(Parts(name)) == name
  {
    if name == [] {
    } else {
      var rest := Parts(name[1..]);
      PartsJoin(name[1..]);
      if name[0] == 47 {
        JoinSlash(rest);
      } else {
        JoinByte(name[0], rest);
      }
      assert name == [name[0]] + name[1..];
    }
  }

  lemma {:induction false} JoinedParts(parts: seq<seq<Byte>>)
    requires parts != [] && Slashless(parts)
    ensures Parts(Joined(parts)) == parts
    decreases |parts|, |parts[0]|
  {
    var name := Joined(parts);
    if parts[0] != [] {
      var fewer := [parts[0][1..]] + parts[1..];
      assert forall i :: 0 <= i < |fewer| ==> fewer[i] == if i == 0 then parts[0][1..] else parts[i];
      assert Lacks(parts[0], 47);
      JoinedParts(fewer);
      assert fewer[1..] == parts[1..];
      assert name[1..] == Joined(fewer) && name[0] == parts[0][0];
      assert [parts[0][0]] + fewer[0] == parts[0];
    } else if |parts| > 1 {
      JoinedParts(parts[1..]);
      assert name[1..] == Joined(parts[1..]);
      assert [[]] + parts[1..] == parts;
    } else {
      assert parts == [[]];
    }
  }

  /** A component that names a file or a directory below. */
  ghost predicate Plain(part: seq<Byte>) {
    part != [] && part != [46] && part != [46, 46] && Lacks(part, 47) && Lacks(part, 92)
  }

  lemma {:induction false} LacksJoined(parts: seq<seq<Byte>>, b: Byte)
    requires parts != [] && b != 47
    ensures Lacks(Joined(parts), b) <==> forall i :: 0 <= i < |parts| ==> Lacks(parts[i], b)
  {
    if |parts| == 1 {
    } else {
      var rest := parts[1..];
      LacksJoined(rest, b);
      LacksAppend(parts[0], [47], b);
      LacksAppend(parts[0] + [47], Joined(rest), b);
      assert forall i :: 0 < i < |parts| ==> parts[i] == rest[i - 1];
      assert forall i :: 0 <= i < |rest| ==> rest[i] == parts[i + 1];
    }
  }

  lemma LacksAppend(a: seq<Byte>, c: seq<Byte>, b: Byte)
    ensures Lacks(a + c, b) <==> Lacks(a, b) && Lacks(c, b)
  {
    if Lacks(a + c, b) {
      assert forall i :: 0 <= i < |a| ==> a[i] == (a + c)[i];
      assert forall i :: 0 <= i < |c| ==> c[i] == (a + c)[|a| + i];
    }
  }

  /** A name is safe exactly when it is plain components, one or more, with slashes between. */
  lemma SafePathExact(name: seq<Byte>)
    ensures SafePath(name) <==>
            exists parts: seq<seq<Byte>> ::
              parts != [] && name == Joined(parts) && forall i :: 0 <= i < |parts| ==> Plain(parts[i])
  {
    PartsJoin(name);
    PartsSlashless(name);
    LacksJoined(Parts(name), 92);
    if SafePath(name) {
      assert Lacks(name, 92);
      assert forall i :: 0 <= i < |Parts(name)| ==> Plain(Parts(name)[i]);
    }
    if parts: seq<seq<Byte>> :|
      parts != [] && name == Joined(parts) && forall i :: 0 <= i < |parts| ==> Plain(parts[i])
    {
      JoinedParts(parts);
      SafeJoined(parts);
    }
  }

  lemma SafeJoined(parts: seq<seq<Byte>>)
    requires parts != [] && forall i :: 0 <= i < |parts| ==> Plain(parts[i])
    ensures SafePath(Joined(parts))
  {
    var name := Joined(parts);
    JoinedParts(parts);
    LacksJoined(parts, 92);
    assert Plain(parts[0]) && name[0] == parts[0][0];
  }
}
