/** What JSON texts are read as, told on the characters of RFC 8259 rather than by the scanner. */
module JsonMeaning {
  import opened Basics
  import opened JsonText
  import opened JsonScan
  import opened CanonicalJson

  /** The code units of ASCII characters. */
  function Ascii(s: string): Text
    requires forall i :: 0 <= i < |s| ==> s[i] < 128 as char
  {
    seq(|s|, i requires 0 <= i < |s| => s[i] as int)
  }

  // ----- scalars

  lemma ScalarRead(r: Rules, token: Text)
    requires IsScalar(token) && r.maxNodes >= 1
    ensures ReadStrict(r, token) == Some(ScalarValue(r, token))
  {
    var tree := Scalar([], token);
    TreeVerdict(r, tree, []);
    assert Put(tree, []) == token;
  }

  lemma Literals(r: Rules)
    requires r.maxNodes >= 1
    ensures ReadStrict(r, Ascii("true")) == Some(Bool(true))
    ensures ReadStrict(r, Ascii("false")) == Some(Bool(false))
    ensures ReadStrict(r, Ascii("null")) == Some(Null)
  {
    assert Ascii("true") == TRUE && Ascii("false") == FALSE && Ascii("null") == NULL;
    assert TRUE != FALSE && TRUE != NULL && FALSE != NULL;
    ScalarRead(r, TRUE);
    ScalarRead(r, FALSE);
    ScalarRead(r, NULL);
  }

  /** The white space between tokens. */
  lemma Spaces(u: Unit)
    ensures IsSpace(u) <==> u in Ascii("\t\n\r ")
  {
    var spaces := Ascii("\t\n\r ");
    assert spaces == [9, 10, 13, 32];
  }

  // ----- strings

  /** The letters that stand for a character after a backslash, and those characters. */
  const LETTERS: string := "\"\\/bfnrt"
  const MEANT: seq<Unit> := [0x22, 0x5C, 0x2F, 0x08, 0x0C, 0x0A, 0x0D, 0x09]

  lemma ShortEscapes(i: nat, rest: Text)
    requires i < |LETTERS|
    ensures Decode([BACKSLASH, LETTERS[i] as int] + rest) == Cons(MEANT[i], Decode(rest))
  {
    EscapedShort(LETTERS[i] as int, rest);
  }

  /** Nothing but those letters and `u` may follow a backslash. */
  lemma OtherEscapes(u: Unit, rest: Text)
    requires u != 'u' as int && forall i :: 0 <= i < |LETTERS| ==> u != LETTERS[i] as int
    ensures Decode([BACKSLASH, u] + rest) == None
  {
    assert LETTERS[0] == '\"' && LETTERS[1] == '\\' && LETTERS[2] == '/' && LETTERS[3] == 'b';
    assert LETTERS[4] == 'f' && LETTERS[5] == 'n' && LETTERS[6] == 'r' && LETTERS[7] == 't';
  }

  /** A hexadecimal digit, in either case. */
  function Hex(n: nat, upper: bool): Unit
    requires n < 16
  {
    if n < 10 then '0' as int + n else (if upper then 'A' as int else 'a' as int) + (n - 10)
  }

  lemma HexMeant(n: nat, upper: bool)
    requires n < 16
    ensures HexValue(Hex(n, upper)) == Some(n)
  {
  }

  /** Four hexadecimal digits, in any case, stand for the code unit they spell. */
  lemma HexEscapes(a: nat, b: nat, c: nat, d: nat, p: bool, q: bool, s: bool, t: bool, rest: Text)
    requires a < 16 && b < 16 && c < 16 && d < 16
    ensures Decode([BACKSLASH, 'u' as int, Hex(a, p), Hex(b, q), Hex(c, s), Hex(d, t)] + rest)
            == Cons(4096 * a + 256 * b + 16 * c + d, Decode(rest))
  {
    var digits := [Hex(a, p), Hex(b, q), Hex(c, s), Hex(d, t)];
    var body := [BACKSLASH, 'u' as int, Hex(a, p), Hex(b, q), Hex(c, s), Hex(d, t)] + rest;
    HexMeant(a, p);
    HexMeant(b, q);
    HexMeant(c, s);
    HexMeant(d, t);
    assert HexUnit(digits) == Some(4096 * a + 256 * b + 16 * c + d);
    assert body[2..6] == digits && body[6..] == rest;
  }

  /** Any other character stands for itself, unless it is a quote or a control character. */
  lemma PlainUnits(u: Unit, rest: Text)
    requires u != '\\' as int
    ensures Decode([u] + rest) == if u == '\"' as int || u < 0x20 then None else Cons(u, Decode(rest))
  {
    assert ([u] + rest)[1..] == rest;
  }

  // ----- numbers

  ghost predicate AllDigits(s: Text) {
    s != [] && forall i :: 0 <= i < |s| ==> '0' as int <= s[i] <= '9' as int
  }

  /** An integer part: zero, or digits that do not start with it. */
  ghost predicate IntegerPart(s: Text) {
    AllDigits(s) && (s[0] == '0' as int ==> |s| == 1)
  }

  ghost predicate FractionPart(s: Text) {
    s == [] || (s[0] == '.' as int && AllDigits(s[1..]))
  }

  ghost predicate Signed(s: Text) {
    s != [] && (AllDigits(s) || ((s[0] == '+' as int || s[0] == '-' as int) && AllDigits(s[1..])))
  }

  ghost predicate ExponentPart(s: Text) {
    s == [] || ((s[0] == 'e' as int || s[0] == 'E' as int) && Signed(s[1..]))
  }

  ghost predicate Spelled(t: Text, minus: Text, whole: Text, fraction: Text, exponent: Text) {
    && t == minus + whole + fraction + exponent && (minus == [] || minus == ['-' as int])
    && IntegerPart(whole) && FractionPart(fraction) && ExponentPart(exponent)
  }

  lemma {:induction false} DigitsAll(s: Text, rest: Text)
    requires AllDigits(s) && (rest == [] || !IsDigit(rest[0]))
    ensures Digits(s + rest) == |s|
  {
    assert (s + rest)[1..] == s[1..] + rest;
    if |s| > 1 {
      DigitsAll(s[1..], rest);
    } else {
      assert s[1..] + rest == rest;
    }
  }

  lemma {:induction false} DigitsTaken(s: Text)
    requires Digits(s) > 0
    ensures AllDigits(s[..Digits(s)])
  {
    var n := Digits(s);
    if Digits(s[1..]) > 0 {
      DigitsTaken(s[1..]);
      assert s[..n] == [s[0]] + s[1..][..n - 1];
    }
  }

  lemma ExponentTaken(s: Text)
    ensures ExponentPart(s[..ExponentLength(s)])
  {
    var n := ExponentLength(s);
    if n > 0 {
      var k := 1 + SignLength(s[1..]);
      DigitsTaken(s[k..]);
      assert s[k..][..n - k] == s[..n][k..];
      assert s[..n][1..][k - 1..] == s[..n][k..];
      if k == 1 {
        assert s[..n][1..] == s[..n][k..];
      } else {
        assert s[..n][1..][1..] == s[..n][k..];
      }
    }
  }

  lemma FractionTaken(s: Text)
    ensures FractionPart(s[..FractionLength(s)])
  {
    var n := FractionLength(s);
    if n > 0 {
      DigitsTaken(s[1..]);
      assert s[1..][..n - 1] == s[..n][1..];
    }
  }

  lemma IntegerTaken(s: Text)
    requires IntegerLength(s) > 0
    ensures IntegerPart(s[..IntegerLength(s)])
  {
    if s[0] != 0x30 {
      DigitsTaken(s);
    }
  }

  lemma TailTaken(s: Text) returns (fraction: Text, exponent: Text)
    requires TailLength(s) == |s|
    ensures s == fraction + exponent && FractionPart(fraction) && ExponentPart(exponent)
  {
    var n := FractionLength(s);
    FractionTaken(s);
    ExponentTaken(s[n..]);
    fraction, exponent := s[..n], s[n..];
    assert exponent[..|exponent|] == exponent;
  }

  lemma UnsignedTaken(s: Text) returns (whole: Text, tail: Text)
    requires UnsignedLength(s) == |s| && s != []
    ensures s == whole + tail && IntegerPart(whole) && TailLength(tail) == |tail|
  {
    var n := IntegerLength(s);
    IntegerTaken(s);
    whole, tail := s[..n], s[n..];
  }

  lemma SignTaken(t: Text) returns (minus: Text, s: Text)
    requires IsNumber(t)
    ensures t == minus + s && (minus == [] || minus == ['-' as int]) && UnsignedLength(s) == |s| && s != []
  {
    var m := MinusLength(t);
    minus, s := t[..m], t[m..];
  }

  /** The parts of a number, as they are found. */
  lemma PartsTaken(t: Text) returns (minus: Text, whole: Text, fraction: Text, exponent: Text)
    requires IsNumber(t)
    ensures Spelled(t, minus, whole, fraction, exponent)
  {
    var s, tail;
    minus, s := SignTaken(t);
    whole, tail := UnsignedTaken(s);
    fraction, exponent := TailTaken(tail);
    Regroup(minus, whole, fraction, exponent);
  }

  lemma ExponentFound(s: Text)
    requires ExponentPart(s)
    ensures ExponentLength(s) == |s|
  {
    if s != [] {
      var k := 1 + SignLength(s[1..]);
      assert s[k..] + [] == s[k..];
      if AllDigits(s[1..]) {
        assert k == 1;
        DigitsAll(s[1..], []);
      } else {
        assert s[1..][1..] == s[2..];
        DigitsAll(s[2..], []);
      }
    }
  }

  lemma FractionFound(s: Text, rest: Text)
    requires FractionPart(s) && (rest == [] || (!IsDigit(rest[0]) && rest[0] != '.' as int))
    ensures FractionLength(s + rest) == |s|
  {
    if s != [] {
      assert (s + rest)[1..] == s[1..] + rest;
      DigitsAll(s[1..], rest);
    } else {
      assert s + rest == rest;
    }
  }

  lemma IntegerFound(s: Text, rest: Text)
    requires IntegerPart(s) && (rest == [] || !IsDigit(rest[0]))
    ensures IntegerLength(s + rest) == |s|
  {
    if s[0] != '0' as int {
      DigitsAll(s, rest);
    }
  }

  lemma TailFound(fraction: Text, exponent: Text)
    requires FractionPart(fraction) && ExponentPart(exponent)
    ensures TailLength(fraction + exponent) == |fraction + exponent|
    ensures fraction + exponent == [] || !IsDigit((fraction + exponent)[0])
  {
    FractionFound(fraction, exponent);
    ExponentFound(exponent);
    assert (fraction + exponent)[|fraction|..] == exponent;
  }

  lemma UnsignedFound(whole: Text, tail: Text)
    requires IntegerPart(whole) && TailLength(tail) == |tail| && (tail == [] || !IsDigit(tail[0]))
    ensures UnsignedLength(whole + tail) == |whole + tail| && (whole + tail)[0] != '-' as int
  {
    IntegerFound(whole, tail);
    assert (whole + tail)[|whole|..] == tail;
  }

  lemma SignFound(minus: Text, s: Text)
    requires (minus == [] || minus == ['-' as int]) && s != [] && UnsignedLength(s) == |s| && s[0] != '-' as int
    ensures IsNumber(minus + s)
  {
    assert (minus + s)[|minus|..] == s;
  }

  lemma PartsFound(t: Text, minus: Text, whole: Text, fraction: Text, exponent: Text)
    requires Spelled(t, minus, whole, fraction, exponent)
    ensures IsNumber(t)
  {
    var tail := fraction + exponent;
    TailFound(fraction, exponent);
    UnsignedFound(whole, tail);
    SignFound(minus, whole + tail);
    Regroup(minus, whole, fraction, exponent);
  }

  /** A text is a number exactly when it is a sign or none, an integer part, and a fraction and an
      exponent or none. */
  lemma NumberExact(t: Text)
    ensures IsNumber(t) <==>
            exists minus, whole, fraction, exponent :: Spelled(t, minus, whole, fraction, exponent)
  {
    if IsNumber(t) {
      var minus, whole, fraction, exponent := PartsTaken(t);
    }
    if minus, whole, fraction, exponent :| Spelled(t, minus, whole, fraction, exponent) {
      PartsFound(t, minus, whole, fraction, exponent);
    }
  }

  // ----- the order of keys, and sizes in bytes

  /** `a` and `b` agree up to position `i`, where `b` goes on with more. */
  ghost predicate Differ(a: Text, b: Text, i: int) {
    && 0 <= i <= |a| && i < |b| && (forall j :: 0 <= j < i ==> a[j] == b[j])
    && (i == |a| || a[i] < b[i])
  }

  /** A key comes before another if it is the smaller at the first difference, or ends there. */
  lemma {:induction false} BeforeExact(a: Text, b: Text)
    ensures Before(a, b) <==> exists i :: Differ(a, b, i)
  {
    if b == [] {
    } else if a == [] || a[0] < b[0] {
      assert Differ(a, b, 0);
    } else if a[0] == b[0] {
      BeforeExact(a[1..], b[1..]);
      if i :| Differ(a[1..], b[1..], i) {
        assert forall j :: 0 < j < i + 1 ==> a[j] == a[1..][j - 1] && b[j] == b[1..][j - 1];
        assert Differ(a, b, i + 1);
      }
      if i :| Differ(a, b, i) {
        assert i > 0;
        assert forall j :: 0 <= j < i - 1 ==> a[1..][j] == a[j + 1] && b[1..][j] == b[j + 1];
        assert Differ(a[1..], b[1..], i - 1);
      }
    }
  }

  /** The code point of a surrogate pair. */
  function PairValue(high: Unit, low: Unit): nat
    requires HighSurrogate(high) && LowSurrogate(low)
  {
    0x10000 + (high - 0xD800) * 0x400 + (low - 0xDC00)
  }

  /** UTF-8 as in section 3 of RFC 3629; a lone surrogate becomes the replacement character. */
  function Utf8Point(c: nat): seq<Byte>
    requires c < 0x110000
  {
    if c < 0x80 then [c]
    else if c < 0x800 then [0xC0 + c / 0x40, 0x80 + c % 0x40]
    else if c < 0x10000 then [0xE0 + c / 0x1000, 0x80 + c / 0x40 % 0x40, 0x80 + c % 0x40]
    else [0xF0 + c / 0x40000, 0x80 + c / 0x1000 % 0x40, 0x80 + c / 0x40 % 0x40, 0x80 + c % 0x40]
  }

  function Utf8(t: Text): seq<Byte> {
    if t == [] then []
    else if StartsPair(t) then Utf8Point(PairValue(t[0], t[1])) + Utf8(t[2..])
    else Utf8Point(if HighSurrogate(t[0]) || LowSurrogate(t[0]) then 0xFFFD else t[0]) + Utf8(t[1..])
  }

  lemma {:induction false} Utf8SizeExact(t: Text)
    ensures Utf8Size(t) == |Utf8(t)|
  {
    if t == [] {
    } else if StartsPair(t) {
      Utf8SizeExact(t[2..]);
    } else {
      Utf8SizeExact(t[1..]);
    }
  }
}
